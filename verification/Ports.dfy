/** The port lists of range mode (parsePortRanges and ExcludePorts in
    config/config.go): text to ranges and back. */
module Ports {
  import opened Options
  import opened Text

  const MAX_PORT: int := 65535

  /** An inclusive range of ports. */
  datatype Range = Range(lo: int, hi: int) {
    predicate Ok() {
      1 <= lo <= hi <= MAX_PORT
    }

    predicate Has(p: int) {
      lo <= p <= hi
    }
  }

  predicate AllOk(rs: seq<Range>) {
    forall i | 0 <= i < |rs| :: rs[i].Ok()
  }

  /** One comma-separated piece: nothing, an error, or a range. */
  datatype Piece = Skip | Bad | Got(range: Range)

  function CheckRange(lo: Option<int>, hi: Option<int>): Piece {
    if lo == None || hi == None || lo.value < 1 || hi.value > MAX_PORT || lo.value > hi.value then Bad
    else Got(Range(lo.value, hi.value))
  }

  function ParsePiece(text: string): Piece {
    var part := Trim(text);
    if part == "" then Skip
    else match Find(part, '-')
         case Some(i) =>
           FindNone(part, '-');
           CheckRange(Atoi(Trim(part[..i])), Atoi(Trim(part[i + 1..])))
         case None => CheckRange(Atoi(part), Atoi(part))
  }

  function Pieces(parts: seq<string>): (ps: seq<Piece>)
    ensures |ps| == |parts|
  {
    seq(|parts|, i requires 0 <= i < |parts| => ParsePiece(parts[i]))
  }

  /** The ranges of all pieces, in order, or nothing when one piece is wrong. */
  function Collect(ps: seq<Piece>): Option<seq<Range>> {
    if ps == [] then Some([])
    else match Collect(ps[..|ps| - 1])
         case None => None
         case Some(rs) =>
           match ps[|ps| - 1]
           case Skip => Some(rs)
           case Bad => None
           case Got(r) => Some(rs + [r])
  }

  lemma CollectStep(ps: seq<Piece>, i: nat)
    requires i < |ps|
    ensures Collect(ps[..i + 1])
         == match Collect(ps[..i])
            case None => None
            case Some(rs) =>
              match ps[i]
              case Skip => Some(rs)
              case Bad => None
              case Got(r) => Some(rs + [r])
  {
    assert ps[..i + 1][..i] == ps[..i];
  }

  lemma {:induction false} BadFails(ps: seq<Piece>, i: nat)
    requires i < |ps| && ps[i] == Bad
    ensures Collect(ps) == None
  {
    if i < |ps| - 1 {
      BadFails(ps[..|ps| - 1], i);
    }
  }

  /** parsePortRanges: nothing when a piece is wrong or no piece is left. */
  function ParseRanges(s: string): Option<seq<Range>> {
    var r := Collect(Pieces(Split(s, ',')));
    if r == Some([]) then None else r
  }

  method ParsePortRanges(s: string) returns (out: Option<seq<Range>>)
    ensures out == ParseRanges(s)
  {
    var rs: seq<Range> := [];
    var parts := Split(s, ',');
    ghost var ps := Pieces(parts);
    for i := 0 to |parts|
      invariant Collect(ps[..i]) == Some(rs)
    {
      CollectStep(ps, i);
      var part := Trim(parts[i]);
      if part == "" {
        continue;
      }
      var lo, hi;
      var dash := Find(part, '-');
      FindNone(part, '-');
      if dash.Some? {
        lo, hi := Atoi(Trim(part[..dash.value])), Atoi(Trim(part[dash.value + 1..]));
      } else {
        lo, hi := Atoi(part), Atoi(part);
      }
      assert ps[i] == CheckRange(lo, hi);
      if lo == None || hi == None || lo.value < 1 || hi.value > MAX_PORT || lo.value > hi.value {
        BadFails(ps, i);
        return None;
      }
      rs := rs + [Range(lo.value, hi.value)];
    }
    assert ps[..|parts|] == ps;
    return if rs == [] then None else Some(rs);
  }

  /** ExcludePorts knows single ports only; an empty list is fine. */
  function ParsePort(text: string): Piece {
    var part := Trim(text);
    if part == "" then Skip else CheckRange(Atoi(part), Atoi(part))
  }

  function PortPieces(parts: seq<string>): (ps: seq<Piece>)
    ensures |ps| == |parts|
  {
    seq(|parts|, i requires 0 <= i < |parts| => ParsePort(parts[i]))
  }

  function Lows(rs: seq<Range>): (ps: seq<int>)
    ensures |ps| == |rs|
  {
    seq(|rs|, i requires 0 <= i < |rs| => rs[i].lo)
  }

  function ParseExclude(s: string): Option<seq<int>> {
    match Collect(PortPieces(Split(s, ',')))
    case None => None
    case Some(rs) => Some(Lows(rs))
  }

  method ExcludePorts(s: string) returns (out: Option<seq<int>>)
    ensures out == ParseExclude(s)
  {
    var ports: seq<int> := [];
    var parts := Split(s, ',');
    ghost var ps := PortPieces(parts);
    ghost var rs: seq<Range> := [];
    for i := 0 to |parts|
      invariant Collect(ps[..i]) == Some(rs) && ports == Lows(rs)
    {
      CollectStep(ps, i);
      var part := Trim(parts[i]);
      if part == "" {
        continue;
      }
      var p := Atoi(part);
      if p == None || p.value < 1 || p.value > MAX_PORT {
        BadFails(ps, i);
        return None;
      }
      ports := ports + [p.value];
      rs := rs + [Range(p.value, p.value)];
    }
    assert ps[..|parts|] == ps;
    return Some(ports);
  }

  // ---- what the parsers accept ----

  lemma {:induction false} CollectOk(ps: seq<Piece>)
    requires forall i | 0 <= i < |ps| && ps[i].Got? :: ps[i].range.Ok()
    ensures Collect(ps).Some? ==> AllOk(Collect(ps).value)
  {
    if ps == [] {
    } else {
      CollectOk(ps[..|ps| - 1]);
    }
  }

  lemma ParsePieceOk(text: string)
    ensures ParsePiece(text).Got? ==> ParsePiece(text).range.Ok()
  {
  }

  /** Whatever the parsers accept consists of valid ports, and of at least one range. */
  lemma AcceptedOk(s: string)
    ensures ParseRanges(s).Some? ==> ParseRanges(s).value != [] && AllOk(ParseRanges(s).value)
    ensures ParseExclude(s).Some? ==>
              forall i | 0 <= i < |ParseExclude(s).value| :: 1 <= ParseExclude(s).value[i] <= MAX_PORT
  {
    var parts := Split(s, ',');
    forall i | 0 <= i < |parts|
      ensures Pieces(parts)[i].Got? ==> Pieces(parts)[i].range.Ok()
    {
      ParsePieceOk(parts[i]);
    }
    CollectOk(Pieces(parts));
    CollectOk(PortPieces(parts));
  }

  // ---- printing then parsing ----

  function RenderRange(r: Range): string
    requires r.Ok()
  {
    if r.lo == r.hi then Itoa(r.lo) else Itoa(r.lo) + "-" + Itoa(r.hi)
  }

  function RenderRanges(rs: seq<Range>): (ps: seq<string>)
    requires AllOk(rs)
    ensures |ps| == |rs| && forall i | 0 <= i < |rs| :: ps[i] == RenderRange(rs[i])
  {
    seq(|rs|, i requires 0 <= i < |rs| => RenderRange(rs[i]))
  }

  lemma NumeralTrimmed(s: string)
    requires Numeral(s)
    ensures Trim(s) == s && '-' !in s && ',' !in s
  {
    TrimMeans(s);
  }

  /** Two numerals with a dash between them. */
  lemma ParseDashed(a: string, b: string)
    requires Numeral(a) && Numeral(b)
    ensures ParsePiece(a + "-" + b) == CheckRange(Atoi(a), Atoi(b)) && ',' !in a + "-" + b
  {
    var s := a + "-" + b;
    NumeralTrimmed(a);
    NumeralTrimmed(b);
    FindFirst(a, b, '-');
    assert s == a + ['-'] + b;
    assert IsDigit(a[0]) && s[0] == a[0] && IsDigit(b[|b| - 1]) && s[|s| - 1] == b[|b| - 1];
    TrimMeans(s);
    assert s[..|a|] == a && s[|a| + 1..] == b;
  }

  lemma ParseSingle(a: string)
    requires Numeral(a)
    ensures ParsePiece(a) == CheckRange(Atoi(a), Atoi(a)) && ',' !in a
  {
    NumeralTrimmed(a);
    FindNone(a, '-');
  }

  lemma ParseRenderedRange(r: Range)
    requires r.Ok()
    ensures ParsePiece(RenderRange(r)) == Got(r) && ',' !in RenderRange(r)
  {
    AtoiOfItoa(r.lo);
    AtoiOfItoa(r.hi);
    if r.lo == r.hi {
      ParseSingle(Itoa(r.lo));
    } else {
      ParseDashed(Itoa(r.lo), Itoa(r.hi));
    }
  }

  lemma {:induction false} CollectGot(ps: seq<Piece>, rs: seq<Range>, k: nat)
    requires |ps| == |rs| && k <= |rs| && forall i | 0 <= i < |rs| :: ps[i] == Got(rs[i])
    ensures Collect(ps[..k]) == Some(rs[..k])
  {
    if k == 0 {
    } else {
      CollectGot(ps, rs, k - 1);
      CollectStep(ps, k - 1);
      assert rs[..k] == rs[..k - 1] + [rs[k - 1]];
    }
  }

  /** Every non-empty list of valid ranges can be written down and is read back. */
  lemma ParseRangesOfRender(rs: seq<Range>)
    requires rs != [] && AllOk(rs)
    ensures ParseRanges(Join(RenderRanges(rs), ',')) == Some(rs)
  {
    var ps := RenderRanges(rs);
    forall i | 0 <= i < |ps|
      ensures ',' !in ps[i] && Pieces(ps)[i] == Got(rs[i])
    {
      ParseRenderedRange(rs[i]);
    }
    SplitOfJoin(ps, ',');
    CollectGot(Pieces(ps), rs, |rs|);
    assert Pieces(ps)[..|rs|] == Pieces(ps) && rs[..|rs|] == rs;
  }

  function RenderPorts(ports: seq<nat>): (ps: seq<string>)
    ensures |ps| == |ports| && forall i | 0 <= i < |ports| :: ps[i] == Itoa(ports[i])
  {
    seq(|ports|, i requires 0 <= i < |ports| => Itoa(ports[i]))
  }

  lemma ParseRenderedPort(p: nat)
    requires 1 <= p <= MAX_PORT
    ensures ParsePort(Itoa(p)) == Got(Range(p, p)) && ',' !in Itoa(p)
  {
    AtoiOfItoa(p);
    NumeralTrimmed(Itoa(p));
  }

  /** So can every non-empty list of valid ports to exclude. */
  lemma ParseExcludeOfRender(ports: seq<nat>)
    requires ports != [] && forall i | 0 <= i < |ports| :: 1 <= ports[i] <= MAX_PORT
    ensures ParseExclude(Join(RenderPorts(ports), ',')) == Some(ports)
  {
    var ps := RenderPorts(ports);
    var rs := seq(|ports|, i requires 0 <= i < |ports| => Range(ports[i], ports[i]));
    forall i | 0 <= i < |ps|
      ensures ',' !in ps[i] && PortPieces(ps)[i] == Got(rs[i])
    {
      ParseRenderedPort(ports[i]);
    }
    SplitOfJoin(ps, ',');
    CollectGot(PortPieces(ps), rs, |rs|);
    assert PortPieces(ps)[..|rs|] == PortPieces(ps) && rs[..|rs|] == rs;
    assert Lows(rs) == ports;
  }

  // ---- as people write it ----

  /** A piece of a list as written: white space, one port, or a range, with white space
      anywhere but inside a number. */
  datatype Written =
    | Nothing(pad: string)
    | One(before: string, port: nat, after: string)
    | Span(before: string, lo: nat, left: string, right: string, hi: nat, after: string)
  {
    predicate Ok() {
      match this
      case Nothing(pad) => Blank(pad)
      case One(b, p, a) => Blank(b) && Blank(a) && Range(p, p).Ok()
      case Span(b, lo, l, r, hi, a) => Blank(b) && Blank(l) && Blank(r) && Blank(a) && Range(lo, hi).Ok()
    }

    function Text(): string {
      match this
      case Nothing(pad) => pad
      case One(b, p, a) => b + Itoa(p) + a
      case Span(b, lo, l, r, hi, a) => b + (Itoa(lo) + l + "-" + (r + Itoa(hi))) + a
    }

    function Says(): Piece {
      match this
      case Nothing(_) => Skip
      case One(_, p, _) => Got(Range(p, p))
      case Span(_, lo, _, _, hi, _) => Got(Range(lo, hi))
    }
  }

  lemma BlankHas(s: string)
    requires Blank(s)
    ensures '-' !in s && ',' !in s
  {
  }

  lemma NumeralPadded(s: string, b: string, a: string)
    requires Numeral(s) && Blank(b) && Blank(a)
    ensures Trim(b + s + a) == s && '-' !in b + s + a && ',' !in b + s + a
  {
    TrimPadded(b, s, a);
    NumeralTrimmed(s);
    BlankHas(b);
    BlankHas(a);
  }

  lemma ParseOne(w: Written)
    requires w.One? && w.Ok()
    ensures ParsePiece(w.Text()) == ParsePort(w.Text()) == w.Says() && ',' !in w.Text()
  {
    NumeralPadded(Itoa(w.port), w.before, w.after);
    AtoiOfItoa(w.port);
    NumeralTrimmed(Itoa(w.port));
    FindNone(Itoa(w.port), '-');
  }

  lemma DashSplits(x: string, y: string)
    requires '-' !in x
    ensures var core := x + "-" + y;
            Find(core, '-') == Some(|x|) && core[..|x|] == x && core[|x| + 1..] == y
  {
    FindFirst(x, y, '-');
    assert x + "-" + y == x + ['-'] + y;
  }

  lemma DigitEnds(x: string, y: string)
    requires x != "" && IsDigit(x[0]) && y != "" && IsDigit(y[|y| - 1])
    ensures Trimmed(x + "-" + y)
  {
    var core := x + "-" + y;
    assert core[0] == x[0] && core[|core| - 1] == y[|y| - 1];
  }

  lemma LeftSide(s: string, l: string)
    requires Numeral(s) && Blank(l)
    ensures '-' !in s + l && ',' !in s + l && IsDigit((s + l)[0]) && Trim(s + l) == s
  {
    NumeralPadded(s, "", l);
    assert "" + s + l == s + l;
  }

  lemma RightSide(r: string, s: string)
    requires Numeral(s) && Blank(r)
    ensures ',' !in r + s && IsDigit((r + s)[|r + s| - 1]) && Trim(r + s) == s
  {
    NumeralPadded(s, r, "");
    assert r + s + "" == r + s;
  }

  /** A range with white space around it and around its dash. */
  lemma ParseSpan(w: Written)
    requires w.Span? && w.Ok()
    ensures ParsePiece(w.Text()) == w.Says() && ',' !in w.Text()
  {
    var x, y := Itoa(w.lo) + w.left, w.right + Itoa(w.hi);
    LeftSide(Itoa(w.lo), w.left);
    RightSide(w.right, Itoa(w.hi));
    AtoiOfItoa(w.lo);
    AtoiOfItoa(w.hi);
    ParseSides(w.before, x, y, w.after);
    BlankHas(w.before);
    BlankHas(w.after);
  }

  lemma ParseSides(b: string, x: string, y: string, a: string)
    requires Blank(b) && Blank(a) && '-' !in x
    requires x != "" && IsDigit(x[0]) && y != "" && IsDigit(y[|y| - 1])
    ensures ParsePiece(b + (x + "-" + y) + a) == CheckRange(Atoi(Trim(x)), Atoi(Trim(y)))
  {
    DashSplits(x, y);
    DigitEnds(x, y);
    TrimPadded(b, x + "-" + y, a);
    TrimMeans(x + "-" + y);
  }

  lemma ParseWritten(w: Written)
    requires w.Ok()
    ensures ParsePiece(w.Text()) == w.Says() && ',' !in w.Text()
    ensures !w.Span? ==> ParsePort(w.Text()) == w.Says()
  {
    match w
    case Nothing(pad) =>
      TrimMeans(pad);
      BlankHas(pad);
    case One(_, _, _) => ParseOne(w);
    case Span(_, _, _, _, _, _) => ParseSpan(w);
  }

  function Texts(ws: seq<Written>): (ts: seq<string>)
    ensures |ts| == |ws| && forall i | 0 <= i < |ws| :: ts[i] == ws[i].Text()
  {
    seq(|ws|, i requires 0 <= i < |ws| => ws[i].Text())
  }

  /** The ranges that are written, in order. */
  function Meant(ws: seq<Written>): seq<Range> {
    if ws == [] then []
    else
      var rest := Meant(ws[..|ws| - 1]);
      match ws[|ws| - 1].Says()
      case Got(r) => rest + [r]
      case _ => rest
  }

  lemma {:induction false} CollectWritten(ps: seq<Piece>, ws: seq<Written>, k: nat)
    requires |ps| == |ws| && k <= |ws| && forall i | 0 <= i < |ws| :: ps[i] == ws[i].Says()
    ensures Collect(ps[..k]) == Some(Meant(ws[..k]))
  {
    if k == 0 {
    } else {
      CollectWritten(ps, ws, k - 1);
      CollectStep(ps, k - 1);
      assert ws[..k][..k - 1] == ws[..k - 1];
    }
  }

  /** A list of ports and ranges is read as it is meant, white space and empty pieces or
      not, as long as it says anything. */
  lemma ParseRangesAsWritten(ws: seq<Written>)
    requires ws != [] && forall i | 0 <= i < |ws| :: ws[i].Ok()
    ensures ParseRanges(Join(Texts(ws), ',')) == if Meant(ws) == [] then None else Some(Meant(ws))
  {
    var ts := Texts(ws);
    forall i | 0 <= i < |ts|
      ensures ',' !in ts[i] && Pieces(ts)[i] == ws[i].Says()
    {
      ParseWritten(ws[i]);
    }
    SplitOfJoin(ts, ',');
    CollectWritten(Pieces(ts), ws, |ws|);
    assert Pieces(ts)[..|ws|] == Pieces(ts) && ws[..|ws|] == ws;
  }

  /** So is a list of ports to exclude, even if it says nothing. */
  lemma ParseExcludeAsWritten(ws: seq<Written>)
    requires ws != [] && forall i | 0 <= i < |ws| :: ws[i].Ok() && !ws[i].Span?
    ensures ParseExclude(Join(Texts(ws), ',')) == Some(Lows(Meant(ws)))
  {
    var ts := Texts(ws);
    forall i | 0 <= i < |ts|
      ensures ',' !in ts[i] && PortPieces(ts)[i] == ws[i].Says()
    {
      ParseWritten(ws[i]);
    }
    SplitOfJoin(ts, ',');
    CollectWritten(PortPieces(ts), ws, |ws|);
    assert PortPieces(ts)[..|ws|] == PortPieces(ts) && ws[..|ws|] == ws;
  }

  // ---- what is refused ----

  lemma {:induction false} CollectFails(ps: seq<Piece>)
    ensures Collect(ps) == None <==> HasBad(ps)
    ensures Collect(ps) == Some([]) <==> forall i | 0 <= i < |ps| :: ps[i] == Skip
  {
    if ps == [] {
    } else {
      CollectFails(ps[..|ps| - 1]);
      assert ps == ps[..|ps| - 1] + [ps[|ps| - 1]];
    }
  }

  /** A list is refused exactly when a piece of it is wrong or, for ranges, when all its
      pieces are blank; and a piece that is not blank is right only if it is a number, or
      two with a dash between them, from 1 to 65535 and in order. */
  lemma RefusedIff(s: string)
    ensures ParseRanges(s) == None <==> HasBad(Pieces(Split(s, ','))) || AllBlank(Split(s, ','))
    ensures ParseExclude(s) == None <==> HasBad(PortPieces(Split(s, ',')))
  {
    var ps := Split(s, ',');
    CollectFails(Pieces(ps));
    CollectFails(PortPieces(ps));
    AllSkipped(ps);
  }

  predicate HasBad(ps: seq<Piece>) {
    exists i :: 0 <= i < |ps| && ps[i] == Bad
  }

  predicate AllBlank(ts: seq<string>) {
    forall i | 0 <= i < |ts| :: Blank(ts[i])
  }

  lemma AllSkipped(ts: seq<string>)
    ensures AllBlank(ts) <==> forall i | 0 <= i < |ts| :: Pieces(ts)[i] == Skip
  {
    forall i | 0 <= i < |ts|
      ensures Pieces(ts)[i] == Skip <==> Blank(ts[i])
    {
      TrimMeans(ts[i]);
    }
    if forall i | 0 <= i < |ts| :: Pieces(ts)[i] == Skip {
      forall i | 0 <= i < |ts|
        ensures Blank(ts[i])
      {
        assert Pieces(ts)[i] == Skip;
      }
    }
  }

  lemma RightPiece(text: string)
    ensures ParsePiece(text) == Skip <==> Blank(text)
    ensures forall r: Range :: ParsePiece(text) == Got(r) ==>
              r.Ok() && exists a: string, b: string ::
                Atoi(a) == Some(r.lo) && Atoi(b) == Some(r.hi) && (Trim(text) == a == b || Dashes(Trim(text), a, b))
  {
    var part := Trim(text);
    TrimMeans(text);
    if Find(part, '-').Some? {
      var i := Find(part, '-').value;
      FindCuts(part, '-');
      var a, b := Trim(part[..i]), Trim(part[i + 1..]);
      assert Dashes(part, a, b);
    }
  }

  /** `a` and `b`, up to white space, are what is on either side of the first dash. */
  ghost predicate Dashes(part: string, a: string, b: string) {
    exists x: string, y: string :: part == x + "-" + y && '-' !in x && a == Trim(x) && b == Trim(y)
  }

  lemma {:induction false} FindCuts(s: string, sep: char)
    requires Find(s, sep).Some?
    ensures var i := Find(s, sep).value; s == s[..i] + [sep] + s[i + 1..] && sep !in s[..i]
  {
    if s[0] == sep {
    } else {
      FindCuts(s[1..], sep);
      var i := Find(s[1..], sep).value;
      assert s[..i + 1] == [s[0]] + s[1..][..i];
    }
  }
}
