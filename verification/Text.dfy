/** The string functions the configuration code leans on: strings.TrimSpace,
    strings.ToLower, strings.Split, strconv and the order of strings. */
module Text {
  import opened Options

  /** Unicode's White_Space. */
  predicate IsSpace(c: char) {
    || c == ' ' || '\t' <= c <= '\r' || c == '\U{85}' || c == '\U{A0}' || c == '\U{1680}'
    || '\U{2000}' <= c <= '\U{200A}' || c == '\U{2028}' || c == '\U{2029}' || c == '\U{202F}'
    || c == '\U{205F}' || c == '\U{3000}'
  }

  function TrimLeft(s: string): string {
    if s != "" && IsSpace(s[0]) then TrimLeft(s[1..]) else s
  }

  function TrimRight(s: string): string {
    if s != "" && IsSpace(s[|s| - 1]) then TrimRight(s[..|s| - 1]) else s
  }

  function Trim(s: string): string {
    TrimRight(TrimLeft(s))
  }

  /** Nothing but white space. */
  predicate Blank(s: string) {
    forall i | 0 <= i < |s| :: IsSpace(s[i])
  }

  /** A string without surrounding white space. */
  predicate Trimmed(s: string) {
    s == "" || (!IsSpace(s[0]) && !IsSpace(s[|s| - 1]))
  }

  lemma {:induction false} TrimLeftParts(s: string)
    ensures TrimLeft(s) == "" || !IsSpace(TrimLeft(s)[0])
    ensures |TrimLeft(s)| <= |s| && TrimLeft(s) == s[|s| - |TrimLeft(s)|..]
    ensures TrimLeft(s) == "" <==> Blank(s)
  {
    if s != "" && IsSpace(s[0]) {
      TrimLeftParts(s[1..]);
      assert Blank(s[1..]) ==> Blank(s) by {
        if Blank(s[1..]) {
          forall i | 0 <= i < |s|
            ensures IsSpace(s[i])
          {
            assert i > 0 ==> IsSpace(s[1..][i - 1]);
          }
        }
      }
    }
  }

  lemma {:induction false} TrimRightParts(s: string)
    ensures TrimRight(s) == "" || !IsSpace(TrimRight(s)[|TrimRight(s)| - 1])
    ensures |TrimRight(s)| <= |s| && TrimRight(s) == s[..|TrimRight(s)|]
    ensures s != "" && !IsSpace(s[0]) ==> TrimRight(s) != ""
  {
    if s != "" && IsSpace(s[|s| - 1]) {
      TrimRightParts(s[..|s| - 1]);
    }
  }

  /** strings.TrimSpace: the result has no surrounding white space, strings like that
      are left alone, and nothing is left exactly of blank strings. */
  lemma TrimMeans(s: string)
    ensures Trimmed(Trim(s))
    ensures Trim(s) == s <==> Trimmed(s)
    ensures Trim(s) == "" <==> Blank(s)
  {
    TrimLeftParts(s);
    TrimRightParts(TrimLeft(s));
  }

  lemma {:induction false} TrimLeftSkips(l: string, t: string)
    requires Blank(l) && (t == "" || !IsSpace(t[0]))
    ensures TrimLeft(l + t) == t
  {
    if l == "" {
      assert l + t == t;
    } else {
      assert (l + t)[1..] == l[1..] + t;
      TrimLeftSkips(l[1..], t);
    }
  }

  lemma {:induction false} TrimRightSkips(t: string, r: string)
    requires Blank(r) && (t == "" || !IsSpace(t[|t| - 1]))
    ensures TrimRight(t + r) == t
  {
    if r == "" {
      assert t + r == t;
    } else {
      var n := |r| - 1;
      assert (t + r)[..|t + r| - 1] == t + r[..n] && (t + r)[|t + r| - 1] == r[n];
      TrimRightSkips(t, r[..n]);
    }
  }

  lemma {:induction false} TrimLeftCut(s: string) returns (l: string)
    ensures s == l + TrimLeft(s) && Blank(l)
  {
    if s != "" && IsSpace(s[0]) {
      var k := TrimLeftCut(s[1..]);
      l := [s[0]] + k;
      assert s == [s[0]] + s[1..];
    } else {
      l := "";
    }
  }

  lemma {:induction false} TrimRightCut(s: string) returns (r: string)
    ensures s == TrimRight(s) + r && Blank(r)
  {
    if s != "" && IsSpace(s[|s| - 1]) {
      var n := |s| - 1;
      var k := TrimRightCut(s[..n]);
      r := k + [s[n]];
      assert s == s[..n] + [s[n]] && TrimRight(s[..n]) + k + [s[n]] == TrimRight(s[..n]) + r;
    } else {
      r := "";
    }
  }

  /** Trimming takes white space off both ends and nothing else. */
  lemma TrimCuts(s: string) returns (l: string, r: string)
    ensures s == l + Trim(s) + r && Blank(l) && Blank(r)
  {
    l := TrimLeftCut(s);
    r := TrimRightCut(TrimLeft(s));
    assert l + (Trim(s) + r) == l + Trim(s) + r;
  }

  /** And white space around a text makes no difference. */
  lemma TrimPadded(l: string, s: string, r: string)
    requires Blank(l) && Blank(r)
    ensures Trim(l + s + r) == Trim(s)
  {
    var x, y := TrimCuts(s);
    var t := Trim(s);
    TrimMeans(s);
    if t == "" {
      TrimMeans(l + s + r);
    } else {
      assert l + s + r == (l + x) + (t + (y + r));
      TrimLeftSkips(l + x, t + (y + r));
      TrimRightSkips(t, y + r);
    }
  }

  /** strings.ToLower as far as comparison with ASCII words can see: the letters, and
      the two characters outside ASCII whose lower case is an ASCII letter. */
  function LowerChar(c: char): char {
    if 'A' <= c <= 'Z' then c + ' '
    else if c == '\U{212A}' then 'k'
    else if c == '\U{130}' then 'i'
    else c
  }

  function Lower(s: string): (t: string)
    ensures |t| == |s|
  {
    seq(|s|, i requires 0 <= i < |s| => LowerChar(s[i]))
  }

  /** `c` is `d` or its upper case. */
  predicate CaseOf(c: char, d: char) {
    c == d || ('a' <= d <= 'z' && (c as int == d as int - 32 || (d == 'k' && c == '\U{212A}')
                                   || (d == 'i' && c == '\U{130}')))
  }

  /** The text is `word`, in any mixture of cases and within white space. */
  predicate Spells(s: string, word: string) {
    |Trim(s)| == |word| && forall i | 0 <= i < |word| :: CaseOf(Trim(s)[i], word[i])
  }

  predicate SmallWord(word: string) {
    word != "" && forall i | 0 <= i < |word| :: 'a' <= word[i] <= 'z' || word[i] == '-' || word[i] == '_'
  }

  /** What comparing a normalised text with a word means. */
  lemma SpellsIff(s: string, word: string)
    requires SmallWord(word)
    ensures Lower(Trim(s)) == word <==> Spells(s, word)
  {
    var t := Trim(s);
    forall i | 0 <= i < |t| && i < |word|
      ensures LowerChar(t[i]) == word[i] <==> CaseOf(t[i], word[i])
    {
      LowerIff(t[i], word[i]);
    }
    if Lower(t) == word {
      assert |t| == |word|;
      forall i | 0 <= i < |word|
        ensures CaseOf(t[i], word[i])
      {
        assert Lower(t)[i] == word[i];
      }
    }
  }

  lemma LowerIff(c: char, d: char)
    requires 'a' <= d <= 'z' || d == '-' || d == '_'
    ensures LowerChar(c) == d <==> CaseOf(c, d)
  {
  }

  // ---- order ----

  predicate Less(s: string, t: string) {
    if t == "" then false
    else if s == "" then true
    else s[0] < t[0] || (s[0] == t[0] && Less(s[1..], t[1..]))
  }

  lemma {:induction false} LessTotal(s: string, t: string)
    ensures Less(s, t) || Less(t, s) || s == t
    ensures !(Less(s, t) && Less(t, s)) && !Less(s, s)
  {
    if s != "" && t != "" {
      LessTotal(s[1..], t[1..]);
      assert s == [s[0]] + s[1..] && t == [t[0]] + t[1..];
    }
    if s == "" {
    } else {
      LessTotal(s[1..], s[1..]);
    }
  }

  lemma {:induction false} LessTransitive(s: string, t: string, u: string)
    requires Less(s, t) && Less(t, u)
    ensures Less(s, u)
  {
    if s == "" {
    } else {
      if s[0] == t[0] == u[0] {
        LessTransitive(s[1..], t[1..], u[1..]);
      }
    }
  }

  /** The order of strings: at the first character in which they differ, or a proper
      prefix before what it is a prefix of. */
  lemma {:induction false} LessIff(s: string, t: string)
    ensures Less(s, t) <==> s < t || exists i: nat :: DifferAt(s, t, i) && s[i] < t[i]
  {
    if s == "" || t == "" {
    } else {
      var u, v := s[1..], t[1..];
      LessIff(u, v);
      assert s == [s[0]] + u && t == [t[0]] + v;
      if i: nat :| DifferAt(s, t, i) && s[i] < t[i] {
        if i > 0 {
          assert s[0] == t[0] by {
            assert s[..i][0] == t[..i][0];
          }
          assert u[..i - 1] == s[..i][1..] && v[..i - 1] == t[..i][1..];
          assert DifferAt(u, v, i - 1);
        }
      }
      if s[0] < t[0] {
        assert DifferAt(s, t, 0);
      } else if s[0] == t[0] && exists i: nat :: DifferAt(u, v, i) && u[i] < v[i] {
        var i: nat :| DifferAt(u, v, i) && u[i] < v[i];
        assert s[..i + 1] == [s[0]] + u[..i] && t[..i + 1] == [t[0]] + v[..i];
        assert DifferAt(s, t, i + 1);
      }
    }
  }

  predicate DifferAt(s: string, t: string, i: nat) {
    i < |s| && i < |t| && s[..i] == t[..i] && s[i] != t[i]
  }

  // ---- numbers ----

  function Digit(d: nat): char
    requires d < 10
  {
    '0' + d as char
  }

  predicate IsDigit(c: char) {
    '0' <= c <= '9'
  }

  predicate Numeral(s: string) {
    s != "" && forall i | 0 <= i < |s| :: IsDigit(s[i])
  }

  /** strconv.Itoa for non-negative numbers. */
  function Itoa(n: nat): (s: string)
    ensures Numeral(s)
  {
    if n < 10 then [Digit(n)] else Itoa(n / 10) + [Digit(n % 10)]
  }

  function Digits(s: string): Option<nat> {
    if s == "" then Some(0)
    else if !IsDigit(s[|s| - 1]) then None
    else match Digits(s[..|s| - 1])
         case None => None
         case Some(v) => Some(10 * v + (s[|s| - 1] - '0') as nat)
  }

  const MAX_INT64: int := 0x7fff_ffff_ffff_ffff

  /** strconv.Atoi on a 64-bit platform: an optional sign, then at least one digit. */
  function Atoi(s: string): Option<int> {
    var neg, body := s != "" && s[0] == '-', if s != "" && (s[0] == '-' || s[0] == '+') then s[1..] else s;
    if body == "" then None
    else match Digits(body)
         case None => None
         case Some(v) =>
           if neg then (if v <= MAX_INT64 + 1 then Some(0 - v) else None)
           else if v <= MAX_INT64 then Some(v) else None
  }

  lemma {:induction false} DigitsOfItoa(n: nat)
    ensures Digits(Itoa(n)) == Some(n)
  {
    if n >= 10 {
      DigitsOfItoa(n / 10);
      var s := Itoa(n);
      assert s[..|s| - 1] == Itoa(n / 10);
    } else {
      assert Itoa(n)[..0] == "";
    }
  }

  /** Numbers survive being printed and parsed. */
  lemma AtoiOfItoa(n: nat)
    requires n <= MAX_INT64
    ensures Atoi(Itoa(n)) == Some(n)
  {
    DigitsOfItoa(n);
    assert IsDigit(Itoa(n)[0]);
  }

  /** The value of a digit, and of a numeral: most significant digit first. */
  lemma {:induction false} DigitsMeans(d: char, s: string)
    requires IsDigit(d) && Digits(s).Some?
    ensures Digits([d] + s) == Some((d - '0') as nat * Pow10(|s|) + Digits(s).value)
  {
    var t := [d] + s;
    if s == "" {
      assert t[..0] == "";
    } else {
      var n := |s| - 1;
      assert t[..|t| - 1] == [d] + s[..n] && t[|t| - 1] == s[n];
      DigitsMeans(d, s[..n]);
      TenTimes((d - '0') as nat, Pow10(n));
    }
  }

  lemma TenTimes(x: nat, p: nat)
    ensures x * (10 * p) == 10 * (x * p)
  {
  }

  function Pow10(n: nat): nat {
    if n == 0 then 1 else 10 * Pow10(n - 1)
  }

  lemma {:induction false} DigitsIff(s: string)
    ensures Digits(s).Some? <==> forall i | 0 <= i < |s| :: IsDigit(s[i])
  {
    if s == "" {
    } else {
      DigitsIff(s[..|s| - 1]);
    }
  }

  /** strconv.Atoi takes an optional sign and digits, if the number fits. */
  lemma AtoiMeans(s: string)
    requires Numeral(s)
    ensures Digits(s).Some?
    ensures var v := Digits(s).value;
            && Atoi(s) == Atoi("+" + s) == (if v <= MAX_INT64 then Some(v) else None)
            && Atoi("-" + s) == if v <= MAX_INT64 + 1 then Some(0 - v) else None
  {
    DigitsIff(s);
    assert ("+" + s)[1..] == s && ("-" + s)[1..] == s;
    assert IsDigit(s[0]);
  }

  /** And nothing else. */
  lemma AtoiOnly(s: string)
    requires Atoi(s).Some?
    ensures Numeral(s) || (s != "" && (s[0] == '+' || s[0] == '-') && Numeral(s[1..]))
  {
    var body := if s != "" && (s[0] == '-' || s[0] == '+') then s[1..] else s;
    DigitsIff(body);
  }

  // ---- splitting ----

  /** The position of a separator's first occurrence. */
  function Find(s: string, sep: char): (r: Option<nat>)
    ensures r.Some? ==> r.value < |s|
  {
    if s == "" then None
    else if s[0] == sep then Some(0)
    else match Find(s[1..], sep) case None => None case Some(i) => Some(i + 1)
  }

  lemma {:induction false} FindFirst(p: string, rest: string, sep: char)
    requires sep !in p
    ensures Find(p + [sep] + rest, sep) == Some(|p|)
  {
    var s := p + [sep] + rest;
    if p == "" {
    } else {
      assert s[1..] == p[1..] + [sep] + rest;
      FindFirst(p[1..], rest, sep);
    }
  }

  lemma {:induction false} FindNone(p: string, sep: char)
    ensures Find(p, sep) == None <==> sep !in p
  {
    if p == "" {
    } else {
      FindNone(p[1..], sep);
      assert p == [p[0]] + p[1..];
    }
  }

  /** strings.Split on a one-character separator: the pieces, at least one. */
  function Split(s: string, sep: char): (ps: seq<string>)
    ensures ps != []
    decreases |s|
  {
    match Find(s, sep)
    case None => [s]
    case Some(i) => [s[..i]] + Split(s[i + 1..], sep)
  }

  function Join(ps: seq<string>, sep: char): string {
    if ps == [] then "" else if |ps| == 1 then ps[0] else ps[0] + [sep] + Join(ps[1..], sep)
  }

  lemma {:induction false} SplitOfJoin(ps: seq<string>, sep: char)
    requires ps != [] && forall p :: p in ps ==> sep !in p
    ensures Split(Join(ps, sep), sep) == ps
  {
    if |ps| == 1 {
      FindNone(ps[0], sep);
    } else {
      var p, rest := ps[0], Join(ps[1..], sep);
      SplitOfJoin(ps[1..], sep);
      FindFirst(p, rest, sep);
      var s := p + [sep] + rest;
      assert s[..|p|] == p && s[|p| + 1..] == rest;
    }
  }
}
