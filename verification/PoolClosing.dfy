/** Closing a pool, once, while datagram flows are being opened on it (Close and OpenUDPDatagram in
    tunnelpool/pool.go). Close sets the map of control streams to nil under dgMu, releases
    it, and only then closes the sessions one by one; a handshake that succeeds in between
    writes to the nil map, which is a panic. */
module PoolClosing {
  import opened Options

  /** The call of OpenUDPDatagram that holds dgMu: it has found its key unknown, it has sent
      its request on a session, or the reply has arrived there. */
  datatype Call = Looking(key: string) | Asking(key: string, sess: nat) | Answered(key: string, sess: nat)

  /** `open` are the live ones of the `n` sessions, `known` the keys with a closure,
      `closing` how many sessions Close has closed, once it has begun. */
  datatype Sys = Sys(n: nat, open: set<nat>, known: set<string>, call: Option<Call>, closing: Option<nat>,
                     emptied: bool, panicked: bool)

  datatype Act =
    | Begin(key: string)
    | Ask(sess: nat)
    | Arrive
    | Fail
    | Store
    | Die(sess: nat)
    | BeginClose
    | CloseNext
    | EndClose

  /** A reply arrives only on a live session; once it has, it can be read. */
  predicate Can(s: Sys, a: Act) {
    && !s.panicked
    && match a
       case Begin(_) => s.call.None?
       case Ask(sess) => s.call.Some? && s.call.value.Looking? && sess in s.open && !s.emptied
       case Arrive => s.call.Some? && s.call.value.Asking? && s.call.value.sess in s.open
       case Fail => s.call.Some? && !s.call.value.Answered?
       case Store => s.call.Some? && s.call.value.Answered?
       case Die(_) => true
       case BeginClose => s.call.None? && s.closing.None?
       case CloseNext => s.closing.Some? && s.closing.value < s.n
       case EndClose => s.closing == Some(s.n)
  }

  function Do(s: Sys, a: Act): Sys
    requires Can(s, a)
  {
    match a
    // a known key is answered with its closure
    case Begin(key) => if key in s.known then s else s.(call := Some(Looking(key)))
    case Ask(sess) => s.(call := Some(Asking(s.call.value.key, sess)))
    case Arrive => s.(call := Some(Answered(s.call.value.key, s.call.value.sess)))
    case Fail => s.(call := None)
    // dgByKey and dgDeliver are never nil, dgCtrl is once Close has begun
    case Store =>
      s.(known := s.known + {s.call.value.key}, call := None, panicked := s.closing.Some?)
    case Die(sess) => s.(open := s.open - {sess})
    case BeginClose => s.(closing := Some(0))
    case CloseNext => s.(open := s.open - {s.closing.value}, closing := Some(s.closing.value + 1))
    case EndClose => s.(emptied := true)
  }

  function Below(n: nat): (r: set<nat>)
    ensures forall i: nat :: i in r <==> i < n
  {
    if n == 0 then {} else Below(n - 1) + {n - 1}
  }

  /** A pool with `n` sessions, just dialled. */
  function Dialled(n: nat): Sys {
    Sys(n, Below(n), {}, None, None, false, false)
  }

  ghost predicate Runs(s: Sys, acts: seq<Act>, t: Sys)
    decreases |acts|
  {
    if acts == [] then s == t
    else Can(s, acts[0]) && Runs(Do(s, acts[0]), acts[1..], t)
  }

  lemma RunsCons(s: Sys, a: Act, acts: seq<Act>, t: Sys)
    requires Can(s, a) && Runs(Do(s, a), acts, t)
    ensures Runs(s, [a] + acts, t)
  {
    assert ([a] + acts)[1..] == acts;
  }

  // ---- when the panic can be reached ----

  /** What Close has passed, and what is left when it is over. */
  predicate Inv(s: Sys) {
    && (forall i | i in s.open :: i < s.n)
    && (s.closing.Some? ==> s.closing.value <= s.n && forall i | i in s.open :: s.closing.value <= i)
    && (s.emptied ==> s.closing == Some(s.n))
    && (s.call.Some? ==> s.call.value.key !in s.known)
  }

  lemma StepKeepsInv(s: Sys, a: Act)
    requires Inv(s) && Can(s, a)
    ensures Inv(Do(s, a))
  {
  }

  lemma {:induction false} RunKeepsInv(s: Sys, acts: seq<Act>, t: Sys)
    requires Inv(s) && Runs(s, acts, t)
    ensures Inv(t)
    decreases |acts|
  {
    if acts == [] {
    } else {
      StepKeepsInv(s, acts[0]);
      RunKeepsInv(Do(s, acts[0]), acts[1..], t);
    }
  }

  ghost predicate CanPanic(s: Sys) {
    exists acts, t :: Runs(s, acts, t) && t.panicked
  }

  /** Close has begun and a reply that arrived since waits to be read. */
  predicate Waiting(s: Sys) {
    s.closing.Some? && s.call.Some? && s.call.value.Answered?
  }

  lemma {:induction false} SafeForever(s: Sys, acts: seq<Act>, t: Sys)
    requires Runs(s, acts, t) && !s.panicked && s.open == {} && !Waiting(s)
    ensures !t.panicked
    decreases |acts|
  {
    if acts == [] {
    } else {
      SafeForever(Do(s, acts[0]), acts[1..], t);
    }
  }

  lemma PanicAfter(s: Sys, a: Act)
    requires Can(s, a) && CanPanic(Do(s, a))
    ensures CanPanic(s)
  {
    var acts, t :| Runs(Do(s, a), acts, t) && t.panicked;
    RunsCons(s, a, acts, t);
  }

  lemma {:induction false} LongerThan(known: set<string>) returns (n: nat)
    ensures forall k :: k in known ==> |k| < n
  {
    if known == {} {
      n := 0;
    } else {
      var k :| k in known;
      n := LongerThan(known - {k});
      n := if |k| < n then n else |k| + 1;
    }
  }

  lemma NewKey(known: set<string>) returns (key: string)
    ensures key !in known
  {
    var n := LongerThan(known);
    key := seq(n, _ => 'k');
  }

  lemma StorePanics(s: Sys)
    requires !s.panicked && Waiting(s)
    ensures CanPanic(s)
  {
    RunsCons(s, Store, [], Do(s, Store));
  }

  /** A call with a new key that comes between Close and a live session of the pool. */
  lemma CallPanics(s: Sys, sess: nat)
    requires Inv(s) && !s.panicked && s.call.None? && s.closing.Some? && sess in s.open
    ensures CanPanic(s)
  {
    var key := NewKey(s.known);
    var s1 := Do(s, Begin(key));
    var s2 := Do(s1, Ask(sess));
    StorePanics(Do(s2, Arrive));
    PanicAfter(s2, Arrive);
    PanicAfter(s1, Ask(sess));
    PanicAfter(s, Begin(key));
  }

  lemma IdlePanics(s: Sys, sess: nat)
    requires Inv(s) && !s.panicked && s.call.None? && sess in s.open
    ensures CanPanic(s)
  {
    if s.closing.None? {
      StepKeepsInv(s, BeginClose);
      CallPanics(Do(s, BeginClose), sess);
      PanicAfter(s, BeginClose);
    } else {
      CallPanics(s, sess);
    }
  }

  lemma OpenPanics(s: Sys, sess: nat)
    requires Inv(s) && !s.panicked && sess in s.open
    ensures CanPanic(s)
  {
    if Waiting(s) {
      StorePanics(s);
    } else if s.call.None? {
      IdlePanics(s, sess);
    } else {
      var a := if s.call.value.Answered? then Store else Fail;
      StepKeepsInv(s, a);
      IdlePanics(Do(s, a), sess);
      PanicAfter(s, a);
    }
  }

  /** From any state that has been reached without it, the panic can still be reached if
      and only if some session of the pool is live, or Close has begun and a reply that
      arrived since has not been read. So a pool whose sessions are all dead when Close
      begins never panics, and no pool does once the last live one is closed. */
  lemma CanPanicIff(n: nat, acts: seq<Act>, s: Sys)
    requires Runs(Dialled(n), acts, s) && !s.panicked
    ensures CanPanic(s) <==> s.open != {} || Waiting(s)
  {
    RunKeepsInv(Dialled(n), acts, s);
    if s.open != {} {
      var sess :| sess in s.open;
      OpenPanics(s, sess);
    } else if Waiting(s) {
      StorePanics(s);
    } else if CanPanic(s) {
      var more, t :| Runs(s, more, t) && t.panicked;
      SafeForever(s, more, t);
    }
  }

  // ---- which runs panic ----

  /** Step `j` reads a reply and registers its flow after Close has begun. */
  predicate LateStore(acts: seq<Act>, i: nat, j: nat) {
    i < j < |acts| && acts[i] == BeginClose && acts[j] == Store
  }

  ghost predicate HasLateStore(acts: seq<Act>) {
    exists i: nat, j: nat :: LateStore(acts, i, j)
  }

  lemma LateStoreCons(acts: seq<Act>)
    requires acts != []
    ensures HasLateStore(acts) <==> HasLateStore(acts[1..]) || (acts[0] == BeginClose && Store in acts[1..])
  {
    var rest := acts[1..];
    if i: nat, j: nat :| LateStore(acts, i, j) {
      if i > 0 {
        assert LateStore(rest, i - 1, j - 1);
      } else {
        assert rest[j - 1] == Store;
      }
    }
    if i: nat, j: nat :| LateStore(rest, i, j) {
      assert LateStore(acts, i + 1, j + 1);
    }
    if acts[0] == BeginClose && Store in rest {
      var j: nat :| j < |rest| && rest[j] == Store;
      assert LateStore(acts, 0, j + 1);
    }
  }

  lemma PanicEnds(s: Sys, acts: seq<Act>, t: Sys)
    requires Runs(s, acts, t) && s.panicked
    ensures acts == [] && t == s
  {
  }

  lemma {:induction false} PanicsIff(s: Sys, acts: seq<Act>, t: Sys)
    requires Runs(s, acts, t) && !s.panicked
    ensures t.panicked <==> HasLateStore(acts) || (s.closing.Some? && Store in acts)
    decreases |acts|
  {
    if acts == [] {
    } else {
      LateStoreCons(acts);
      assert acts == [acts[0]] + acts[1..];
      var m := Do(s, acts[0]);
      if m.panicked {
        PanicEnds(m, acts[1..], t);
      } else {
        PanicsIff(m, acts[1..], t);
      }
    }
  }

  /** Exactly: a run of a pool panics if and only if some call reads its reply after
      Close has begun. */
  lemma RunPanicsIff(n: nat, acts: seq<Act>, t: Sys)
    requires Runs(Dialled(n), acts, t)
    ensures t.panicked <==> HasLateStore(acts)
  {
    PanicsIff(Dialled(n), acts, t);
  }

  /** Such a run: one session, and a call that comes right after Close has released the
      lock. */
  lemma PanicWitness() returns (acts: seq<Act>, t: Sys)
    ensures Runs(Dialled(1), acts, t) && t.panicked
    ensures acts == [BeginClose, Begin("k"), Ask(0), Arrive, Store]
  {
    var s0 := Dialled(1);
    var s1 := Do(s0, BeginClose);
    var s2 := Do(s1, Begin("k"));
    var s3 := Do(s2, Ask(0));
    var s4 := Do(s3, Arrive);
    t := Do(s4, Store);
    RunsCons(s4, Store, [], t);
    RunsCons(s3, Arrive, [Store], t);
    RunsCons(s2, Ask(0), [Arrive, Store], t);
    RunsCons(s1, Begin("k"), [Ask(0), Arrive, Store], t);
    RunsCons(s0, BeginClose, [Begin("k"), Ask(0), Arrive, Store], t);
    acts := [BeginClose] + [Begin("k"), Ask(0), Arrive, Store];
  }
}
