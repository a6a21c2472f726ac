/** One wrapped response under a deadline: reads, cancellation and the deadline in any order. */
module IngressMachine {
  import opened Seqs
  import opened ExpiryProtocol

  datatype Piece = Upstream(chunk: Chunk) | Synthetic(terminal: Terminal)

  /** The output stream as its consumer sees it. */
  datatype Status = Open | Closed | Errored | Cancelled

  /**
   * `finishes` counts every attempt to close or fail the output, `faults` every call the output would
   * reject because it is no longer open, `cancels` every cancellation passed on to the upstream reader.
   */
  datatype State = State(
    sse: bool, protocol: Protocol, expired: bool, settled: bool, status: Status, out: seq<Piece>, taken: seq<Chunk>,
    pulling: bool, reader: bool, cancels: nat, finishes: nat, faults: nat)

  function Wrapped(sse: bool, p: Protocol): State { State(sse, p, false, false, Open, [], [], false, true, 0, 0, 0) }

  // ---- the output stream ----

  function Enqueue(s: State, piece: Piece): State {
    if s.status == Open then s.(out := s.out + [piece]) else s.(faults := s.faults + 1)
  }

  function Close(s: State): State {
    if s.status == Open then s.(status := Closed, finishes := s.finishes + 1)
    else s.(finishes := s.finishes + 1, faults := s.faults + 1)
  }

  function Fail(s: State): State {
    s.(status := if s.status == Open then Errored else s.status, finishes := s.finishes + 1)
  }

  // ---- the request ----

  function Dispose(s: State): State {
    if s.settled then s else s.(settled := true, protocol := s.protocol.(observing := false))
  }

  function CancelOwned(s: State): State { if s.cancels > 0 then s else s.(cancels := 1) }

  function Announce(s: State): State {
    if s.sse then
      var s1 := s.(protocol := s.protocol.(observing := false));
      if s.status == Open then Close(Enqueue(s1, Synthetic(TerminalOf(s.protocol))))
        else Enqueue(s1, Synthetic(TerminalOf(s.protocol)))
    else Fail(s)
  }

  function Expire(s: State): State {
    if s.expired || s.settled then s
    else
      var s1 := Announce(s.(expired := true));
      Dispose(if s1.reader then CancelOwned(s1) else s1)
  }

  function Pull(s: State): State { if s.status == Open then s.(pulling := true) else s }

  function Forward(s: State, c: Chunk): State {
    var s1 := s.(protocol := if s.sse then ObserveChunk(s.protocol, c) else s.protocol);
    if s.status == Open then Enqueue(s1, Upstream(c)) else Dispose(Fail(Enqueue(s1, Upstream(c))))
  }

  function ReadChunk(s: State, c: Chunk): State {
    if !s.pulling then s
    else
      var s1 := s.(pulling := false, taken := s.taken + [c]);
      if s.expired || s.settled then s1 else Forward(s1, c)
  }

  function ReadDone(s: State): State {
    if !s.pulling then s
    else
      var s1 := s.(pulling := false);
      if s.expired || s.settled then s1
      else if s.status == Open then Dispose(Close(s1))
      else Dispose(Fail(Close(s1)))
  }

  function ReadFailed(s: State): State {
    if !s.pulling then s
    else
      var s1 := s.(pulling := false);
      if s.expired || s.settled then s1 else Dispose(Fail(s1))
  }

  /** The consumer cancels: the stream is closed to it first, then the request lets go. */
  function Cancel(s: State): State {
    if s.status != Open then s else CancelOwned(Dispose(s.(status := Cancelled)))
  }

  /** The upstream cancellation ends, or its time is up. */
  function CleanupEnds(s: State): State { s.(reader := if s.cancels > 0 then false else s.reader) }

  datatype Event = DoPull | DoReadChunk(chunk: Chunk) | DoReadDone | DoReadFailed | DoCancel | DoExpire | DoCleanup

  function Step(s: State, e: Event): State {
    match e
    case DoPull => Pull(s)
    case DoReadChunk(chunk) => ReadChunk(s, chunk)
    case DoReadDone => ReadDone(s)
    case DoReadFailed => ReadFailed(s)
    case DoCancel => Cancel(s)
    case DoExpire => Expire(s)
    case DoCleanup => CleanupEnds(s)
  }

  function Run(s: State, es: seq<Event>): State {
    if es == [] then s else Step(Run(s, es[..|es| - 1]), es[|es| - 1])
  }

  // ---- what every state keeps ----

  function Forwarded(): Chunk -> seq<Piece> { (c: Chunk) => [Upstream(c)] }

  /** The protocol after the chunks passed on so far. */
  function Seen(sse: bool, p: Protocol, cs: seq<Chunk>): Protocol { if sse then ObserveAll(p, cs) else p }

  /** How the output ends: nothing, or a terminal frame after the first `n` chunks. */
  function Ending(s: State, p: Protocol, n: nat): seq<Piece>
    requires n <= |s.taken|
  {
    if s.expired && s.sse then [Synthetic(TerminalOf(Seen(s.sse, p, s.taken[..n])))] else []
  }

  /** The first `n` chunks read were passed on, then nothing or one terminal frame. */
  ghost predicate Passed(s: State, p: Protocol, n: nat) {
    && n <= |s.taken| && s.out == FlatMap(Forwarded(), s.taken[..n]) + Ending(s, p, n)
    && (!s.settled ==> n == |s.taken| && s.protocol == Seen(s.sse, p, s.taken))
  }

  ghost predicate Inv(s: State, p: Protocol) {
    && (exists n: nat :: Passed(s, p, n))
    && (s.settled <==> s.status != Open) && (s.expired ==> s.settled && s.status != Cancelled)
    && (s.expired ==> s.status == if s.sse then Closed else Errored)
    && s.finishes == (if s.status == Closed || s.status == Errored then 1 else 0)
    && s.faults == 0 && s.cancels <= 1
    && (!s.settled ==> s.cancels == 0) && (s.cancels == 0 ==> s.reader)
    && (s.expired || s.status == Cancelled ==> s.cancels == 1)
  }

  lemma WrappedKeeps(sse: bool, p: Protocol)
    ensures Inv(Wrapped(sse, p), p)
  {
    var s := Wrapped(sse, p);
    assert s.taken[..0] == [];
    assert Passed(s, p, 0);
  }

  lemma PassedOn(s: State, s': State, p: Protocol)
    requires Inv(s, p) && s'.out == s.out && s'.taken == s.taken && s'.sse == s.sse && s'.expired == s.expired
    requires s'.settled || (!s.settled && s'.protocol == s.protocol)
    ensures exists n: nat :: Passed(s', p, n)
  {
    var n: nat :| Passed(s, p, n);
    assert Passed(s', p, n);
  }

  lemma ExpireKeeps(s: State, p: Protocol)
    requires Inv(s, p)
    ensures Inv(Expire(s), p)
  {
    hide FlatMap, ObserveAll, TerminalOf;
    var s' := Expire(s);
    if !s.expired && !s.settled {
      var n: nat :| Passed(s, p, n);
      assert s.taken[..n] == s.taken;
      assert s.out + [] == s.out;
      assert Passed(s', p, n);
    }
  }

  lemma ForwardStep(s: State, p: Protocol, c: Chunk)
    requires Inv(s, p) && !s.settled
    ensures Passed(Forward(s.(pulling := false, taken := s.taken + [c]), c), p, |s.taken| + 1)
  {
    hide FlatMap, ObserveChunk;
    var n: nat :| Passed(s, p, n);
    assert s.taken[..n] == s.taken;
    var all := s.taken + [c];
    assert all[..n + 1] == all && all[..n] == s.taken;
    FlatMapAppend(Forwarded(), s.taken, [c]);
    FlatMapOne(Forwarded(), c);
  }

  lemma ReadChunkKeeps(s: State, p: Protocol, c: Chunk)
    requires Inv(s, p)
    ensures Inv(ReadChunk(s, c), p)
  {
    hide FlatMap, ObserveChunk, ObserveAll;
    if s.pulling {
      if s.settled {
        var n: nat :| Passed(s, p, n);
        assert (s.taken + [c])[..n] == s.taken[..n];
        assert Passed(ReadChunk(s, c), p, n);
      } else {
        ForwardStep(s, p, c);
      }
    }
  }

  lemma StepKeeps(s: State, p: Protocol, e: Event)
    requires Inv(s, p)
    ensures Inv(Step(s, e), p)
  {
    hide FlatMap, ObserveChunk, ObserveAll, Passed, TerminalOf;
    match e {
      case DoReadChunk(chunk) => ReadChunkKeeps(s, p, chunk);
      case DoExpire => ExpireKeeps(s, p);
      case _ => PassedOn(s, Step(s, e), p);
    }
  }

  /** Every state that reads, cancellation, the deadline and clean-up can lead to keeps the invariant. */
  lemma {:induction false} RunKeeps(sse: bool, p: Protocol, es: seq<Event>)
    ensures Inv(Run(Wrapped(sse, p), es), p)
    decreases |es|
  {
    hide Inv, Step;
    if es == [] {
      WrappedKeeps(sse, p);
    } else {
      RunKeeps(sse, p, es[..|es| - 1]);
      StepKeeps(Run(Wrapped(sse, p), es[..|es| - 1]), p, es[|es| - 1]);
    }
  }
}
