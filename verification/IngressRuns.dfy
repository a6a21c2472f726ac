/** What the client of a wrapped response receives, in every interleaving. */
module IngressRuns {
  import opened Units
  import opened Decimal
  import opened Seqs
  import opened ExpiryProtocol
  import opened IngressMachine

  // ---- bytes ----

  /** The bytes of the output, whatever text a terminal frame is rendered to. */
  function PieceBytes(render: Terminal -> seq<Byte>): Piece -> seq<Byte> {
    (x: Piece) => if x.Upstream? then x.chunk.bytes else render(x.terminal)
  }

  function ChunkBytes(): Chunk -> seq<Byte> { (c: Chunk) => c.bytes }

  lemma {:induction false} ForwardedBytes(render: Terminal -> seq<Byte>, cs: seq<Chunk>)
    ensures FlatMap(PieceBytes(render), FlatMap(Forwarded(), cs)) == FlatMap(ChunkBytes(), cs)
  {
    hide FlatMap;
    forall k | 0 <= k < |cs| ensures FlatMap(PieceBytes(render), Forwarded()(cs[k])) == ChunkBytes()(cs[k]) {
      FlatMapOne(PieceBytes(render), Upstream(cs[k]));
    }
    FlatMapCompose(Forwarded(), PieceBytes(render), ChunkBytes(), cs);
  }

  lemma BytesPrefix(cs: seq<Chunk>, n: nat)
    requires n <= |cs|
    ensures FlatMap(ChunkBytes(), cs[..n]) <= FlatMap(ChunkBytes(), cs)
  {
    hide FlatMap;
    FlatMapAppend(ChunkBytes(), cs[..n], cs[n..]);
    assert cs[..n] + cs[n..] == cs;
  }

  lemma EmptyBytes(render: Terminal -> seq<Byte>)
    ensures FlatMap(PieceBytes(render), []) == []
  {}

  /**
   The client receives a prefix of the upstream bytes, followed by at most one terminal frame, and that only for event
   streams that expired. Where a terminal event was observed on a Responses path, the prefix is all it receives.
   */
  lemma ClientSeesPrefix(sse: bool, p: Protocol, es: seq<Event>, render: Terminal -> seq<Byte>)
    returns (n: nat, ending: seq<Byte>)
    requires render(Skipped) == []
    ensures var s := Run(Wrapped(sse, p), es);
      && Passed(s, p, n)
      && FlatMap(PieceBytes(render), s.out) == FlatMap(ChunkBytes(), s.taken[..n]) + ending
      && FlatMap(ChunkBytes(), s.taken[..n]) <= FlatMap(ChunkBytes(), s.taken)
      && ending == (if s.expired && sse then render(TerminalOf(Seen(sse, p, s.taken[..n]))) else [])
      && (FreshResponses(p) && HasTerminal(Observed(s.taken[..n])) ==> ending == [])
      && (!s.settled ==> n == |s.taken|)
  {
    hide FlatMap, Seen, TerminalOf, Run, Observed, HasTerminal;
    var s := Run(Wrapped(sse, p), es);
    RunKeeps(sse, p, es);
    KeepsKind(sse, p, es);
    n :| Passed(s, p, n);
    var front, end := FlatMap(Forwarded(), s.taken[..n]), Ending(s, p, n);
    FlatMapAppend(PieceBytes(render), front, end);
    ForwardedBytes(render, s.taken[..n]);
    BytesPrefix(s.taken, n);
    EmptyBytes(render);
    if s.expired && s.sse {
      FlatMapOne(PieceBytes(render), end[0]);
      SkippedAfterTerminal(p, s.taken[..n]);
    }
    ending := FlatMap(PieceBytes(render), end);
  }

  lemma SkippedAfterTerminal(p: Protocol, cs: seq<Chunk>)
    ensures FreshResponses(p) && HasTerminal(Observed(cs)) ==> TerminalOf(Seen(true, p, cs)) == Skipped
  {
    hide ObserveAll, Observed, HasTerminal;
    if FreshResponses(p) {
      ObservationIsFaithful(p, cs);
      ReflectsTerminal(ObserveAll(p, cs), Observed(cs));
    }
  }

  lemma {:induction false} KeepsKind(sse: bool, p: Protocol, es: seq<Event>)
    ensures Run(Wrapped(sse, p), es).sse == sse
    decreases |es|
  {
    hide Step;
    if es != [] {
      KeepsKind(sse, p, es[..|es| - 1]);
      StepKeepsKind(Run(Wrapped(sse, p), es[..|es| - 1]), es[|es| - 1]);
    }
  }

  lemma StepKeepsKind(s: State, e: Event)
    ensures Step(s, e).sse == s.sse
  {
    hide Expire, ReadChunk;
    match e {
      case DoExpire => ExpireKeepsKind(s);
      case DoReadChunk(chunk) => ReadKeepsKind(s, chunk);
      case _ =>
    }
  }

  lemma ExpireKeepsKind(s: State)
    ensures Expire(s).sse == s.sse
  {
    hide TerminalOf;
  }

  lemma ReadKeepsKind(s: State, c: Chunk)
    ensures ReadChunk(s, c).sse == s.sse
  {
    hide ObserveChunk;
  }

  // ---- one end ----

  /** The output is closed or failed at most once, never used after that, and the upstream is cancelled at most once. */
  lemma FinishedAtMostOnce(sse: bool, p: Protocol, es: seq<Event>)
    ensures var s := Run(Wrapped(sse, p), es);
      && s.finishes <= 1 && s.faults == 0 && s.cancels <= 1
      && (s.finishes == 1 <==> s.settled && s.status != Cancelled)
      && (s.expired ==> s.finishes == 1 && s.cancels == 1)
  {
    RunKeeps(sse, p, es);
  }

  /** Once the request is settled, no late read, cancellation or deadline changes what the client sees. */
  lemma SettledIsFinal(s: State, p: Protocol, e: Event)
    requires Inv(s, p) && s.settled
    ensures var s' := Step(s, e);
      s'.settled && s'.out == s.out && s'.status == s.status && s'.expired == s.expired && s'.finishes == s.finishes
        && s'.faults == s.faults
  {}

  lemma {:induction false} SettledStays(sse: bool, p: Protocol, es: seq<Event>, more: seq<Event>)
    requires Run(Wrapped(sse, p), es).settled
    ensures var s, s' := Run(Wrapped(sse, p), es), Run(Wrapped(sse, p), es + more);
      s'.settled && s'.out == s.out && s'.status == s.status && s'.expired == s.expired && s'.finishes == s.finishes
    decreases |more|
  {
    hide Step, Inv;
    if more == [] {
      assert es + more == es;
    } else {
      var n := |more| - 1;
      assert (es + more)[..|es| + n] == es + more[..n];
      SettledStays(sse, p, es, more[..n]);
      RunKeeps(sse, p, es + more[..n]);
      SettledIsFinal(Run(Wrapped(sse, p), es + more[..n]), p, more[n]);
    }
  }

  // ---- the terminal frame ----

  ghost predicate FreshResponses(p: Protocol) { p.path == Responses && p.observing && p.next == 0 && !p.terminalSeen }

  /**
   On a Responses path the frame is skipped exactly when a terminal event was observed in what was passed on, and
   numbered next otherwise.
   */
  lemma ResponsesTerminal(p: Protocol, es: seq<Event>, n: nat)
    requires FreshResponses(p) && Passed(Run(Wrapped(true, p), es), p, n) && Run(Wrapped(true, p), es).expired
    ensures var s := Run(Wrapped(true, p), es); var fs := Observed(s.taken[..n]);
      exists t :: s.out == FlatMap(Forwarded(), s.taken[..n]) + [Synthetic(t)]
        && (t.Skipped? <==> HasTerminal(fs))
        && (!HasTerminal(fs) ==>
          t.ResponseFailed? && IsNext(fs, t.sequence) && (AboveAll(fs, t.sequence) <==> AllOvertaken(fs)))
  {
    hide FlatMap, Observed, ObserveAll, HasTerminal, IsNext, Run, AboveAll, AllOvertaken;
    var s := Run(Wrapped(true, p), es);
    var cs := s.taken[..n];
    KeepsKind(true, p, es);
    ObservationIsFaithful(p, cs);
    var q := ObserveAll(p, cs);
    ReflectsMeans(q, Observed(cs));
    NextIsAboveAll(Observed(cs), q.next);
    assert s.out == FlatMap(Forwarded(), cs) + [Synthetic(TerminalOf(q))];
  }

  lemma ReflectsMeans(p: Protocol, fs: seq<Frame>)
    requires Reflects(p, fs)
    ensures IsNext(fs, p.next) && (p.terminalSeen <==> HasTerminal(fs))
  {}

  /** After one frame whose number is not taken into account, the terminal frame is numbered zero. */
  lemma UncountedNumberStartsAtZero(p: Protocol, bytes: seq<Byte>, q: Quantity)
    requires FreshResponses(p) && !Countable(q)
    ensures var c := Chunk(bytes, Frames([Data(Some(q), None, false)]));
      Run(Wrapped(true, p), [DoPull, DoReadChunk(c), DoExpire]).out
        == [Upstream(c), Synthetic(ResponseFailed(0, p.id, p.model, p.createdAt))]
  {
    var c := Chunk(bytes, Frames([Data(Some(q), None, false)]));
    var s0, s1, s2 := Wrapped(true, p), Pull(Wrapped(true, p)), ReadChunk(Pull(Wrapped(true, p)), c);
    var es := [DoPull, DoReadChunk(c), DoExpire];
    assert es[..2] == [DoPull, DoReadChunk(c)] && es[..2][..1] == [DoPull] && es[..1][..0] == [];
    assert Run(s0, []) == s0;
    assert Run(s0, [DoPull]) == s1 by { assert [DoPull][..0] == []; }
    assert Run(s0, es[..2]) == s2;
    assert ObserveFrames(p, c.pushed.frames) == ObserveFrame(p, c.pushed.frames[0]) by {
      assert c.pushed.frames[1..] == [];
    }
    assert s2.protocol == p && s2.out == [Upstream(c)];
  }

  /** A fraction, an infinity and the largest safe integer are numbers the terminal frame can fall behind. */
  lemma NumbersLeftBehind(q: Quantity)
    requires q == Finite(7.5) || q == PositiveInfinity || q == Finite(MAX_SAFE_INTEGER as real)
    ensures !Countable(q) && !AboveAll([Data(Some(q), None, false)], 0)
  {
    var fs := [Data(Some(q), None, false)];
    assert Numbered(fs[0]) && !Below(fs[0].sequence.value, 0);
    if q == Finite(7.5) { assert q.x.Floor == 7; }
  }

  /** On the other paths the frame is never skipped: it is the error of that path. */
  lemma OtherTerminals(p: Protocol, es: seq<Event>, n: nat)
    requires p.path != Responses && !p.observing && !p.terminalSeen
    requires Passed(Run(Wrapped(true, p), es), p, n) && Run(Wrapped(true, p), es).expired
    ensures var s := Run(Wrapped(true, p), es);
      s.out == FlatMap(Forwarded(), s.taken[..n]) + [Synthetic(TerminalOf(p))] && !TerminalOf(p).Skipped?
  {
    hide FlatMap, ObserveAll, Run;
    KeepsKind(true, p, es);
    NonResponsesKeep(p, Run(Wrapped(true, p), es).taken[..n]);
  }
}
