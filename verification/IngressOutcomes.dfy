/** How a wrapped response ends and what it delivers, read off the list of events. */
module IngressOutcomes {
  import opened Units
  import opened Seqs
  import opened ExpiryProtocol
  import opened IngressMachine
  import opened IngressRuns

  // ---- the list of events ----

  predicate IsRead(e: Event) { e.DoReadChunk? || e.DoReadDone? || e.DoReadFailed? }

  /** The output has been pulled and no read has answered since. */
  predicate Awaiting(es: seq<Event>) {
    es != [] && var last := es[|es| - 1]; last == DoPull || (!IsRead(last) && Awaiting(es[..|es| - 1]))
  }

  /** The event at the end of the list finishes a request that was not over before. */
  predicate Finishes(es: seq<Event>, e: Event) {
    e == DoCancel || e == DoExpire || ((e == DoReadDone || e == DoReadFailed) && Awaiting(es))
  }

  /** The event that ended the request: the first that could. */
  function EndOf(es: seq<Event>): Option<Event> {
    if es == [] then None else
    var front, last := es[..|es| - 1], es[|es| - 1];
    if EndOf(front).Some? then EndOf(front) else if Finishes(front, last) then Some(last) else None
  }

  /** The chunks that answered a pull before the end. */
  function Delivered(es: seq<Event>): seq<Chunk> {
    if es == [] then [] else
    var front, last := es[..|es| - 1], es[|es| - 1];
    Delivered(front) + if EndOf(front).None? && last.DoReadChunk? && Awaiting(front) then [last.chunk] else []
  }

  /** The request is over exactly from the first event on that can finish it. */
  lemma {:induction false} EndIsFirst(es: seq<Event>, i: nat)
    requires i < |es| && EndOf(es[..i]).None?
    ensures Finishes(es[..i], es[i]) ==> EndOf(es) == Some(es[i])
    decreases |es|
  {
    hide Finishes;
    var n := |es| - 1;
    if i < n {
      assert es[..n][..i] == es[..i];
      EndIsFirst(es[..n], i);
    }
  }

  /** A pull is outstanding exactly when one came and no read after it. */
  lemma {:induction false} AwaitingMeans(es: seq<Event>)
    ensures Awaiting(es) <==>
      exists i :: 0 <= i < |es| && es[i] == DoPull && forall j :: i < j < |es| ==> !IsRead(es[j])
    decreases |es|
  {
    if es != [] {
      var n := |es| - 1;
      var front := es[..n];
      AwaitingMeans(front);
      if Awaiting(es) {
        if es[n] == DoPull {
          assert es[n] == DoPull;
        } else {
          var i :| 0 <= i < |front| && front[i] == DoPull && forall j :: i < j < |front| ==> !IsRead(front[j]);
          assert es[i] == DoPull;
          forall j | i < j < |es| ensures !IsRead(es[j]) { if j < n { assert front[j] == es[j]; } }
        }
      }
      if i :| 0 <= i < |es| && es[i] == DoPull && forall j :: i < j < |es| ==> !IsRead(es[j]) {
        if i < n {
          assert front[i] == DoPull;
          forall j | i < j < |front| ensures !IsRead(front[j]) { assert front[j] == es[j]; }
          assert !IsRead(es[n]);
        }
      }
    }
  }

  // ---- what follows from it ----

  function StatusAfter(sse: bool, end: Option<Event>): Status {
    if end.None? then Open
    else if end.value == DoCancel then Cancelled
    else if end.value == DoReadDone then Closed
    else if end.value == DoReadFailed then Errored
    else if sse then Closed else Errored
  }

  /** The state is the one that the events account for. */
  ghost predicate Accounts(s: State, sse: bool, p: Protocol, es: seq<Event>) {
    var end := EndOf(es);
    && s.sse == sse && s.status == StatusAfter(sse, end) && (s.settled <==> end.Some?)
    && (s.expired <==> end == Some(DoExpire)) && (end.Some? ==> !s.protocol.observing)
    && (end.None? ==> s.pulling == Awaiting(es) && s.protocol == Seen(sse, p, Delivered(es)))
    && s.cancels == (if end == Some(DoCancel) || end == Some(DoExpire) then 1 else 0)
    && (s.cancels == 0 ==> s.reader)
    && s.out == FlatMap(Forwarded(), Delivered(es)) +
         if end == Some(DoExpire) && sse then [Synthetic(TerminalOf(Seen(sse, p, Delivered(es))))] else []
  }

  lemma NothingHappened(sse: bool, p: Protocol)
    ensures Accounts(Wrapped(sse, p), sse, p, [])
  {}

  lemma EndLast(es: seq<Event>, e: Event)
    ensures EndOf(es + [e]) == if EndOf(es).Some? then EndOf(es) else if Finishes(es, e) then Some(e) else None
    ensures Delivered(es + [e]) ==
      Delivered(es) + if EndOf(es).None? && e.DoReadChunk? && Awaiting(es) then [e.chunk] else []
    ensures Awaiting(es + [e]) <==> e == DoPull || (!IsRead(e) && Awaiting(es))
  {
    assert (es + [e])[..|es|] == es;
  }

  lemma OverStaysOver(s: State, e: Event)
    requires s.settled && s.status != Open && (s.cancels == 0 ==> s.reader) && !s.protocol.observing
    ensures var s' := Step(s, e);
      && s'.sse == s.sse && s'.status == s.status && s'.settled && s'.expired == s.expired && s'.cancels == s.cancels
      && (s'.cancels == 0 ==> s'.reader) && s'.out == s.out && !s'.protocol.observing
  {
    hide ObserveChunk, TerminalOf;
  }

  lemma SeenStep(sse: bool, p: Protocol, cs: seq<Chunk>, c: Chunk)
    ensures Seen(sse, p, cs + [c]) == if sse then ObserveChunk(Seen(sse, p, cs), c) else p
  {
    hide ObserveChunk;
    assert (cs + [c])[..|cs|] == cs;
  }

  lemma ChunkAccounts(s: State, sse: bool, p: Protocol, es: seq<Event>, c: Chunk)
    requires Accounts(s, sse, p, es) && EndOf(es).None?
    ensures Accounts(ReadChunk(s, c), sse, p, es + [DoReadChunk(c)])
  {
    hide FlatMap, ObserveChunk, ObserveAll, TerminalOf, EndOf, Awaiting, Delivered;
    EndLast(es, DoReadChunk(c));
    SeenStep(sse, p, Delivered(es), c);
    FlatMapLast(Forwarded(), Delivered(es), c);
    assert Delivered(es) + [] == Delivered(es);
    assert s.out + [] == s.out == FlatMap(Forwarded(), Delivered(es));
  }

  lemma StepAccounts(s: State, sse: bool, p: Protocol, es: seq<Event>, e: Event)
    requires Accounts(s, sse, p, es)
    ensures Accounts(Step(s, e), sse, p, es + [e])
  {
    hide FlatMap, ObserveChunk, Seen, TerminalOf, EndOf, Awaiting, Delivered;
    EndLast(es, e);
    assert Delivered(es) + [] == Delivered(es);
    assert FlatMap(Forwarded(), Delivered(es)) + [] == FlatMap(Forwarded(), Delivered(es));
    if EndOf(es).Some? {
      OverStaysOver(s, e);
    } else if e.DoReadChunk? {
      ChunkAccounts(s, sse, p, es, e.chunk);
    }
  }

  /**
   In every run the first event that can end the request decides how the output ends. Until then exactly the chunks that
   answer a pull are delivered, and a deadline adds one terminal frame to an event stream.
   */
  lemma {:induction false} RunMeans(sse: bool, p: Protocol, es: seq<Event>)
    ensures Accounts(Run(Wrapped(sse, p), es), sse, p, es)
    decreases |es|
  {
    hide Step, Accounts;
    if es == [] {
      NothingHappened(sse, p);
    } else {
      var front, e := es[..|es| - 1], es[|es| - 1];
      assert es == front + [e];
      RunMeans(sse, p, front);
      StepAccounts(Run(Wrapped(sse, p), front), sse, p, front, e);
    }
  }

  // ---- the terminal frame ----

  function IdIn(f: Frame): Option<Text> {
    if f.Data? && f.response.Some? && f.response.value.id.Some? && |f.response.value.id.value| <= 256
    then f.response.value.id else None
  }

  function ModelIn(f: Frame): Option<Text> {
    if f.Data? && f.response.Some? && f.response.value.model.Some? && |f.response.value.model.value| <= 256
    then f.response.value.model else None
  }

  function CreatedIn(f: Frame): Option<real> {
    if f.Data? && f.response.Some? then f.response.value.createdAt else None
  }

  /** The last value the frames carry, or the given one. */
  ghost predicate IsLatest<T>(fs: seq<Frame>, field: Frame -> Option<T>, initial: T, v: T) {
    || (v == initial && forall k :: 0 <= k < |fs| ==> field(fs[k]).None?)
    || (exists k :: 0 <= k < |fs| && CarriesLast(fs, k, field, v))
  }

  ghost predicate CarriesLast<T>(fs: seq<Frame>, k: nat, field: Frame -> Option<T>, v: T)
    requires k < |fs|
  {
    field(fs[k]) == Some(v) && forall j :: k < j < |fs| ==> field(fs[j]).None?
  }

  lemma LatestStep<T>(fs: seq<Frame>, f: Frame, field: Frame -> Option<T>, initial: T, v: T)
    requires IsLatest(fs, field, initial, v)
    ensures IsLatest(fs + [f], field, initial, if field(f).Some? then field(f).value else v)
  {
    var all := fs + [f];
    assert all[|fs|] == f && forall j :: 0 <= j < |fs| ==> all[j] == fs[j];
    if field(f).Some? {
      assert CarriesLast(all, |fs|, field, field(f).value);
    } else if k :| 0 <= k < |fs| && CarriesLast(fs, k, field, v) {
      assert CarriesLast(all, k, field, v);
    }
  }

  /** The observer holds the last id, model and time of the frames. */
  ghost predicate Remembers(q: Protocol, p: Protocol, fs: seq<Frame>) {
    && IsLatest(fs, IdIn, p.id, q.id) && IsLatest(fs, ModelIn, p.model, q.model)
    && IsLatest(fs, CreatedIn, p.createdAt, q.createdAt)
  }

  lemma FrameRemembers(q: Protocol, p: Protocol, seen: seq<Frame>, f: Frame)
    requires Remembers(q, p, seen) && !f.Unreadable?
    ensures Remembers(ObserveFrame(q, f), p, seen + [f])
  {
    hide IsLatest;
    LatestStep(seen, f, IdIn, p.id, q.id);
    LatestStep(seen, f, ModelIn, p.model, q.model);
    LatestStep(seen, f, CreatedIn, p.createdAt, q.createdAt);
  }

  lemma RemembersKept(q: Protocol, r: Protocol, p: Protocol, fs: seq<Frame>)
    requires Remembers(q, p, fs) && r.id == q.id && r.model == q.model && r.createdAt == q.createdAt
    ensures Remembers(r, p, fs)
  {}

  lemma {:induction false} FramesRemember(q: Protocol, p: Protocol, seen: seq<Frame>, fs: seq<Frame>)
    requires Remembers(q, p, seen)
    ensures Remembers(ObserveFrames(q, fs), p, seen + ReadablePart(fs))
    decreases |fs|
  {
    hide Remembers, ObserveFrame;
    if fs == [] {
      assert seen + [] == seen;
    } else if fs[0].Unreadable? {
      assert seen + [] == seen;
      UnreadableKeeps(q, fs[0]);
      RemembersKept(q, ObserveFrame(q, fs[0]), p, seen);
    } else {
      FrameRemembers(q, p, seen, fs[0]);
      FramesRemember(ObserveFrame(q, fs[0]), p, seen + [fs[0]], fs[1..]);
      assert seen + [fs[0]] + ReadablePart(fs[1..]) == seen + ReadablePart(fs);
    }
  }

  lemma UnreadableKeeps(q: Protocol, f: Frame)
    requires f.Unreadable?
    ensures var r := ObserveFrame(q, f); r.id == q.id && r.model == q.model && r.createdAt == q.createdAt
  {}

  lemma {:induction false} ObserverRemembers(p: Protocol, cs: seq<Chunk>)
    requires FreshResponses(p)
    ensures Remembers(ObserveAll(p, cs), p, Observed(cs))
    decreases |cs|
  {
    hide Remembers, ObserveFrames, ReadablePart, HasTerminal, HasUnreadable;
    if cs == [] {
      NothingRemembered(p);
    } else {
      var front, c := cs[..|cs| - 1], cs[|cs| - 1];
      var before := ObserveAll(p, front);
      ObserverRemembers(p, front);
      ObservationIsFaithful(p, front);
      ReflectsTerminal(before, Observed(front));
      if before.observing && !before.terminalSeen {
        if c.pushed.Refused? {
          NoFrames();
          assert Observed(front) + [] == Observed(front);
          RemembersKept(before, before.(observing := false), p, Observed(front));
        } else {
          FramesRemember(before, p, Observed(front), c.pushed.frames);
        }
      }
    }
  }

  lemma NothingRemembered(p: Protocol)
    ensures Remembers(p, p, [])
  {}

  /** A new observer has seen nothing, and looks only at Responses streams. */
  lemma StartsFresh(path: Path, id: Text, model: Text, now: real)
    ensures var p := Fresh(path, id, model, now);
      && p.path == path && p.id == id && p.model == model && p.createdAt == now
      && (if path == Responses then FreshResponses(p) else !p.observing && !p.terminalSeen)
  {}

  /** The failure that the frames account for. */
  ghost predicate Fails(p: Protocol, fs: seq<Frame>, t: Terminal) {
    && t.ResponseFailed? && IsNext(fs, t.sequence) && IsLatest(fs, IdIn, p.id, t.id)
    && IsLatest(fs, ModelIn, p.model, t.model) && IsLatest(fs, CreatedIn, p.createdAt, t.createdAt)
  }

  /**
   A Responses stream that expires gets a frame with the next number and the last id, model and time observed; it is
   skipped if a terminal event was observed.
   */
  lemma ExpiredResponses(p: Protocol, es: seq<Event>) returns (t: Terminal)
    requires FreshResponses(p) && EndOf(es) == Some(DoExpire)
    ensures var fs := Observed(Delivered(es));
      && Run(Wrapped(true, p), es).out == FlatMap(Forwarded(), Delivered(es)) + [Synthetic(t)]
      && (HasTerminal(fs) ==> t == Skipped) && (!HasTerminal(fs) ==> Fails(p, fs, t))
  {
    hide FlatMap, Observed, ObserveAll, HasTerminal, IsNext, Run, IsLatest, EndOf, Delivered;
    RunMeans(true, p, es);
    var cs := Delivered(es);
    ObservationIsFaithful(p, cs);
    ObserverRemembers(p, cs);
    ReflectsMeans(ObserveAll(p, cs), Observed(cs));
    t := TerminalOf(ObserveAll(p, cs));
  }

  /** Any other event stream that expires ends with the error of its path. */
  lemma ExpiredOthers(p: Protocol, es: seq<Event>)
    requires p.path != Responses && !p.observing && !p.terminalSeen && EndOf(es) == Some(DoExpire)
    ensures var error :=
        if p.path == ChatCompletions then ChatError else if p.path == Messages then MessagesError else OtherError;
      Run(Wrapped(true, p), es).out == FlatMap(Forwarded(), Delivered(es)) + [Synthetic(error)]
  {
    hide FlatMap, ObserveAll, Run, EndOf, Delivered;
    RunMeans(true, p, es);
    NonResponsesKeep(p, Delivered(es));
  }
}
