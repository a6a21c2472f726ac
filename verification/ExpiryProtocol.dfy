/** What is observed of a response stream, and the terminal frame a deadline adds to it. */
module ExpiryProtocol {
  import opened Units
  import opened Decimal

  datatype Path = Responses | ChatCompletions | Messages | OtherPath

  /** Fields of a `response` object, each present when it has the expected type. */
  datatype Details = Details(id: Option<Text>, model: Option<Text>, createdAt: Option<real>)

  /** A number as JSON text yields it: of any size, with or without a fraction, or an overflow to an infinity. */
  datatype Quantity = Finite(x: real) | PositiveInfinity | NegativeInfinity

  /** A complete event frame: without data, with data that cannot be read, or with an object. */
  datatype Frame = NoData | Unreadable | Data(sequence: Option<Quantity>, response: Option<Details>, terminal: bool)

  /** What the frame buffer makes of one chunk: the frames it completes, or a refusal. */
  datatype Pushed = Frames(frames: seq<Frame>) | Refused

  datatype Chunk = Chunk(bytes: seq<Byte>, pushed: Pushed)

  datatype Protocol = Protocol(path: Path, observing: bool, next: nat, terminalSeen: bool, id: Text, model: Text,
    createdAt: real)

  function Fresh(path: Path, id: Text, model: Text, now: real): Protocol {
    Protocol(path, path == Responses, 0, false, id, model, now)
  }

  // ---- observing ----

  /** A sequence number that is taken into account. */
  predicate Countable(q: Quantity) { q.Finite? && q.x == q.x.Floor as real && 0 <= q.x.Floor < MAX_SAFE_INTEGER }

  predicate Counts(f: Frame) { f.Data? && f.sequence.Some? && Countable(f.sequence.value) }

  /** The integer a counted frame carries. */
  function NumberIn(f: Frame): nat
    requires Counts(f)
  {
    f.sequence.value.x.Floor
  }

  function ShortOr(x: Option<Text>, otherwise: Text): Text {
    if x.Some? && |x.value| <= 256 then x.value else otherwise
  }

  function ObserveDetails(p: Protocol, d: Option<Details>): Protocol {
    if d.None? then p
    else p.(id := ShortOr(d.value.id, p.id), model := ShortOr(d.value.model, p.model),
            createdAt := if d.value.createdAt.Some? then d.value.createdAt.value else p.createdAt)
  }

  function ObserveFrame(p: Protocol, f: Frame): Protocol {
    match f
    case NoData => p
    case Unreadable => p.(observing := false)
    case Data(_, response, terminal) =>
      var p1 := if Counts(f) then p.(next := Max(p.next, NumberIn(f) + 1)) else p;
      ObserveDetails(p1, response).(terminalSeen := p.terminalSeen || terminal)
  }

  /** Frame after frame, up to the first that cannot be read. */
  function ObserveFrames(p: Protocol, fs: seq<Frame>): Protocol
    decreases |fs|
  {
    if fs == [] then p
    else if fs[0].Unreadable? then ObserveFrame(p, fs[0])
    else ObserveFrames(ObserveFrame(p, fs[0]), fs[1..])
  }

  function ObserveChunk(p: Protocol, c: Chunk): Protocol {
    if !p.observing || p.terminalSeen then p
    else if c.pushed.Refused? then p.(observing := false)
    else ObserveFrames(p, c.pushed.frames)
  }

  function ObserveAll(p: Protocol, cs: seq<Chunk>): Protocol {
    if cs == [] then p else ObserveChunk(ObserveAll(p, cs[..|cs| - 1]), cs[|cs| - 1])
  }

  // ---- the terminal frame ----

  datatype Terminal =
    | Skipped
    | ResponseFailed(sequence: nat, id: Text, model: Text, createdAt: real)
    | ChatError | MessagesError | OtherError

  function TerminalOf(p: Protocol): Terminal {
    if p.terminalSeen then Skipped
    else match p.path
      case Responses => ResponseFailed(p.next, p.id, p.model, p.createdAt)
      case ChatCompletions => ChatError
      case Messages => MessagesError
      case OtherPath => OtherError
  }

  /** The observer of one request. */
  class AcceptedExpiryProtocol {
    const path: Path
    var observing: bool
    var next: nat
    var terminalSeen: bool
    var id: Text
    var model: Text
    var createdAt: real

    ghost function Abstract(): Protocol
      reads this
    {
      Protocol(path, observing, next, terminalSeen, id, model, createdAt)
    }

    constructor (path: Path, id: Text, model: Text, now: real)
      ensures Abstract() == Fresh(path, id, model, now)
    {
      this.path, this.id, this.model, createdAt := path, id, model, now;
      observing, next, terminalSeen := path == Responses, 0, false;
    }

    /** Reads the frames a chunk completes; data that cannot be read ends all observation. */
    method Observe(c: Chunk)
      modifies this
      ensures Abstract() == ObserveChunk(old(Abstract()), c)
    {
      if !observing || terminalSeen { return; }
      if c.pushed.Refused? {
        observing := false;
        return;
      }
      var frames := c.pushed.frames;
      for k := 0 to |frames|
        invariant ObserveFrames(old(Abstract()), frames) == ObserveFrames(Abstract(), frames[k..])
      {
        hide ObserveFrame;
        assert frames[k..][0] == frames[k] && frames[k..][1..] == frames[k + 1..];
        ObserveOne(frames[k]);
        if frames[k].Unreadable? { return; }
      }
    }

    method ObserveOne(frame: Frame)
      modifies this
      ensures Abstract() == ObserveFrame(old(Abstract()), frame)
    {
      match frame {
        case NoData =>
        case Unreadable =>
          observing := false;
        case Data(sequence, response, terminal) =>
          if sequence.Some? && Countable(sequence.value) {
            next := Max(next, sequence.value.x.Floor + 1);
          }
          if response.Some? {
            var details := response.value;
            if details.id.Some? && |details.id.value| <= 256 { id := details.id.value; }
            if details.model.Some? && |details.model.value| <= 256 { model := details.model.value; }
            if details.createdAt.Some? { createdAt := details.createdAt.value; }
          }
          if terminal { terminalSeen := true; }
      }
    }

    method Close()
      modifies this`observing
      ensures Abstract() == old(Abstract()).(observing := false)
    {
      observing := false;
    }

    method Terminal() returns (t: Terminal)
      modifies this`observing
      ensures Abstract() == old(Abstract()).(observing := false) && t == TerminalOf(old(Abstract()))
    {
      observing := false;
      t := if terminalSeen then Skipped
           else if path == Responses then ResponseFailed(next, id, model, createdAt)
           else if path == ChatCompletions then ChatError
           else if path == Messages then MessagesError
           else OtherError;
    }
  }

  // ---- what observation amounts to ----

  /** The frames before the first that cannot be read. */
  function ReadablePart(fs: seq<Frame>): seq<Frame> {
    if fs == [] || fs[0].Unreadable? then [] else [fs[0]] + ReadablePart(fs[1..])
  }

  predicate HasTerminal(fs: seq<Frame>) { exists k :: 0 <= k < |fs| && fs[k].Data? && fs[k].terminal }

  predicate HasUnreadable(fs: seq<Frame>) { exists k :: 0 <= k < |fs| && fs[k].Unreadable? }

  function FramesOf(c: Chunk): seq<Frame> { if c.pushed.Refused? then [] else c.pushed.frames }

  predicate Breaks(c: Chunk) { c.pushed.Refused? || HasUnreadable(c.pushed.frames) }

  /** Observation has ended on something that could not be read. */
  predicate Broken(cs: seq<Chunk>) {
    cs != [] && (var front := cs[..|cs| - 1]; Broken(front) || (!HasTerminal(Observed(front)) && Breaks(cs[|cs| - 1])))
  }

  /** The frames looked at: those of each chunk until a terminal event or a break. */
  function Observed(cs: seq<Chunk>): seq<Frame> {
    if cs == [] then []
    else
      var front := cs[..|cs| - 1];
      if Broken(front) || HasTerminal(Observed(front)) then Observed(front)
      else Observed(front) + ReadablePart(FramesOf(cs[|cs| - 1]))
  }

  /** The least number above every number taken into account. */
  ghost predicate IsNext(fs: seq<Frame>, n: nat) {
    && (forall k :: 0 <= k < |fs| && Counts(fs[k]) ==> NumberIn(fs[k]) < n)
    && (n == 0 || exists k :: 0 <= k < |fs| && Counts(fs[k]) && NumberIn(fs[k]) == n - 1)
  }

  lemma NextStep(fs: seq<Frame>, f: Frame, n: nat)
    requires IsNext(fs, n)
    ensures IsNext(fs + [f], if Counts(f) then Max(n, NumberIn(f) + 1) else n)
  {
    var n' := if Counts(f) then Max(n, NumberIn(f) + 1) else n;
    var all := fs + [f];
    assert all[|fs|] == f;
    if n > 0 {
      var k :| 0 <= k < |fs| && Counts(fs[k]) && NumberIn(fs[k]) == n - 1;
      assert all[k] == fs[k];
    }
  }

  /** The observer's state after the frames `fs`, as far as a terminal frame depends on them. */
  ghost predicate Reflects(p: Protocol, fs: seq<Frame>) { IsNext(fs, p.next) && (p.terminalSeen <==> HasTerminal(fs)) }

  lemma FrameReflects(p: Protocol, seen: seq<Frame>, f: Frame)
    requires Reflects(p, seen) && !f.Unreadable?
    ensures Reflects(ObserveFrame(p, f), seen + [f]) && ObserveFrame(p, f).observing == p.observing
      && ObserveFrame(p, f).path == p.path
  {
    hide IsNext, HasTerminal;
    NextStep(seen, f, p.next);
    TerminalAppend(seen, [f]);
    TerminalOne(f);
  }

  lemma TerminalOne(f: Frame)
    ensures HasTerminal([f]) <==> f.Data? && f.terminal
  {
    assert [f][0] == f;
  }

  lemma TerminalAppend(a: seq<Frame>, b: seq<Frame>)
    ensures HasTerminal(a + b) <==> HasTerminal(a) || HasTerminal(b)
  {
    var all := a + b;
    if k :| 0 <= k < |all| && all[k].Data? && all[k].terminal {
      if k < |a| { assert a[k].Data? && a[k].terminal; } else { assert b[k - |a|].Data? && b[k - |a|].terminal; }
    }
    if k :| 0 <= k < |a| && a[k].Data? && a[k].terminal { assert all[k].Data? && all[k].terminal; }
    if k :| 0 <= k < |b| && b[k].Data? && b[k].terminal { assert all[|a| + k].Data? && all[|a| + k].terminal; }
  }

  lemma {:induction false} FramesReflect(p: Protocol, seen: seq<Frame>, fs: seq<Frame>)
    requires Reflects(p, seen)
    ensures Reflects(ObserveFrames(p, fs), seen + ReadablePart(fs))
    ensures ObserveFrames(p, fs).observing == (p.observing && !HasUnreadable(fs)) && ObserveFrames(p, fs).path == p.path
    decreases |fs|
  {
    hide Reflects, ObserveFrame, HasUnreadable;
    if fs == [] {
      assert seen + [] == seen;
      NoneUnreadable();
    } else {
      UnreadableStep(fs);
      if fs[0].Unreadable? {
        assert seen + [] == seen;
        UnreadableStops(p, fs[0], seen);
      } else {
        FrameReflects(p, seen, fs[0]);
        FramesReflect(ObserveFrame(p, fs[0]), seen + [fs[0]], fs[1..]);
        assert seen + [fs[0]] + ReadablePart(fs[1..]) == seen + ReadablePart(fs);
      }
    }
  }

  lemma NoneUnreadable()
    ensures !HasUnreadable([])
  {}

  lemma UnreadableStep(fs: seq<Frame>)
    requires fs != []
    ensures HasUnreadable(fs) <==> fs[0].Unreadable? || HasUnreadable(fs[1..])
  {
    if k :| 0 <= k < |fs| && fs[k].Unreadable? {
      if k > 0 { assert fs[1..][k - 1].Unreadable?; }
    }
  }

  lemma UnreadableStops(p: Protocol, f: Frame, seen: seq<Frame>)
    requires f.Unreadable? && Reflects(p, seen)
    ensures Reflects(ObserveFrame(p, f), seen) && !ObserveFrame(p, f).observing && ObserveFrame(p, f).path == p.path
  {}

  /**
   On a Responses path the observer knows the numbers and the terminal events of the observed frames, no more and no
   less.
   */
  lemma {:induction false} ObservationIsFaithful(p: Protocol, cs: seq<Chunk>)
    requires p.path == Responses && p.observing && p.next == 0 && !p.terminalSeen
    ensures Reflects(ObserveAll(p, cs), Observed(cs)) && ObserveAll(p, cs).path == Responses
    ensures ObserveAll(p, cs).observing == !Broken(cs)
    decreases |cs|
  {
    hide Reflects, ObserveFrames, ReadablePart, HasTerminal, HasUnreadable;
    if cs == [] {
      NothingObserved(p);
    } else {
      var front, c := cs[..|cs| - 1], cs[|cs| - 1];
      var before := ObserveAll(p, front);
      ObservationIsFaithful(p, front);
      ReflectsTerminal(before, Observed(front));
      if before.observing && !before.terminalSeen {
        if c.pushed.Refused? {
          NoFrames();
          assert Observed(front) + [] == Observed(front);
          ReflectsKept(before, Observed(front));
        } else {
          FramesReflect(before, Observed(front), c.pushed.frames);
        }
      }
    }
  }

  lemma NothingObserved(p: Protocol)
    requires p.next == 0 && !p.terminalSeen
    ensures Reflects(p, [])
  {}

  lemma NoFrames()
    ensures ReadablePart([]) == []
  {}

  lemma ReflectsTerminal(p: Protocol, fs: seq<Frame>)
    requires Reflects(p, fs)
    ensures p.terminalSeen <==> HasTerminal(fs)
  {}

  lemma ReflectsKept(p: Protocol, fs: seq<Frame>)
    requires Reflects(p, fs)
    ensures Reflects(p.(observing := false), fs)
  {}

  lemma {:induction false} NonResponsesKeep(p: Protocol, cs: seq<Chunk>)
    requires !p.observing
    ensures ObserveAll(p, cs) == p
    decreases |cs|
  {
    if cs != [] { NonResponsesKeep(p, cs[..|cs| - 1]); }
  }

  // ---- the number of the terminal frame ----

  /** A frame that carries a number of any kind. */
  predicate Numbered(f: Frame) { f.Data? && f.sequence.Some? }

  predicate Below(q: Quantity, n: int) { q.NegativeInfinity? || (q.Finite? && q.x < n as real) }

  /** Every number of the frames, of any kind, is below `n`. */
  ghost predicate AboveAll(fs: seq<Frame>, n: nat) {
    forall k :: 0 <= k < |fs| && Numbered(fs[k]) ==> Below(fs[k].sequence.value, n)
  }

  /** The number is negative, or below the successor of a number that is taken into account. */
  ghost predicate Overtaken(q: Quantity, fs: seq<Frame>) {
    Below(q, 0) || exists j :: 0 <= j < |fs| && Counts(fs[j]) && Below(q, NumberIn(fs[j]) + 1)
  }

  /** Every number that is not taken into account is overtaken anyway. */
  ghost predicate AllOvertaken(fs: seq<Frame>) {
    forall k :: 0 <= k < |fs| && Numbered(fs[k]) && !Counts(fs[k]) ==> Overtaken(fs[k].sequence.value, fs)
  }

  lemma BelowGrows(q: Quantity, m: int, n: int)
    requires Below(q, m) && m <= n
    ensures Below(q, n)
  {}

  /** The next number is above every observed number exactly when those not taken into account are overtaken. */
  lemma NextIsAboveAll(fs: seq<Frame>, n: nat)
    requires IsNext(fs, n)
    ensures AboveAll(fs, n) <==> AllOvertaken(fs)
  {
    hide Below;
    if AboveAll(fs, n) {
      forall k | 0 <= k < |fs| && Numbered(fs[k]) && !Counts(fs[k]) ensures Overtaken(fs[k].sequence.value, fs) {
        if n > 0 {
          var j :| 0 <= j < |fs| && Counts(fs[j]) && NumberIn(fs[j]) == n - 1;
        }
      }
    }
    if AllOvertaken(fs) {
      forall k | 0 <= k < |fs| && Numbered(fs[k]) ensures Below(fs[k].sequence.value, n) {
        var q := fs[k].sequence.value;
        if Counts(fs[k]) {
          CountedIsBelow(fs[k], n);
        } else if Below(q, 0) {
          BelowGrows(q, 0, n);
        } else {
          var j :| 0 <= j < |fs| && Counts(fs[j]) && Below(q, NumberIn(fs[j]) + 1);
          BelowGrows(q, NumberIn(fs[j]) + 1, n);
        }
      }
    }
  }

  lemma CountedIsBelow(f: Frame, n: nat)
    requires Counts(f) && NumberIn(f) < n
    ensures Below(f.sequence.value, n)
  {}

  /** A stream without a terminal event and without anything unreadable is observed completely. */
  lemma {:induction false} EverythingObserved(cs: seq<Chunk>)
    requires forall k :: 0 <= k < |cs| ==> !Breaks(cs[k]) && !HasTerminal(cs[k].pushed.frames)
    ensures !Broken(cs) && !HasTerminal(Observed(cs)) && Observed(cs) == AllFrames(cs)
    decreases |cs|
  {
    hide HasTerminal, HasUnreadable, ReadablePart;
    if cs == [] {
      TerminalNone();
    } else {
      var front, c := cs[..|cs| - 1], cs[|cs| - 1];
      EverythingObserved(front);
      assert !Breaks(c) && !HasTerminal(c.pushed.frames);
      AllReadable(c.pushed.frames);
      TerminalAppend(Observed(front), c.pushed.frames);
    }
  }

  lemma TerminalNone()
    ensures !HasTerminal([])
  {}

  function AllFrames(cs: seq<Chunk>): seq<Frame> {
    if cs == [] then [] else AllFrames(cs[..|cs| - 1]) + FramesOf(cs[|cs| - 1])
  }

  lemma {:induction false} AllReadable(fs: seq<Frame>)
    requires !HasUnreadable(fs)
    ensures ReadablePart(fs) == fs
    decreases |fs|
  {
    if fs != [] {
      UnreadableStep(fs);
      AllReadable(fs[1..]);
    }
  }
}
