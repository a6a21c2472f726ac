/** The rendered ledger, line by line, and when its review records can be read back. */
module LedgerRendering {
  import opened Units
  import opened Seqs
  import opened HtmlEscape
  import opened LedgerRecords
  import opened LedgerInventory
  import opened StableJson

  const TICK: Unit := 0x60

  /** An item with its anchor (without the hash sign) and its review record. */
  datatype Review = Review(item: Item, anchor: Text, record: Json)

  /** `upstream-commit`, `conflict`, `shared-path`, `rerere` */
  function KindName(kind: Kind): Text {
    match kind
    case UpstreamCommit =>
      [0x75, 0x70, 0x73, 0x74, 0x72, 0x65, 0x61, 0x6d, 0x2d, 0x63, 0x6f, 0x6d, 0x6d, 0x69, 0x74]
    case Conflict => [0x63, 0x6f, 0x6e, 0x66, 0x6c, 0x69, 0x63, 0x74]
    case SharedPath => [0x73, 0x68, 0x61, 0x72, 0x65, 0x64, 0x2d, 0x70, 0x61, 0x74, 0x68]
    case Rerere => [0x72, 0x65, 0x72, 0x65, 0x72, 0x65]
  }

  /** `<a id="…"></a>` */
  function AnchorLine(anchor: Text): Text {
    [LT, 0x61, 0x20, 0x69, 0x64, 0x3d, 0x22] + (anchor + [0x22, GT, LT, 0x2f, 0x61, GT])
  }

  /** The id in back ticks, as a heading of the second level. */
  function TitleLine(id: Text): Text { [0x23, 0x23, 0x20] + ([TICK] + (id + ([TICK] + []))) }

  /** The kind in back ticks. */
  function KindLine(kind: Kind): Text { [0x4b, 0x69, 0x6e, 0x64, 0x3a, 0x20, TICK] + (KindName(kind) + [TICK]) }

  function RecordText(x: Review, rank: Collation): Text { StableText(x.record, rank) }

  function RecordLine(g: Tags, x: Review, rank: Collation): Text {
    g.open + (Escape(RecordText(x, rank)) + g.close)
  }

  /** The lines pushed for one item. */
  function ItemLines(g: Tags, x: Review, rank: Collation): seq<Text> {
    [AnchorLine(x.anchor), TitleLine(x.item.id), [], KindLine(x.item.kind), [], RecordLine(g, x, rank), []]
  }

  function Pushed(g: Tags, rank: Collation): Review -> seq<Text> { (x: Review) => ItemLines(g, x, rank) }

  function DropBlank(lines: seq<Text>): seq<Text> {
    if lines != [] && lines[|lines| - 1] == [] then DropBlank(lines[..|lines| - 1]) else lines
  }

  function EndLine(): Text -> Text { (line: Text) => line + [NEWLINE] }

  /** The lines joined by line breaks, with one at the end. */
  function Terminated(lines: seq<Text>): Text { FlatMap(EndLine(), lines) }

  /** The header lines, a blank line, the lines of the items; blank lines at the end are dropped. */
  function LedgerText(g: Tags, head: seq<Text>, xs: seq<Review>, rank: Collation): Text {
    Terminated(DropBlank(head + [[]] + FlatMap(Pushed(g, rank), xs)))
  }

  method RenderLedger(g: Tags, head: seq<Text>, xs: seq<Review>, rank: Collation) returns (text: Text)
    ensures text == LedgerText(g, head, xs, rank)
  {
    hide FlatMap, ItemLines, DropBlank;
    var lines := head + [[]];
    ghost var f := Pushed(g, rank);
    assert xs[..0] == [];
    FlatMapNone(f);
    for k := 0 to |xs|
      invariant lines == head + [[]] + FlatMap(f, xs[..k])
    {
      assert xs[..k + 1] == xs[..k] + [xs[k]];
      FlatMapLast(f, xs[..k], xs[k]);
      lines := lines + ItemLines(g, xs[k], rank);
    }
    assert xs[..|xs|] == xs;
    ghost var all := lines;
    while lines != [] && lines[|lines| - 1] == []
      invariant DropBlank(lines) == DropBlank(all)
    {
      DropStep(lines);
      lines := lines[..|lines| - 1];
    }
    DropStep(lines);
    text := Terminated(lines);
  }

  lemma DropStep(lines: seq<Text>)
    ensures DropBlank(lines) ==
      if lines != [] && lines[|lines| - 1] == [] then DropBlank(lines[..|lines| - 1]) else lines
  {}

  // ---- the ledger as blocks ----

  /** The lines between the header, or the record before, and the record of an item. */
  function HeadingLines(x: Review): seq<Text> {
    [[], AnchorLine(x.anchor), TitleLine(x.item.id), [], KindLine(x.item.kind), []]
  }

  /** The lines of an item with the blank line in front in place of the one behind. */
  function Led(g: Tags, rank: Collation): Review -> seq<Text> {
    (x: Review) => HeadingLines(x) + [RecordLine(g, x, rank)]
  }

  /** The blocks of the ledger, where `lead` stands before the lines of the first item. */
  function Blocks(lead: seq<Text>, xs: seq<Review>, rank: Collation): seq<Block>
    decreases |xs|
  {
    if xs == [] then []
    else [Block(Terminated(lead + HeadingLines(xs[0])), RecordText(xs[0], rank))] + Blocks([[]], xs[1..], rank)
  }

  function Trailer(lead: seq<Text>, xs: seq<Review>): Text { Terminated(if xs == [] then lead else [[]]) }

  lemma {:induction false} Shifted(g: Tags, xs: seq<Review>, rank: Collation)
    ensures [[]] + FlatMap(Pushed(g, rank), xs) == FlatMap(Led(g, rank), xs) + [[]]
    decreases |xs|
  {
    hide FlatMap, RecordLine, AnchorLine, TitleLine, KindLine;
    var f, h := Pushed(g, rank), Led(g, rank);
    if xs == [] {
      FlatMapNone(f);
      FlatMapNone(h);
    } else {
      var front, x := xs[..|xs| - 1], xs[|xs| - 1];
      assert xs == front + [x];
      Shifted(g, front, rank);
      FlatMapLast(f, front, x);
      FlatMapLast(h, front, x);
      assert [[]] + f(x) == h(x) + [[]];
      Exchange([[]], FlatMap(f, front), f(x), FlatMap(h, front), h(x));
    }
  }

  lemma Exchange(blank: seq<Text>, a: seq<Text>, b: seq<Text>, c: seq<Text>, d: seq<Text>)
    requires blank + a == c + blank && blank + b == d + blank
    ensures blank + (a + b) == (c + d) + blank
  {
    assert blank + (a + b) == (blank + a) + b;
    assert (c + blank) + b == c + (blank + b);
    assert c + (d + blank) == (c + d) + blank;
  }

  /** A header whose last line is not blank. */
  ghost predicate HasHead(head: seq<Text>) { head != [] && head[|head| - 1] != [] }

  lemma NoBlankAtEnd(g: Tags, head: seq<Text>, xs: seq<Review>, rank: Collation)
    requires HasHead(head) && |g.open| > 0
    ensures HasHead(head + FlatMap(Led(g, rank), xs))
  {
    hide FlatMap, AnchorLine, TitleLine, KindLine;
    var h := Led(g, rank);
    if xs == [] {
      FlatMapNone(h);
      assert head + [] == head;
    } else {
      var front, x := xs[..|xs| - 1], xs[|xs| - 1];
      assert xs == front + [x];
      FlatMapLast(h, front, x);
      var all := head + (FlatMap(h, front) + h(x));
      assert all[|all| - 1] == RecordLine(g, x, rank);
    }
  }

  lemma LedgerLines(g: Tags, head: seq<Text>, xs: seq<Review>, rank: Collation)
    requires HasHead(head) && |g.open| > 0
    ensures LedgerText(g, head, xs, rank) == Terminated(head + FlatMap(Led(g, rank), xs))
  {
    hide FlatMap, DropBlank, Terminated, Pushed, Led;
    var kept := head + FlatMap(Led(g, rank), xs);
    Shifted(g, xs, rank);
    assert head + [[]] + FlatMap(Pushed(g, rank), xs) == kept + [[]] by {
      assert head + [[]] + FlatMap(Pushed(g, rank), xs) == head + ([[]] + FlatMap(Pushed(g, rank), xs));
    }
    NoBlankAtEnd(g, head, xs, rank);
    DropStep(kept + [[]]);
    assert (kept + [[]])[..|kept|] == kept;
    DropStep(kept);
  }

  lemma Nested(a: Text, b: Text, c: Text, d: Text, e: Text, f: Text)
    ensures (a + b) + (c + (d + (e + f))) == a + (b + ((c + (d + e)) + f))
  {
    assert (c + (d + e)) + f == c + (d + (e + f));
  }

  lemma OneBlankLine()
    ensures Terminated([[]]) == [NEWLINE]
  {
    FlatMapOne(EndLine(), []);
    assert [] + [NEWLINE] == [NEWLINE];
  }

  lemma TerminatedAppend(a: seq<Text>, b: seq<Text>)
    ensures Terminated(a + b) == Terminated(a) + Terminated(b)
  {
    FlatMapAppend(EndLine(), a, b);
  }

  lemma TerminatedLast(a: seq<Text>, line: Text)
    ensures Terminated(a + [line]) == Terminated(a) + (line + [NEWLINE])
  {
    FlatMapLast(EndLine(), a, line);
  }

  /** The text of the ledger is its blocks with the record tags between heading and payload. */
  lemma {:induction false} LinesAreBlocks(g: Tags, lead: seq<Text>, xs: seq<Review>, rank: Collation)
    ensures Render(g, Blocks(lead, xs, rank), Trailer(lead, xs)) == Terminated(lead + FlatMap(Led(g, rank), xs))
    decreases |xs|
  {
    hide FlatMap, Terminated, HeadingLines, Escape, RecordText, Render;
    var h := Led(g, rank);
    if xs == [] {
      FlatMapNone(h);
      assert lead + [] == lead;
      RenderNothing(g, Terminated(lead));
    } else {
      var x, rest := xs[0], xs[1..];
      LinesAreBlocks(g, [[]], rest, rank);
      RenderStep(g, Blocks(lead, xs, rank), Trailer(lead, xs));
      assert Blocks(lead, xs, rank)[1..] == Blocks([[]], rest, rank);
      assert Trailer(lead, xs) == Trailer([[]], rest);
      OneBlankLine();
      TerminatedAppend([[]], FlatMap(h, rest));
      TerminatedAppend(lead, HeadingLines(x));
      LedStep(g, lead, xs, rank);
      Nested(Terminated(lead), Terminated(HeadingLines(x)), g.open, Escape(RecordText(x, rank)), g.close,
             [NEWLINE] + Terminated(FlatMap(h, rest)));
    }
  }

  lemma RenderNothing(g: Tags, trailer: Text)
    ensures Render(g, [], trailer) == trailer
  {}

  lemma LedStep(g: Tags, lead: seq<Text>, xs: seq<Review>, rank: Collation)
    requires xs != []
    ensures Terminated(lead + FlatMap(Led(g, rank), xs)) ==
      Terminated(lead) + (Terminated(HeadingLines(xs[0])) +
        (RecordLine(g, xs[0], rank) + ([NEWLINE] + Terminated(FlatMap(Led(g, rank), xs[1..])))))
  {
    hide FlatMap, Terminated, HeadingLines, RecordLine;
    var h, x, rest := Led(g, rank), xs[0], xs[1..];
    assert xs == [x] + rest;
    FlatMapAppend(h, [x], rest);
    FlatMapOne(h, x);
    TerminatedAppend(lead, h(x) + FlatMap(h, rest));
    TerminatedAppend(h(x), FlatMap(h, rest));
    TerminatedLast(HeadingLines(x), RecordLine(g, x, rank));
    var a, b, c := Terminated(HeadingLines(x)), RecordLine(g, x, rank), Terminated(FlatMap(h, rest));
    assert (a + (b + [NEWLINE])) + c == a + (b + ([NEWLINE] + c));
  }

  // ---- where an opening tag can stand ----

  /** Tags that hold no back tick, and do not start like the anchor element. */
  ghost predicate Distinguished(g: Tags) {
    && Proper(g) && (forall k :: 0 <= k < |g.open| ==> g.open[k] != TICK) && g.open[1] != 0x61 && g.open[1] != 0x2f
  }

  lemma LedgerTagsAreDistinguished()
    ensures Distinguished(LEDGER)
  {
    LedgerTagsAreProper();
  }

  /** A tag without `c` stands on one side of it. */
  lemma OneSide(a: Text, c: Unit, b: Text, tag: Text, k: nat)
    requires |tag| > 0 && Occurs(a + ([c] + b), k, tag) && forall k :: 0 <= k < |tag| ==> tag[k] != c
    ensures Occurs(a, k, tag) || (k > |a| && Occurs(b, k - |a| - 1, tag))
  {
    hide Occurs;
    var s := a + ([c] + b);
    OccursUnits(s, k, tag);
    assert s[|a|] == c;
    assert k + |tag| <= |a| || k > |a|;
    OccursSlice(s, k, tag);
    if k + |tag| <= |a| {
      assert s[k..k + |tag|] == a[k..k + |tag|];
      SliceOccurs(a, k, k + |tag|);
    } else {
      var j := k - |a| - 1;
      assert s[k..k + |tag|] == b[j..j + |tag|];
      SliceOccurs(b, j, j + |tag|);
    }
  }

  lemma OnLeft(a: Text, rest: Text, tag: Text, k: nat)
    requires Occurs(a, k, tag)
    ensures Occurs(a + rest, k, tag)
  {
    assert (a + rest)[k..k + |tag|] == a[k..k + |tag|];
  }

  lemma OnRight(front: Text, b: Text, tag: Text, k: nat)
    requires Occurs(b, k, tag)
    ensures Occurs(front + b, |front| + k, tag)
  {
    assert (front + b)[|front| + k..|front| + k + |tag|] == b[k..k + |tag|];
  }

  lemma ContainsSplit(a: Text, c: Unit, b: Text, tag: Text)
    requires |tag| > 0 && forall k :: 0 <= k < |tag| ==> tag[k] != c
    ensures Contains(a + ([c] + b), tag) <==> Contains(a, tag) || Contains(b, tag)
  {
    hide Occurs;
    if k: nat :| Occurs(a + ([c] + b), k, tag) { OneSide(a, c, b, tag, k); }
    if k: nat :| Occurs(a, k, tag) { OnLeft(a, [c] + b, tag, k); }
    if k: nat :| Occurs(b, k, tag) {
      OnRight([c], b, tag, k);
      OnRight(a, [c] + b, tag, 1 + k);
    }
  }

  lemma ContainsStart(s: Text, g: Tags)
    requires Proper(g) && forall k :: 0 <= k < |s| - 1 && s[k] == LT ==> s[k + 1] != g.open[1]
    ensures !Contains(s, g.open)
  {
    hide Occurs;
    forall k: nat ensures !Occurs(s, k, g.open) { TagStarts(s, k, g); }
  }

  lemma TagStarts(s: Text, k: nat, g: Tags)
    requires Proper(g)
    ensures Occurs(s, k, g.open) ==> k + 1 < |s| && s[k] == LT && s[k + 1] == g.open[1]
  {
    OccursUnits(s, k, g.open);
  }

  lemma AnchorIsClean(anchor: Text, g: Tags)
    requires Distinguished(g) && LT !in anchor
    ensures !Contains(AnchorLine(anchor), g.open)
  {
    var s, n := AnchorLine(anchor), |anchor|;
    assert forall k :: 0 <= k < n ==> s[7 + k] == anchor[k];
    forall k | 0 <= k < |s| - 1 && s[k] == LT ensures s[k + 1] != g.open[1] {
      assert k == 0 || k == n + 9;
    }
    ContainsStart(s, g);
  }

  lemma TitleContains(id: Text, g: Tags)
    requires Distinguished(g)
    ensures Contains(TitleLine(id), g.open) <==> Contains(id, g.open)
  {
    ContainsSplit([0x23, 0x23, 0x20], TICK, id + ([TICK] + []), g.open);
    ContainsSplit(id, TICK, [], g.open);
    ContainsStart([0x23, 0x23, 0x20], g);
    ContainsStart([], g);
  }

  lemma KindIsClean(kind: Kind, g: Tags)
    requires Proper(g)
    ensures !Contains(KindLine(kind), g.open)
  {
    hide KindName;
    var s, name := KindLine(kind), KindName(kind);
    NameUnits(kind);
    assert forall k :: 0 <= k < |name| ==> s[7 + k] == name[k];
    assert s[|name| + 7] == TICK;
    ContainsStart(s, g);
  }

  lemma NameUnits(kind: Kind)
    ensures forall k :: 0 <= k < |KindName(kind)| ==> KindName(kind)[k] != LT
  {}

  ghost predicate SomeContains(lines: seq<Text>, tag: Text) {
    exists k :: 0 <= k < |lines| && Contains(lines[k], tag)
  }

  lemma SomeLast(lines: seq<Text>, line: Text, tag: Text)
    ensures SomeContains(lines + [line], tag) <==> SomeContains(lines, tag) || Contains(line, tag)
  {
    hide Contains;
    var all := lines + [line];
    if k :| 0 <= k < |all| && Contains(all[k], tag) {
      if k < |lines| { assert Contains(lines[k], tag); }
    }
    if k :| 0 <= k < |lines| && Contains(lines[k], tag) { assert Contains(all[k], tag); }
    if Contains(line, tag) { assert Contains(all[|lines|], tag); }
  }

  lemma SomeAppend(a: seq<Text>, b: seq<Text>, tag: Text)
    ensures SomeContains(a + b, tag) <==> SomeContains(a, tag) || SomeContains(b, tag)
  {
    hide Contains;
    var all := a + b;
    if k :| 0 <= k < |all| && Contains(all[k], tag) {
      if k < |a| { assert Contains(a[k], tag); } else { assert Contains(b[k - |a|], tag); }
    }
    if k :| 0 <= k < |a| && Contains(a[k], tag) { assert Contains(all[k], tag); }
    if k :| 0 <= k < |b| && Contains(b[k], tag) { assert Contains(all[|a| + k], tag); }
  }

  lemma {:induction false} LineEnds(lines: seq<Text>)
    ensures lines != [] ==> EndsLine(Terminated(lines))
  {
    hide FlatMap;
    if lines != [] {
      var front, line := lines[..|lines| - 1], lines[|lines| - 1];
      assert lines == front + [line];
      TerminatedLast(front, line);
    }
  }

  /** A tag without a line break stands within one line. */
  lemma {:induction false} ContainedInLine(lines: seq<Text>, g: Tags)
    requires Proper(g)
    ensures Contains(Terminated(lines), g.open) <==> SomeContains(lines, g.open)
    decreases |lines|
  {
    hide Contains, Terminated, SomeContains;
    if lines == [] {
      NoLines(g);
    } else {
      var front, line := lines[..|lines| - 1], lines[|lines| - 1];
      assert lines == front + [line];
      ContainedInLine(front, g);
      SomeLast(front, line, g.open);
      TerminatedLast(front, line);
      LastLineContains(front, line, g);
    }
  }

  lemma NoLines(g: Tags)
    requires Proper(g)
    ensures !Contains(Terminated([]), g.open) && !SomeContains([], g.open)
  {
    FlatMapNone(EndLine());
    ContainsStart([], g);
  }

  lemma LastLineContains(front: seq<Text>, line: Text, g: Tags)
    requires Proper(g)
    ensures var t := Terminated(front);
      Contains(t + (line + [NEWLINE]), g.open) <==> Contains(t, g.open) || Contains(line, g.open)
  {
    hide Contains, Terminated;
    var t, tag := Terminated(front), g.open;
    ContainsSplit(line, NEWLINE, [], tag);
    assert line + ([NEWLINE] + []) == line + [NEWLINE];
    ContainsStart([], g);
    if front == [] {
      assert t == [] by { NoText(); }
      assert t + (line + [NEWLINE]) == line + [NEWLINE];
    } else {
      LineEnds(front);
      var u := t[..|t| - 1];
      assert t == u + ([NEWLINE] + []);
      ContainsSplit(u, NEWLINE, [], tag);
      ContainsSplit(u, NEWLINE, line + [NEWLINE], tag);
      assert t + (line + [NEWLINE]) == u + ([NEWLINE] + (line + [NEWLINE]));
    }
  }

  lemma NoText()
    ensures Terminated([]) == []
  {}

  lemma HeadingContains(x: Review, g: Tags)
    requires Distinguished(g) && LT !in x.anchor
    ensures SomeContains(HeadingLines(x), g.open) <==> Contains(x.item.id, g.open)
  {
    hide Contains, AnchorLine, TitleLine, KindLine;
    var lines := HeadingLines(x);
    AnchorIsClean(x.anchor, g);
    TitleContains(x.item.id, g);
    KindIsClean(x.item.kind, g);
    ContainsStart([], g);
    assert lines[2] == TitleLine(x.item.id);
    if k :| 0 <= k < |lines| && Contains(lines[k], g.open) { assert k == 2; }
  }

  // ---- the round trip ----

  /** Neither the header nor an id holds the opening tag of a record. */
  ghost predicate TagFree(g: Tags, head: seq<Text>, xs: seq<Review>) {
    !SomeContains(head, g.open) && forall k :: 0 <= k < |xs| ==> !Contains(xs[k].item.id, g.open)
  }

  lemma {:induction false} CleanIffTagFree(g: Tags, lead: seq<Text>, xs: seq<Review>, rank: Collation)
    requires Distinguished(g) && xs != [] && forall k :: 0 <= k < |xs| ==> LT !in xs[k].anchor
    ensures Clean(g, Blocks(lead, xs, rank)) <==> TagFree(g, lead, xs)
    decreases |xs|
  {
    hide Contains, Terminated, HeadingLines, RecordText, Clean, SomeContains;
    var x, rest := xs[0], xs[1..];
    CleanStep(g, Blocks(lead, xs, rank));
    assert Blocks(lead, xs, rank)[1..] == Blocks([[]], rest, rank);
    ContainedInLine(lead + HeadingLines(x), g);
    SomeAppend(lead, HeadingLines(x), g.open);
    HeadingContains(x, g);
    BlankIsClean(g);
    assert forall k :: 0 < k < |xs| ==> xs[k] == rest[k - 1];
    if rest == [] {
      assert Clean(g, Blocks([[]], rest, rank)) by { NoBlocks(g); }
    } else {
      CleanIffTagFree(g, [[]], rest, rank);
    }
    assert TagFree(g, lead, xs) <==>
      !SomeContains(lead, g.open) && !Contains(x.item.id, g.open)
      && forall k :: 0 <= k < |rest| ==> !Contains(rest[k].item.id, g.open);
  }

  lemma NoBlocks(g: Tags)
    ensures Clean(g, [])
  {}

  lemma BlankIsClean(g: Tags)
    requires Proper(g)
    ensures !SomeContains([[]], g.open) && !Contains(Terminated([[]]), g.open)
  {
    hide Contains;
    ContainsStart([], g);
    ContainedInLine([[]], g);
  }

  function RecordTexts(xs: seq<Review>, rank: Collation): seq<Text> {
    seq(|xs|, k requires 0 <= k < |xs| => RecordText(xs[k], rank))
  }

  lemma PayloadsCons(first: Block, rest: seq<Block>)
    ensures Payloads([first] + rest) == [first.payload] + Payloads(rest)
  {
    var all := [first] + rest;
    forall k | 0 <= k < |all| ensures Payloads(all)[k] == ([first.payload] + Payloads(rest))[k] {
      if k > 0 { assert all[k] == rest[k - 1]; }
    }
  }

  lemma RecordTextsCons(xs: seq<Review>, rank: Collation)
    requires xs != []
    ensures RecordTexts(xs, rank) == [RecordText(xs[0], rank)] + RecordTexts(xs[1..], rank)
  {
    hide RecordText;
    var tail := RecordTexts(xs[1..], rank);
    forall k | 0 <= k < |xs| ensures RecordTexts(xs, rank)[k] == ([RecordText(xs[0], rank)] + tail)[k] {
      if k > 0 { assert xs[k] == xs[1..][k - 1]; }
    }
  }

  lemma BlocksCons(lead: seq<Text>, xs: seq<Review>, rank: Collation)
    requires xs != []
    ensures var first := Block(Terminated(lead + HeadingLines(xs[0])), RecordText(xs[0], rank));
      Blocks(lead, xs, rank) == [first] + Blocks([[]], xs[1..], rank)
  {
    hide RecordText, Terminated, HeadingLines;
  }

  lemma {:induction false} BlockPayloads(lead: seq<Text>, xs: seq<Review>, rank: Collation)
    ensures Payloads(Blocks(lead, xs, rank)) == RecordTexts(xs, rank)
    decreases |xs|
  {
    if xs != [] {
      hide RecordText, Terminated, HeadingLines, Blocks, Payloads, RecordTexts;
      BlockPayloads([[]], xs[1..], rank);
      BlocksCons(lead, xs, rank);
      PayloadsCons(Block(Terminated(lead + HeadingLines(xs[0])), RecordText(xs[0], rank)), Blocks([[]], xs[1..], rank));
      RecordTextsCons(xs, rank);
    }
  }

  ghost predicate HeadingsEnd(blocks: seq<Block>) { forall k :: 0 <= k < |blocks| ==> EndsLine(blocks[k].heading) }

  lemma {:induction false} BlockHeadingsEnd(lead: seq<Text>, xs: seq<Review>, rank: Collation)
    ensures HeadingsEnd(Blocks(lead, xs, rank))
    decreases |xs|
  {
    hide RecordText, Terminated, HeadingLines, EndsLine;
    if xs != [] {
      BlockHeadingsEnd([[]], xs[1..], rank);
      HeadingHasLines(xs[0]);
      LineEnds(lead + HeadingLines(xs[0]));
      BlocksCons(lead, xs, rank);
    }
  }

  lemma HeadingHasLines(x: Review)
    ensures HeadingLines(x) != []
  {}

  /** The texts of the records found in a ledger. */
  function ExtractedTexts(g: Tags, ledger: Text): seq<Text>
    requires |g.open| > 0
  {
    UnescapeAll(Extract(g, ledger, 0))
  }

  /**
   The records of a rendered ledger with items are read back unchanged if and only if neither its header nor any item id
   holds the opening tag of a record; without items, a header that holds none gives none.
   */
  lemma RecordsReadBack(g: Tags, head: seq<Text>, xs: seq<Review>, rank: Collation)
    requires Distinguished(g) && HasHead(head) && forall k :: 0 <= k < |xs| ==> LT !in xs[k].anchor
    ensures TagFree(g, head, xs) ==> ExtractedTexts(g, LedgerText(g, head, xs, rank)) == RecordTexts(xs, rank)
    ensures xs != [] && ExtractedTexts(g, LedgerText(g, head, xs, rank)) == RecordTexts(xs, rank) ==>
      TagFree(g, head, xs)
  {
    hide Render, Blocks, Extract, UnescapeAll, Clean, Contains, Terminated, LedgerText, RecordTexts, Payloads, Led;
    LedgerLines(g, head, xs, rank);
    LinesAreBlocks(g, head, xs, rank);
    BlankIsClean(g);
    ContainedInLine(head, g);
    BlockPayloads(head, xs, rank);
    if xs != [] {
      ExtractionReturns(g, Blocks(head, xs, rank), Trailer(head, xs));
      CleanIffTagFree(g, head, xs, rank);
    } else if TagFree(g, head, xs) {
      ExtractionReturns(g, Blocks(head, xs, rank), Trailer(head, xs));
      assert Blocks(head, xs, rank) == [] by { NoReviews(head, rank); }
      NoBlocks(g);
    }
  }

  lemma NoReviews(lead: seq<Text>, rank: Collation)
    ensures Blocks(lead, [], rank) == []
  {}

  // ---- an inventory that is accepted and cannot be read back ----

  lemma {:induction false} OnePart(t: Text)
    requires forall k :: 0 <= k < |t| ==> t[k] != SLASH
    ensures Parts(t) == [t]
    decreases |t|
  {
    if t != [] {
      OnePart(t[1..]);
      assert [t[0]] + t[1..] == t;
    }
  }

  lemma TagIsSafePath()
    ensures SafePath(OPEN)
  {
    OpenHasNoSlash();
    OnePart(OPEN);
  }

  lemma OpenHasNoSlash()
    ensures forall k :: 0 <= k < |OPEN| ==> OPEN[k] != SLASH
    ensures forall k :: 0 <= k < |OPEN| ==> OPEN[k] != 0x5c && OPEN[k] != 0 && OPEN[k] != 0x0a && OPEN[k] != 0x0d
  {}

  /** The shared path that is spelled like the tag. */
  function TagItem(): Item {
    var source := Source([], OPEN, [], []);
    Item(CanonicalId(SharedPath, source), SharedPath, source)
  }

  /**
   An accepted inventory whose ledger does not give its records back, whatever its header, anchor, record and
   collation.
   */
  lemma AcceptedButNotReadBack(head: seq<Text>, anchor: Text, record: Json, rank: Collation)
    requires HasHead(head) && LT !in anchor
    ensures var xs := [Review(TagItem(), anchor, record)];
      && Accepted(TagExpected(), [TagItem()])
      && ExtractedTexts(LEDGER, LedgerText(LEDGER, head, xs, rank)) != RecordTexts(xs, rank)
  {
    hide LedgerText, RecordTexts, ExtractedTexts, Distinguished;
    var xs := [Review(TagItem(), anchor, record)];
    TagItemAccepted();
    LedgerTagsAreDistinguished();
    TagInId();
    assert !TagFree(LEDGER, head, xs) by { assert Contains(xs[0].item.id, LEDGER.open); }
    RecordsReadBack(LEDGER, head, xs, rank);
  }

  lemma TagInId()
    ensures Contains(TagItem().id, OPEN)
  {
    var p := Prefix(SharedPath);
    var id := p + OPEN;
    assert id[|p|..|p| + |OPEN|] == OPEN;
    assert Occurs(id, |p|, OPEN);
    assert TagItem().id == id;
  }

  /** What an inventory with that one shared path must account for. */
  function TagExpected(): Expected { Expected([], [], [OPEN], [], Trigger(false, []), PreMergeEmpty, Final) }

  lemma TagTrigger()
    ensures DerivedTrigger([], [OPEN]) == Trigger(false, [])
  {
    hide QWEN_FILE, QWEN_FOLDER;
    var all := ConflictPaths([]) + [OPEN];
    assert all == [OPEN];
    TagIsNotQwen();
    FlatMapOne(KeepQwen(), OPEN);
  }

  lemma TagIsNotQwen()
    ensures !IsQwen(OPEN)
  {
    assert OPEN[0] == LT && QWEN_FILE[0] != LT && QWEN_FOLDER[0] != LT;
  }

  lemma TagItemAccepted()
    ensures Accepted(TagExpected(), [TagItem()])
  {
    hide SafePath, CanonicalId, DerivedTrigger;
    TagIsSafePath();
    TagTrigger();
    var items := [TagItem()];
    assert items[1..] == [] && items[0].kind == SharedPath;
    assert OfKind(items, SharedPath) == items && OfKind(items, UpstreamCommit) == [];
    assert OfKind(items, Conflict) == [] && OfKind(items, Rerere) == [];
    assert Keys(items)[0] == OPEN;
  }
}
