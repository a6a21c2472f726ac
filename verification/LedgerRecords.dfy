/** Review records inside the rendered ledger, and their extraction. */
module LedgerRecords {
  import opened Units
  import opened HtmlEscape

  /** The tag that opens a record: `<pre data-upstream-sync-item="v1">` */
  const OPEN: Text := [
    LT, 0x70, 0x72, 0x65, 0x20, 0x64, 0x61, 0x74, 0x61, 0x2d, 0x75, 0x70, 0x73, 0x74, 0x72, 0x65, 0x61, 0x6d, 0x2d,
    0x73, 0x79, 0x6e, 0x63, 0x2d, 0x69, 0x74, 0x65, 0x6d, 0x3d, 0x22, 0x76, 0x31, 0x22, GT]

  /** `</pre>` */
  const CLOSE: Text := [LT, 0x2f, 0x70, 0x72, 0x65, GT]

  /** The tags around a record; `<` stands only in front of each, and they differ right after it. */
  datatype Tags = Tags(open: Text, close: Text)

  ghost predicate Proper(g: Tags) {
    && |g.open| > 1 && |g.close| > 1 && g.open[0] == LT == g.close[0] && g.open[1] != g.close[1]
    && (forall k :: 1 <= k < |g.open| ==> g.open[k] != LT && g.open[k] != NEWLINE)
    && (forall k :: 1 <= k < |g.close| ==> g.close[k] != LT)
    && EndsTag(g.open)
  }

  const LEDGER: Tags := Tags(OPEN, CLOSE)

  lemma OpenUnits()
    ensures forall k :: 1 <= k < |OPEN| ==> OPEN[k] != LT
    ensures forall k :: 1 <= k < |OPEN| ==> OPEN[k] != NEWLINE
  {}

  lemma LedgerTagsAreProper()
    ensures Proper(LEDGER)
  {
    OpenUnits();
  }

  /** A record and whatever the ledger prints before it. */
  datatype Block = Block(heading: Text, payload: Text)

  function Render(g: Tags, blocks: seq<Block>, trailer: Text): Text {
    if blocks == [] then trailer
    else blocks[0].heading + (g.open + (Escape(blocks[0].payload) + (g.close + Render(g, blocks[1..], trailer))))
  }

  /** The first occurrence of `tag` at or after `i`. */
  function Find(s: Text, tag: Text, i: nat): (r: Option<nat>)
    ensures r.Some? ==> i <= r.value && r.value + |tag| <= |s|
    decreases |s| - i
  {
    if i > |s| then None
    else if i + |tag| <= |s| && s[i..i + |tag|] == tag then Some(i)
    else Find(s, tag, i + 1)
  }

  lemma {:induction false} FindIsFirst(s: Text, tag: Text, i: nat)
    requires |tag| > 0
    ensures Find(s, tag, i).Some? ==> Occurs(s, Find(s, tag, i).value, tag)
    ensures forall k :: i <= k && (Find(s, tag, i).Some? ==> k < Find(s, tag, i).value) ==> !Occurs(s, k, tag)
    decreases |s| - i
  {
    if i <= |s| && !(i + |tag| <= |s| && s[i..i + |tag|] == tag) { FindIsFirst(s, tag, i + 1); }
  }

  /** All matches of the record pattern from `i` on: an opening tag and the shortest text to a closing tag. */
  function Extract(g: Tags, s: Text, i: nat): seq<Text>
    requires |g.open| > 0
    decreases |s| - i
  {
    if i > |s| then [] else
    var p := Find(s, g.open, i);
    if p.None? then [] else
    var from := p.value + |g.open|;
    var q := Find(s, g.close, from);
    if q.None? then [] else [s[from..q.value]] + Extract(g, s, q.value + |g.close|)
  }

  function UnescapeAll(ts: seq<Text>): seq<Text> {
    seq(|ts|, k requires 0 <= k < |ts| => Unescape(ts[k]))
  }

  function Payloads(blocks: seq<Block>): seq<Text> {
    seq(|blocks|, k requires 0 <= k < |blocks| => blocks[k].payload)
  }

  ghost predicate Contains(s: Text, tag: Text) { exists k: nat :: Occurs(s, k, tag) }

  // ---- one block ----

  /** The layout of a ledger around one block: where its tags stand, and that no tag hides in its record. */
  ghost predicate BlockAt(g: Tags, s: Text, h: nat, e: nat) {
    && h + |g.open| <= e && e + |g.close| <= |s|
    && Occurs(s, h, g.open) && Occurs(s, e, g.close)
    && forall k :: h < k < e ==> s[k] != LT
  }

  /** A tag contains `<` only in front, so a tag that starts before a `<` ends before it. */
  lemma TagEndsBefore(s: Text, k: nat, tag: Text, h: nat)
    requires Occurs(s, k, tag) && k < h && At(s, h) == LT && |tag| > 0
    requires forall j :: 1 <= j < |tag| ==> tag[j] != LT
    ensures k + |tag| <= h
  {
    OccursUnits(s, k, tag);
  }

  lemma FirstOpen(g: Tags, s: Text, i: nat, h: nat, e: nat) returns (p: nat)
    requires Proper(g) && BlockAt(g, s, h, e) && i <= h
    ensures Find(s, g.open, i) == Some(p) && i <= p <= h && Occurs(s, p, g.open)
    ensures p < h ==> p + |g.open| <= h
    ensures p == h ==> forall k :: i <= k < h ==> !Occurs(s, k, g.open)
  {
    OccursUnits(s, h, g.open);
    FindIsFirst(s, g.open, i);
    p := Find(s, g.open, i).value;
    if p < h { TagEndsBefore(s, p, g.open, h); }
  }

  /**
   From the end of an opening tag that is not past the block's own, the next closing tag is in the heading or the
   block's own.
   */
  lemma FirstClose(g: Tags, s: Text, from: nat, h: nat, e: nat) returns (q: nat)
    requires Proper(g) && BlockAt(g, s, h, e) && (from <= h || from == h + |g.open|)
    ensures Find(s, g.close, from) == Some(q) && from <= q <= e && (q < e ==> q + |g.close| <= h)
  {
    OccursUnits(s, h, g.open);
    FindIsFirst(s, g.close, from);
    q := Find(s, g.close, from).value;
    OccursUnits(s, q, g.close);
    assert s[q] == LT && s[q + 1] == g.close[1] && s[h + 1] == g.open[1];
    assert q != h && !(h < q < e);
    if q < h { TagEndsBefore(s, q, g.close, h); }
  }

  lemma ExtractStep(g: Tags, s: Text, i: nat, p: nat, q: nat)
    requires Proper(g) && i <= |s| && Find(s, g.open, i) == Some(p) && Find(s, g.close, p + |g.open|) == Some(q)
    ensures p + |g.open| <= q && q + |g.close| <= |s|
    ensures Extract(g, s, i) == [s[p + |g.open|..q]] + Extract(g, s, q + |g.close|)
  {
    hide Find;
  }

  /**
   From any point of a block's heading, extraction yields the records it finds in the heading, then one
   record that ends where the block's own record ends. That one is longer than the block's own unless
   no opening tag was met in the heading.
   */
  lemma {:induction false} ExtractBlock(g: Tags, s: Text, i: nat, h: nat, e: nat) returns (extras: seq<Text>, own: nat)
    requires Proper(g) && BlockAt(g, s, h, e) && i <= h
    ensures i + |g.open| <= own <= e
    ensures Extract(g, s, i) == extras + ([s[own..e]] + Extract(g, s, e + |g.close|))
    ensures own == h + |g.open| || (own <= h && (own >= |g.open| && Occurs(s, own - |g.open|, g.open)))
    ensures (forall k :: i <= k && k + |g.open| <= h ==> !Occurs(s, k, g.open)) ==> extras == [] && own == h + |g.open|
    ensures extras == [] && own == h + |g.open| ==> forall k :: i <= k && k + |g.open| <= h ==> !Occurs(s, k, g.open)
    decreases h - i
  {
    hide Find, Extract, Occurs;
    var p := FirstOpen(g, s, i, h, e);
    var q := FirstClose(g, s, p + |g.open|, h, e);
    ExtractStep(g, s, i, p, q);
    if q == e {
      extras, own := [], p + |g.open|;
      assert [] + ([s[own..e]] + Extract(g, s, e + |g.close|)) == [s[own..e]] + Extract(g, s, e + |g.close|);
    } else {
      extras, own := ExtractBlock(g, s, q + |g.close|, h, e);
      assert [s[p + |g.open|..q]] + (extras + ([s[own..e]] + Extract(g, s, e + |g.close|))) ==
             ([s[p + |g.open|..q]] + extras) + ([s[own..e]] + Extract(g, s, e + |g.close|));
      extras := [s[p + |g.open|..q]] + extras;
    }
  }

  // ---- the whole ledger ----

  ghost predicate Clean(g: Tags, blocks: seq<Block>) {
    forall k :: 0 <= k < |blocks| ==> !Contains(blocks[k].heading, g.open)
  }

  lemma BlockPieces(s: Text, i: nat, heading: Text, open: Text, escaped: Text, close: Text, rest: Text)
    requires i <= |s| && s[i..] == heading + (open + (escaped + (close + rest)))
    ensures var h := i + |heading|; var e := h + |open| + |escaped|;
            && e + |close| <= |s| && Occurs(s, h, open) && Occurs(s, h + |open|, escaped) && Occurs(s, e, close)
            && s[i..h] == heading && s[h + |open|..e] == escaped && s[e + |close|..] == rest
  {
    hide Occurs;
    var h := i + |heading|;
    var e := h + |open| + |escaped|;
    OccursSuffix(s, i, heading, open + (escaped + (close + rest)));
    OccursSuffix(s, h, open, escaped + (close + rest));
    OccursSuffix(s, h + |open|, escaped, close + rest);
    OccursSuffix(s, e, close, rest);
    OccursSlice(s, i, heading);
    OccursSlice(s, h + |open|, escaped);
  }

  lemma NoTagInside(g: Tags, s: Text, h: nat, escaped: Text)
    requires Proper(g) && Occurs(s, h, g.open) && Occurs(s, h + |g.open|, escaped) && LT !in escaped
    ensures h + |g.open| + |escaped| <= |s| && forall k :: h < k < h + |g.open| + |escaped| ==> s[k] != LT
  {
    hide Occurs;
    OccursUnits(s, h, g.open);
    OccursUnits(s, h + |g.open|, escaped);
    forall k | h < k < h + |g.open| + |escaped| ensures s[k] != LT {
      if k < h + |g.open| {
        assert s[k] == g.open[k - h];
      } else {
        assert s[k] == escaped[k - h - |g.open|];
      }
    }
  }

  lemma BlockLayout(g: Tags, s: Text, i: nat, b: Block, rest: Text)
    requires Proper(g) && i <= |s| && s[i..] == b.heading + (g.open + (Escape(b.payload) + (g.close + rest)))
    ensures var h := i + |b.heading|;
            var e := h + |g.open| + |Escape(b.payload)|;
            && BlockAt(g, s, h, e) && s[h + |g.open|..e] == Escape(b.payload) && s[e + |g.close|..] == rest
            && s[i..h] == b.heading
  {
    hide Escape, Occurs, Proper;
    BlockPieces(s, i, b.heading, g.open, Escape(b.payload), g.close, rest);
    EscapedHasNoTag(b.payload);
    NoTagInside(g, s, i + |b.heading|, Escape(b.payload));
  }

  lemma OccursSuffix(s: Text, i: nat, a: Text, b: Text)
    requires i <= |s| && s[i..] == a + b
    ensures Occurs(s, i, a) && i + |a| <= |s| && s[i + |a|..] == b
  {
    assert s[i..i + |a|] == (a + b)[..|a|] == a;
    assert s[i + |a|..] == (a + b)[|a|..] == b;
  }

  lemma SliceOfSlice(s: Text, i: nat, h: nat, a: nat, b: nat)
    requires i <= h <= |s| && a <= b <= h - i
    ensures s[i..h][a..b] == s[i + a..i + b]
  {
    forall k | 0 <= k < b - a ensures s[i..h][a..b][k] == s[i + a..i + b][k] {
      assert s[i..h][a + k] == s[i + a + k];
    }
  }

  lemma OccursWithin(s: Text, i: nat, h: nat, tag: Text)
    requires i <= h <= |s|
    ensures Contains(s[i..h], tag) <==> exists k :: i <= k && k + |tag| <= h && Occurs(s, k, tag)
  {
    if k: nat :| Occurs(s[i..h], k, tag) {
      SliceOfSlice(s, i, h, k, k + |tag|);
      assert i <= i + k && i + k + |tag| <= h && Occurs(s, i + k, tag);
    }
    if k :| i <= k && k + |tag| <= h && Occurs(s, k, tag) {
      SliceOfSlice(s, i, h, k - i, k - i + |tag|);
      assert Occurs(s[i..h], k - i, tag);
    }
  }

  /** A record that swallowed an opening tag unescapes to something longer than the block's payload. */
  lemma SwallowedDiffers(a: Text, payload: Text)
    requires EndsTag(a)
    ensures Unescape(a + Escape(payload)) != payload
  {
    hide Escape;
    UnescapeUndoesEscape(payload);
    UnescapeSplitsAtTag(a, Escape(payload), 5);
    assert |Unescape(a) + payload| > |payload|;
  }

  lemma OneBlock(g: Tags, s: Text, i: nat, b: Block, rest: Text) returns (first: seq<Text>, next: nat)
    requires Proper(g) && i <= |s| && s[i..] == b.heading + (g.open + (Escape(b.payload) + (g.close + rest)))
    ensures i < next <= |s| && s[next..] == rest && Extract(g, s, i) == first + Extract(g, s, next) && |first| >= 1
    ensures |first| == 1 && Unescape(first[0]) == b.payload <==> !Contains(b.heading, g.open)
  {
    hide Escape, Unescape, Occurs, Extract;
    var h := i + |b.heading|;
    var e := h + |g.open| + |Escape(b.payload)|;
    BlockLayout(g, s, i, b, rest);
    OccursWithin(s, i, h, g.open);
    UnescapeUndoesEscape(b.payload);
    var extras, own := ExtractBlock(g, s, i, h, e);
    next := e + |g.close|;
    first := extras + [s[own..e]];
    assert first + Extract(g, s, next) == extras + ([s[own..e]] + Extract(g, s, next));
    if own != h + |g.open| {
      var a := s[own..h + |g.open|];
      OccursUnits(s, h, g.open);
      assert s[h + |g.open| - 1] == GT;
      assert s[own..e] == a + s[h + |g.open|..e];
      SwallowedDiffers(a, b.payload);
    }
  }

  ghost predicate EndsLine(t: Text) { |t| > 0 && t[|t| - 1] == NEWLINE }

  /** A record that swallowed an opening tag of a heading that ends its line holds a line break. */
  lemma BlockBreaks(g: Tags, s: Text, i: nat, b: Block, rest: Text, first: seq<Text>, next: nat)
    requires Proper(g) && i <= |s| && s[i..] == b.heading + (g.open + (Escape(b.payload) + (g.close + rest)))
    requires i < next <= |s| && s[next..] == rest && Extract(g, s, i) == first + Extract(g, s, next)
    requires |first| == 1 && Contains(b.heading, g.open) && EndsLine(b.heading)
    ensures NEWLINE in Unescape(first[0])
  {
    hide Escape, Unescape, Occurs, Extract;
    var h := i + |b.heading|;
    var e := h + |g.open| + |Escape(b.payload)|;
    BlockLayout(g, s, i, b, rest);
    OccursWithin(s, i, h, g.open);
    var extras, own := ExtractBlock(g, s, i, h, e);
    assert next == e + |g.close|;
    OnlyOne(first, extras, s[own..e], Extract(g, s, next));
    assert own != h + |g.open|;
    assert s[h - 1] == b.heading[|b.heading| - 1] == NEWLINE;
    OccursUnits(s, own - |g.open|, g.open);
    assert own <= h - 1;
    assert s[own..e][h - 1 - own] == NEWLINE;
    UnescapeKeepsBreak(s[own..e], 5);
    UnescapeIs(s[own..e]);
  }

  lemma UnescapeIs(s: Text)
    ensures Unescape(s) == UnescapeFrom(s, 5)
  {}

  lemma OnlyOne(first: seq<Text>, extras: seq<Text>, t: Text, rest: seq<Text>)
    requires |first| == 1 && first + rest == extras + ([t] + rest)
    ensures extras == [] && first[0] == t
  {
    assert |first + rest| == |extras| + 1 + |rest|;
    assert (first + rest)[0] == first[0] && (extras + ([t] + rest))[0] == t;
  }

  ghost predicate Unbroken(ts: seq<Text>) { forall k :: 0 <= k < |ts| ==> NEWLINE !in Unescape(ts[k]) }

  /** As many records as blocks, none with a line break: then no heading holds an opening tag. */
  lemma {:induction false} UnbrokenIsClean(g: Tags, s: Text, i: nat, blocks: seq<Block>, trailer: Text)
    requires Proper(g) && i <= |s| && s[i..] == Render(g, blocks, trailer) && !Contains(trailer, g.open)
    requires forall k :: 0 <= k < |blocks| ==> EndsLine(blocks[k].heading)
    requires |Extract(g, s, i)| == |blocks| && Unbroken(Extract(g, s, i))
    ensures Clean(g, blocks)
    decreases |blocks|
  {
    if blocks != [] {
      hide Extract, Render, Contains, Proper, EndsLine, Unbroken, Clean;
      var b, more := blocks[0], Render(g, blocks[1..], trailer);
      RenderStep(g, blocks, trailer);
      var first, next := OneBlock(g, s, i, b, more);
      RecordsOf(g, s, next, blocks[1..], trailer);
      var rest := Extract(g, s, next);
      UnbrokenParts(first, rest);
      CleanStep(g, blocks);
      if Contains(b.heading, g.open) { BlockBreaks(g, s, i, b, more, first, next); }
      UnbrokenIsClean(g, s, next, blocks[1..], trailer);
    }
  }

  lemma RenderStep(g: Tags, blocks: seq<Block>, trailer: Text)
    requires blocks != []
    ensures Render(g, blocks, trailer) ==
      blocks[0].heading + (g.open + (Escape(blocks[0].payload) + (g.close + Render(g, blocks[1..], trailer))))
  {}

  lemma CleanStep(g: Tags, blocks: seq<Block>)
    requires blocks != []
    ensures Clean(g, blocks) <==> !Contains(blocks[0].heading, g.open) && Clean(g, blocks[1..])
  {
    hide Contains;
    assert forall k :: 0 < k < |blocks| ==> blocks[k] == blocks[1..][k - 1];
  }

  lemma UnbrokenParts(first: seq<Text>, rest: seq<Text>)
    requires Unbroken(first + rest)
    ensures Unbroken(rest) && (first != [] ==> NEWLINE !in Unescape(first[0]))
  {
    hide Unescape;
    assert first != [] ==> first[0] == (first + rest)[0];
    forall k | 0 <= k < |rest| ensures NEWLINE !in Unescape(rest[k]) { assert rest[k] == (first + rest)[|first| + k]; }
  }

  lemma {:induction false} RecordsOf(g: Tags, s: Text, i: nat, blocks: seq<Block>, trailer: Text)
    requires Proper(g) && i <= |s| && s[i..] == Render(g, blocks, trailer) && !Contains(trailer, g.open)
    ensures |Extract(g, s, i)| >= |blocks|
    ensures UnescapeAll(Extract(g, s, i)) == Payloads(blocks) <==> Clean(g, blocks)
    decreases |blocks|
  {
    if blocks == [] {
      NoRecords(g, s, i, trailer);
    } else {
      hide Extract, Unescape, Escape, Contains;
      var first, next := OneBlock(g, s, i, blocks[0], Render(g, blocks[1..], trailer));
      RecordsOf(g, s, next, blocks[1..], trailer);
      var rest := Extract(g, s, next);
      CompareTails(first, rest, blocks);
      CleanStep(g, blocks);
    }
  }

  lemma NoRecords(g: Tags, s: Text, i: nat, trailer: Text)
    requires Proper(g) && i <= |s| && s[i..] == trailer && !Contains(trailer, g.open)
    ensures Extract(g, s, i) == []
  {
    assert s[i..|s|] == s[i..];
    OccursWithin(s, i, |s|, g.open);
    FindIsFirst(s, g.open, i);
  }

  lemma CompareTails(first: seq<Text>, rest: seq<Text>, blocks: seq<Block>)
    requires blocks != [] && |first| >= 1 && |rest| >= |blocks| - 1
    ensures UnescapeAll(first + rest) == Payloads(blocks) <==>
              |first| == 1 && Unescape(first[0]) == blocks[0].payload && UnescapeAll(rest) == Payloads(blocks[1..])
  {
    hide Unescape;
    var all := UnescapeAll(first + rest);
    if all == Payloads(blocks) {
      assert |first| + |rest| == |blocks|;
      assert all[0] == Unescape(first[0]);
      forall k | 0 <= k < |rest| ensures UnescapeAll(rest)[k] == Payloads(blocks[1..])[k] {
        assert all[k + 1] == Unescape(rest[k]);
      }
    }
    if |first| == 1 && Unescape(first[0]) == blocks[0].payload && UnescapeAll(rest) == Payloads(blocks[1..]) {
      forall k | 0 <= k < |all| ensures all[k] == Payloads(blocks)[k] {
        if k > 0 { assert UnescapeAll(rest)[k - 1] == Payloads(blocks[1..])[k - 1]; }
      }
    }
  }

  /**
   Extracting and unescaping the records of a rendered ledger returns exactly the payloads it was rendered
   from if and only if no heading contains the opening tag of a record.
   */
  lemma ExtractionReturnsPayloads(blocks: seq<Block>, trailer: Text)
    requires !Contains(trailer, OPEN)
    ensures UnescapeAll(Extract(LEDGER, Render(LEDGER, blocks, trailer), 0)) == Payloads(blocks) <==>
      Clean(LEDGER, blocks)
  {
    LedgerTagsAreProper();
    ExtractionReturns(LEDGER, blocks, trailer);
  }

  lemma ExtractionReturns(g: Tags, blocks: seq<Block>, trailer: Text)
    requires Proper(g) && !Contains(trailer, g.open)
    ensures UnescapeAll(Extract(g, Render(g, blocks, trailer), 0)) == Payloads(blocks) <==> Clean(g, blocks)
  {
    hide Render, Extract, UnescapeAll;
    var s := Render(g, blocks, trailer);
    assert s[0..] == s;
    RecordsOf(g, s, 0, blocks, trailer);
  }
}
