/** The record checks of the ledger validator, and which rendered ledgers pass them. */
module LedgerValidation {
  import opened Units
  import opened Decimal
  import opened Sorting
  import opened HtmlEscape
  import opened LedgerRecords
  import opened LedgerInventory
  import opened StableJson
  import opened LedgerRendering
  import G = JsonGrammar
  import JsonQuote

  // ---- record ids ----

  /** `id` */
  const ID: Text := [0x69, 0x64]

  /** The value of a member. */
  function Member(es: seq<Entry>, name: Text): Option<Json> {
    if es == [] then None
    else if es[|es| - 1].key == name then Some(es[|es| - 1].value)
    else Member(es[..|es| - 1], name)
  }

  /** The id of a parsed record: an object with a string under `id`. */
  function IdOf(v: Json): Option<Text> {
    if !v.Obj? then None
    else
      var id := Member(v.entries, ID);
      if id.Some? && id.value.Str? then Some(id.value.s) else None
  }

  /** What the host's parser makes of a text; a text it refuses gives nothing. */
  type Parser = Text -> Option<Json>

  function RecordId(parse: Parser, t: Text): Option<Text> { if parse(t).None? then None else IdOf(parse(t).value) }

  // ---- the checks ----

  /** Each text is a record with an id of its own, and the record of each item has the printed text. */
  ghost predicate RecordsAccepted(texts: seq<Text>, xs: seq<Review>, parse: Parser, rank: Collation) {
    && |texts| == |xs|
    && (forall k :: 0 <= k < |texts| ==> RecordId(parse, texts[k]).Some?)
    && (forall i, j :: 0 <= i < j < |texts| ==> RecordId(parse, texts[i]) != RecordId(parse, texts[j]))
    && (forall k :: 0 <= k < |xs| ==> Recorded(texts, xs[k], parse, rank))
  }

  /** Some text is the record with the id of the item, and it is the printed one. */
  ghost predicate Recorded(texts: seq<Text>, x: Review, parse: Parser, rank: Collation) {
    exists k :: 0 <= k < |texts| && RecordId(parse, texts[k]) == Some(x.item.id) && texts[k] == RecordText(x, rank)
  }

  /** The table of the records read so far. */
  ghost predicate Tabled(byId: map<Text, Text>, texts: seq<Text>, parse: Parser) {
    && (forall k :: 0 <= k < |texts| ==>
          var id := RecordId(parse, texts[k]); id.Some? && id.value in byId && byId[id.value] == texts[k])
    && (forall id :: id in byId ==> exists k :: 0 <= k < |texts| && RecordId(parse, texts[k]) == Some(id))
    && (forall i, j :: 0 <= i < j < |texts| ==> RecordId(parse, texts[i]) != RecordId(parse, texts[j]))
  }

  lemma TableStep(byId: map<Text, Text>, texts: seq<Text>, t: Text, parse: Parser)
    requires Tabled(byId, texts, parse) && RecordId(parse, t).Some? && RecordId(parse, t).value !in byId
    ensures Tabled(byId[RecordId(parse, t).value := t], texts + [t], parse)
  {
    hide RecordId;
    var id, all := RecordId(parse, t).value, texts + [t];
    var table := byId[id := t];
    forall name | name in table ensures exists k :: 0 <= k < |all| && RecordId(parse, all[k]) == Some(name) {
      if name == id {
        assert RecordId(parse, all[|texts|]) == Some(name);
      } else {
        var k :| 0 <= k < |texts| && RecordId(parse, texts[k]) == Some(name);
        assert RecordId(parse, all[k]) == Some(name);
      }
    }
  }

  method ValidateRecords(texts: seq<Text>, xs: seq<Review>, parse: Parser, rank: Collation) returns (ok: bool)
    ensures ok <==> RecordsAccepted(texts, xs, parse, rank)
  {
    hide RecordText, RecordId;
    if |texts| != |xs| { return false; }
    var byId: map<Text, Text> := map[];
    for k := 0 to |texts|
      invariant Tabled(byId, texts[..k], parse)
    {
      var id := RecordId(parse, texts[k]);
      if id.None? { return false; }
      if id.value in byId {
        var j :| 0 <= j < k && RecordId(parse, texts[..k][j]) == id;
        assert RecordId(parse, texts[j]) == RecordId(parse, texts[k]);
        return false;
      }
      TableStep(byId, texts[..k], texts[k], parse);
      assert texts[..k + 1] == texts[..k] + [texts[k]];
      byId := byId[id.value := texts[k]];
    }
    assert texts[..|texts|] == texts;
    for k := 0 to |xs|
      invariant forall j :: 0 <= j < k ==> Recorded(texts, xs[j], parse, rank)
    {
      LookedUp(byId, texts, xs[k], parse, rank);
      if xs[k].item.id !in byId || byId[xs[k].item.id] != RecordText(xs[k], rank) { return false; }
    }
    return true;
  }

  lemma LookedUp(byId: map<Text, Text>, texts: seq<Text>, x: Review, parse: Parser, rank: Collation)
    requires Tabled(byId, texts, parse)
    ensures Recorded(texts, x, parse, rank) <==> x.item.id in byId && byId[x.item.id] == RecordText(x, rank)
  {
    hide RecordText, RecordId;
    var id := x.item.id;
    if id in byId {
      var k :| 0 <= k < |texts| && RecordId(parse, texts[k]) == Some(id);
      assert byId[id] == texts[k];
    }
  }

  // ---- printed records ----

  /** The host's parser reads back what was printed, up to the order of members. */
  ghost predicate ReadsPrinted(parse: Parser) {
    forall v :: WellFormed(v) ==>
      parse(TextOf(v)).Some? && WellFormed(parse(TextOf(v)).value) && Same(v, parse(TextOf(v)).value)
  }

  /** The record is an object that names its item. */
  ghost predicate Names(x: Review) { WellFormed(x.record) && IdOf(x.record) == Some(x.item.id) }

  lemma {:induction false} MemberIs(es: seq<Entry>, name: Text, v: Json)
    requires DistinctKeys(es)
    ensures Member(es, name) == Some(v) <==> Entry(name, v) in es
    decreases |es|
  {
    if es != [] {
      var n := |es| - 1;
      MemberIs(es[..n], name, v);
      assert es == es[..n] + [es[n]];
      assert es[n].key == name ==> forall k :: 0 <= k < n ==> es[k].key != name;
    }
  }

  /** The order of members does not matter for the id. */
  lemma SameId(v: Json, w: Json, id: Text)
    requires WellFormed(v) && WellFormed(w) && Same(v, w) && IdOf(v) == Some(id)
    ensures IdOf(w) == Some(id)
  {
    hide Member;
    MemberIs(v.entries, ID, Str(id));
    var k :| 0 <= k < |v.entries| && v.entries[k] == Entry(ID, Str(id));
    assert SameIn(v.entries[k], w.entries);
    MemberIs(w.entries, ID, Str(id));
  }

  /** Sorting the members keeps the id. */
  lemma CanonKeepsId(v: Json, rank: Collation, id: Text)
    requires WellFormed(v) && IdOf(v) == Some(id)
    ensures IdOf(Canon(v, rank)) == Some(id)
  {
    hide Sort, Member;
    var es := v.entries;
    var ps := Pairs(es, rank);
    CanonObj(es, rank);
    CanonWellFormed(v, rank);
    SortPermutes(ps, ByKey(rank));
    MembersByMultiset(Sort(ps, ByKey(rank)), ps);
    MemberIs(es, ID, Str(id));
    var k :| 0 <= k < |es| && es[k] == Entry(ID, Str(id));
    assert ps[k] == Entry(ID, Canon(Str(id), rank));
    assert Canon(Str(id), rank) == Str(id);
    MemberIs(Canon(v, rank).entries, ID, Str(id));
  }

  lemma PrintedId(x: Review, parse: Parser, rank: Collation)
    requires Names(x) && ReadsPrinted(parse)
    ensures RecordId(parse, RecordText(x, rank)) == Some(x.item.id)
  {
    hide Canon, TextOf, IdOf, WellFormed, Same;
    var printed := Canon(x.record, rank);
    CanonKeepsId(x.record, rank, x.item.id);
    CanonWellFormed(x.record, rank);
    SameId(printed, parse(TextOf(printed)).value, x.item.id);
  }

  // ---- printed records hold no line break ----

  ghost predicate Printable(t: Text) { forall k :: 0 <= k < |t| ==> t[k] >= 0x20 }

  lemma PrintableAppend(a: Text, b: Text)
    requires Printable(a) && Printable(b)
    ensures Printable(a + b)
  {}

  lemma PartPrintable(p: G.Part)
    requires G.ValidPart(p)
    ensures Printable(G.PrintPart(p))
  {}

  lemma {:induction false} PartsPrintable(ps: seq<G.Part>)
    requires G.ValidParts(ps)
    ensures Printable(G.PrintParts(ps))
    decreases |ps|
  {
    hide G.PrintPart, G.ValidPart;
    if ps != [] {
      PartPrintable(ps[0]);
      PartsPrintable(ps[1..]);
    }
  }

  lemma QuotedPrintable(s: Text)
    ensures Printable(JsonQuote.Quoted(s))
  {
    hide G.PrintParts;
    JsonQuote.QuoteDecodes(s);
    PartsPrintable(JsonQuote.Quote(s));
  }

  lemma {:induction false} DigitsPrintable(n: nat)
    ensures Printable(Digits(n))
  {
    if n >= 10 { DigitsPrintable(n / 10); }
  }

  lemma {:induction false} TextPrintable(v: Json)
    ensures Printable(TextOf(v))
    decreases v, 0
  {
    hide Digits, JsonQuote.Quoted, ItemsText, EntriesText;
    match v {
      case Integer(n) => DigitsPrintable(if n < 0 then -n else n);
      case Str(s) => QuotedPrintable(s);
      case Arr(items) => if items != [] { ItemsPrintable(items); }
      case Obj(es) => if es != [] { EntriesPrintable(es); }
      case _ =>
    }
  }

  lemma {:induction false} ItemsPrintable(items: seq<Json>)
    requires items != []
    ensures Printable(ItemsText(items))
    decreases items, 0
  {
    hide TextOf;
    TextPrintable(items[0]);
    if |items| > 1 { ItemsPrintable(items[1..]); }
  }

  lemma {:induction false} EntriesPrintable(es: seq<Entry>)
    requires es != []
    ensures Printable(EntriesText(es))
    decreases es, 1
  {
    hide TextOf, JsonQuote.Quoted;
    QuotedPrintable(es[0].key);
    TextPrintable(es[0].value);
    var tail := if |es| == 1 then [G.RBRACE] else [G.COMMA] + EntriesText(es[1..]);
    if |es| > 1 { EntriesPrintable(es[1..]); }
    PrintableAppend(TextOf(es[0].value), tail);
    PrintableAppend([G.COLON], TextOf(es[0].value) + tail);
  }

  lemma RecordHasNoBreak(x: Review, rank: Collation)
    ensures NEWLINE !in RecordText(x, rank)
  {
    hide TextOf, Canon;
    TextPrintable(Canon(x.record, rank));
  }

  // ---- which rendered ledgers are accepted ----

  ghost predicate Reviews(xs: seq<Review>) {
    && (forall k :: 0 <= k < |xs| ==> Names(xs[k]) && LT !in xs[k].anchor)
    && (forall i, j :: 0 <= i < j < |xs| ==> xs[i].item.id != xs[j].item.id)
  }

  lemma PrintedAccepted(xs: seq<Review>, parse: Parser, rank: Collation)
    requires Reviews(xs) && ReadsPrinted(parse)
    ensures RecordsAccepted(RecordTexts(xs, rank), xs, parse, rank)
  {
    hide RecordText, RecordId, Names, ReadsPrinted;
    var texts := RecordTexts(xs, rank);
    forall k | 0 <= k < |xs| ensures RecordId(parse, texts[k]) == Some(xs[k].item.id) { PrintedId(xs[k], parse, rank); }
    forall k | 0 <= k < |xs| ensures Recorded(texts, xs[k], parse, rank) {
      assert RecordId(parse, texts[k]) == Some(xs[k].item.id) && texts[k] == RecordText(xs[k], rank);
    }
  }

  function RecordIds(texts: seq<Text>, parse: Parser): seq<Option<Text>> {
    seq(|texts|, k requires 0 <= k < |texts| => RecordId(parse, texts[k]))
  }

  function ItemIds(xs: seq<Review>): seq<Option<Text>> {
    seq(|xs|, k requires 0 <= k < |xs| => Some(xs[k].item.id))
  }

  /** Accepted texts are printed records, each of them. */
  lemma AcceptedArePrinted(texts: seq<Text>, xs: seq<Review>, parse: Parser, rank: Collation, k: nat)
    requires Reviews(xs) && RecordsAccepted(texts, xs, parse, rank) && k < |texts|
    ensures exists j :: 0 <= j < |xs| && texts[k] == RecordText(xs[j], rank)
  {
    hide RecordText, RecordId, Names;
    var a, b := ItemIds(xs), RecordIds(texts, parse);
    forall j | 0 <= j < |a| ensures a[j] in b {
      assert Recorded(texts, xs[j], parse, rank);
      var m :| 0 <= m < |texts| && RecordId(parse, texts[m]) == Some(xs[j].item.id);
      assert b[m] == a[j];
    }
    Rearranged(a, b);
    MembersByMultiset(a, b);
    assert b[k] in a;
    var j :| 0 <= j < |a| && a[j] == b[k];
    assert Recorded(texts, xs[j], parse, rank);
    var m :| 0 <= m < |texts| && RecordId(parse, texts[m]) == Some(xs[j].item.id)
      && texts[m] == RecordText(xs[j], rank);
    assert m == k;
  }

  lemma AcceptedAreUnbroken(g: Tags, ledger: Text, xs: seq<Review>, parse: Parser, rank: Collation)
    requires |g.open| > 0 && Reviews(xs) && RecordsAccepted(ExtractedTexts(g, ledger), xs, parse, rank)
    ensures |Extract(g, ledger, 0)| == |xs| && Unbroken(Extract(g, ledger, 0))
  {
    hide Extract, Unescape, RecordText, RecordId, Names;
    var ts, texts := Extract(g, ledger, 0), ExtractedTexts(g, ledger);
    forall k | 0 <= k < |ts| ensures NEWLINE !in Unescape(ts[k]) {
      AcceptedArePrinted(texts, xs, parse, rank, k);
      var j :| 0 <= j < |xs| && texts[k] == RecordText(xs[j], rank);
      RecordHasNoBreak(xs[j], rank);
      assert texts[k] == Unescape(ts[k]);
    }
  }

  lemma BlockCount(lead: seq<Text>, xs: seq<Review>, rank: Collation)
    ensures |Blocks(lead, xs, rank)| == |xs|
    decreases |xs|
  {
    hide Terminated, RecordText;
    if xs != [] { BlockCount([[]], xs[1..], rank); }
  }

  /**
   The checks accept the records of a rendered ledger if and only if neither its header nor any item id holds the
   opening tag of a record.
   */
  lemma RenderedIsAccepted(g: Tags, head: seq<Text>, xs: seq<Review>, parse: Parser, rank: Collation)
    requires Distinguished(g) && HasHead(head) && xs != [] && Reviews(xs) && ReadsPrinted(parse)
    ensures RecordsAccepted(ExtractedTexts(g, LedgerText(g, head, xs, rank)), xs, parse, rank) <==> TagFree(g, head, xs)
  {
    hide LedgerText, ExtractedTexts, RecordsAccepted, TagFree, Names, ReadsPrinted, RecordTexts;
    RecordsReadBack(g, head, xs, rank);
    PrintedAccepted(xs, parse, rank);
    if RecordsAccepted(ExtractedTexts(g, LedgerText(g, head, xs, rank)), xs, parse, rank) {
      AcceptedIsTagFree(g, head, xs, parse, rank);
    }
  }

  lemma AcceptedIsTagFree(g: Tags, head: seq<Text>, xs: seq<Review>, parse: Parser, rank: Collation)
    requires Distinguished(g) && HasHead(head) && xs != [] && Reviews(xs)
    requires RecordsAccepted(ExtractedTexts(g, LedgerText(g, head, xs, rank)), xs, parse, rank)
    ensures TagFree(g, head, xs)
  {
    hide LedgerText, ExtractedTexts, RecordsAccepted, TagFree, Names, Blocks, Render, Extract, Terminated, Led;
    hide Contains;
    var s, blocks := LedgerText(g, head, xs, rank), Blocks(head, xs, rank);
    LedgerLines(g, head, xs, rank);
    LinesAreBlocks(g, head, xs, rank);
    BlankIsClean(g);
    AcceptedAreUnbroken(g, s, xs, parse, rank);
    BlockHeadingsEnd(head, xs, rank);
    BlockCount(head, xs, rank);
    assert s[0..] == s;
    UnbrokenIsClean(g, s, 0, blocks, Trailer(head, xs));
    CleanIffTagFree(g, head, xs, rank);
  }
}
