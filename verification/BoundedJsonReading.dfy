/** What the text of a synthetic JSON body says, for every value the serialiser prints. */
module BoundedJsonReading {
  import opened Units
  import opened JsonQuote
  import opened BoundedJson
  import G = JsonGrammar
  import D = JsonDatum

  // ---- what a value says ----

  /** A boxed value says what it holds; an item that has no JSON form says null. */
  ghost function Meaning(v: JsValue): D.Datum
    decreases v, 0
  {
    match v
    case Omitted => D.Null
    case Null => D.Null
    case Bool(b) => D.Bool(b)
    case Number(text) => D.Number(text)
    case Str(s) => D.String(s)
    case Arr(items) => D.Array(Items(items))
    case Obj(props) => D.Object(Fields(props))
    case Boxed(BoolBox(b), _) => D.Bool(b)
    case Boxed(NumberBox(text), _) => D.Number(text)
    case Boxed(StringBox(s), _) => D.String(s)
  }

  ghost function Items(items: seq<JsValue>): seq<D.Datum>
    decreases items
  {
    if items == [] then [] else [Meaning(items[0])] + Items(items[1..])
  }

  /** The properties that have a JSON form. */
  ghost function Fields(props: seq<Property>): seq<D.Field>
    decreases props, 0
  {
    if props == [] then [] else
    (if props[0].value.Omitted? then [] else [FieldOf(props[0])]) + Fields(props[1..])
  }

  ghost function FieldOf(p: Property): D.Field
    decreases p, 1
  {
    D.Field(p.key, Meaning(p.value))
  }

  /** Numbers print as JSON numbers and objects have distinct property names, at every level that is printed. */
  ghost predicate Printable(v: JsValue) {
    match v
    case Number(text) => D.IsNumeral(text)
    case Boxed(inner, _) => inner.NumberBox? ==> D.IsNumeral(inner.text)
    case Arr(items) => forall i :: 0 <= i < |items| ==> Printable(items[i])
    case Obj(props) => DistinctKeys(props) && forall i :: 0 <= i < |props| ==> Printable(props[i].value)
    case _ => true
  }

  ghost predicate DistinctKeys(props: seq<Property>) {
    forall i, j :: 0 <= i < j < |props| ==> props[i].key != props[j].key
  }

  // ---- the text, from the front ----

  lemma Assoc(a: Text, b: Text, c: Text)
    ensures (a + b) + c == a + (b + c)
  {}

  /** One more text behind a list that starts with `a`. */
  lemma JoinBehind(a: Text, mid: Text, t: Text)
    requires a != []
    ensures var tail := Comma(mid) + mid; var whole := a + tail; var longer := mid + (Comma(mid) + t);
      t != [] ==> whole + (Comma(whole) + t) == a + (Comma(longer) + longer)
  {
    if mid == [] {
      D.Nothing(t);
      D.Nothing(a);
    } else if t != [] {
      Assoc(a, [G.COMMA] + mid, [G.COMMA] + t);
      Assoc([G.COMMA], mid, [G.COMMA] + t);
    }
  }

  lemma {:induction false} ElementsCons(items: seq<JsValue>)
    requires items != []
    ensures var rest := Elements(items[1..]); Elements(items) == Stringify(items[0]) + (Comma(rest) + rest)
    decreases |items|
  {
    hide Stringify;
    var n := |items| - 1;
    ValueFramed(items[n]);
    if n == 0 {
      assert items[..0] == [] && items[1..] == [];
      D.Nothing(Stringify(items[0]));
    } else {
      ElementsCons(items[..n]);
      assert items[..n][1..] == items[1..][..n - 1] && items[1..][n - 1] == items[n];
      ValueFramed(items[0]);
      JoinBehind(Stringify(items[0]), Elements(items[1..][..n - 1]), Stringify(items[n]));
    }
  }

  lemma PropertiesLast(front: seq<Property>, p: Property)
    ensures var before := Properties(front);
      Properties(front + [p]) == if p.value.Omitted? then before else before + (Comma(before) + PropertyText(p))
  {
    hide Stringify, PropertyText;
    assert (front + [p])[..|front|] == front;
  }

  lemma {:induction false} PropertiesCons(p: Property, props: seq<Property>)
    ensures var rest := Properties(props);
      Properties([p] + props) == if p.value.Omitted? then rest else PropertyText(p) + (Comma(rest) + rest)
    decreases |props|
  {
    hide Stringify, PropertyText, Properties;
    PropertyLength(p);
    if props == [] {
      EmptyLengths();
      PropertiesLast([], p);
      assert [p] + props == [] + [p];
      D.Nothing(PropertyText(p));
    } else {
      var front, last := props[..|props| - 1], props[|props| - 1];
      PropertyLength(last);
      PropertiesCons(p, front);
      PropertiesLast(front, last);
      PropertiesLast([p] + front, last);
      assert props == front + [last] && [p] + props == ([p] + front) + [last];
      JoinBehind(PropertyText(p), Properties(front), PropertyText(last));
    }
  }

  // ---- the text is the one of the data ----

  lemma {:induction false} StringifySpells(v: JsValue)
    ensures Stringify(v) == D.Spelled(Meaning(v))
    decreases v, 0
  {
    hide D.Spelled, Elements, Properties, Quoted;
    match v {
      case Bool(b) => D.SpelledScalars(b, [], []);
      case Number(text) => D.SpelledScalars(false, text, []);
      case Str(s) => D.SpelledScalars(false, [], s);
      case Arr(items) =>
        D.SpelledContainers(Items(items), []);
        ElementsSpell(items);
      case Obj(props) =>
        D.SpelledContainers([], Fields(props));
        PropertiesSpell(props);
      case Boxed(BoolBox(b), _) => D.SpelledScalars(b, [], []);
      case Boxed(NumberBox(text), _) => D.SpelledScalars(false, text, []);
      case Boxed(StringBox(s), _) => D.SpelledScalars(false, [], s);
      case _ => D.SpelledScalars(false, [], []);
    }
  }

  lemma {:induction false} ElementsSpell(items: seq<JsValue>)
    ensures Elements(items) + [G.RBRACKET] == D.SpelledItems(Items(items))
    decreases items
  {
    hide Stringify, D.Spelled, Elements, Meaning, D.SpelledItems;
    if items == [] {
      EmptyBodies();
    } else {
      var ds, rest := Items(items), Elements(items[1..]);
      ElementsCons(items);
      StringifySpells(items[0]);
      ElementsSpell(items[1..]);
      D.ItemsSpelled(ds);
      assert ds[1..] == Items(items[1..]);
      ElementsFramed(items[1..]);
      Assoc(Stringify(items[0]), Comma(rest) + rest, [G.RBRACKET]);
      Assoc(Comma(rest), rest, [G.RBRACKET]);
      assert |ds| == 1 <==> items[1..] == [];
    }
  }

  lemma EmptyBodies()
    ensures Elements([]) + [G.RBRACKET] == D.SpelledItems([])
    ensures Properties([]) + [G.RBRACE] == D.SpelledMembers([])
  {}

  lemma {:induction false} NoFields(props: seq<Property>)
    ensures Properties(props) == [] <==> Fields(props) == []
    decreases |props|
  {
    hide Stringify, Meaning, PropertyText, Properties;
    if props == [] {
      EmptyLengths();
    } else {
      assert props == [props[0]] + props[1..];
      PropertiesCons(props[0], props[1..]);
      PropertyLength(props[0]);
      NoFields(props[1..]);
    }
  }

  lemma {:induction false} PropertiesSpell(props: seq<Property>)
    ensures Properties(props) + [G.RBRACE] == D.SpelledMembers(Fields(props))
    decreases props, 1
  {
    hide Stringify, D.Spelled, Properties, Meaning, D.SpelledMembers, PropertyText, Quoted;
    if props == [] {
      EmptyBodies();
    } else {
      var fs, rest := Fields(props), Properties(props[1..]);
      assert props == [props[0]] + props[1..];
      PropertiesCons(props[0], props[1..]);
      PropertiesSpell(props[1..]);
      if props[0].value.Omitted? {
        assert fs == Fields(props[1..]);
      } else {
        PropertySpells(props[0]);
        NoFields(props[1..]);
        D.MembersSpelled(fs);
        assert fs[1..] == Fields(props[1..]) && fs[0] == FieldOf(props[0]);
        Assoc(PropertyText(props[0]), Comma(rest) + rest, [G.RBRACE]);
        Assoc(Comma(rest), rest, [G.RBRACE]);
      }
    }
  }

  lemma {:induction false} PropertySpells(p: Property)
    ensures PropertyText(p) == Quoted(p.key) + ([G.COLON] + D.Spelled(Meaning(p.value)))
    decreases p, 1
  {
    hide Stringify, D.Spelled, Meaning, Quoted;
    StringifySpells(p.value);
  }

  // ---- the data are well formed ----

  lemma {:induction false} MeaningWellFormed(v: JsValue)
    requires Printable(v)
    ensures D.WellFormed(Meaning(v))
    decreases v, 0
  {
    hide Items, Fields, D.IsNumeral;
    match v {
      case Arr(items) => ItemsWellFormed(items);
      case Obj(props) => FieldsWellFormed(props);
      case _ =>
    }
  }

  lemma {:induction false} ItemsWellFormed(items: seq<JsValue>)
    requires forall i :: 0 <= i < |items| ==> Printable(items[i])
    ensures forall i :: 0 <= i < |Items(items)| ==> D.WellFormed(Items(items)[i])
    decreases items
  {
    hide Meaning, Printable, D.WellFormed;
    if items != [] {
      MeaningWellFormed(items[0]);
      ItemsWellFormed(items[1..]);
    }
  }

  lemma {:induction false} FieldsWellFormed(props: seq<Property>)
    requires DistinctKeys(props) && forall i :: 0 <= i < |props| ==> Printable(props[i].value)
    ensures D.DistinctNames(Fields(props))
    ensures forall i :: 0 <= i < |Fields(props)| ==> D.WellFormed(Fields(props)[i].value)
    decreases props, 1
  {
    hide Meaning, Printable, D.WellFormed;
    if props != [] {
      MeaningWellFormed(props[0].value);
      FieldsWellFormed(props[1..]);
      forall i | 0 <= i < |Fields(props[1..])| ensures Fields(props[1..])[i].name != props[0].key {
        var k := FieldIsProperty(props[1..], i);
      }
    }
  }

  lemma {:induction false} FieldIsProperty(props: seq<Property>, i: nat) returns (k: nat)
    requires i < |Fields(props)|
    ensures k < |props| && !props[k].value.Omitted? && Fields(props)[i] == FieldOf(props[k])
    decreases |props|
  {
    hide Meaning;
    if props[0].value.Omitted? {
      k := FieldIsProperty(props[1..], i);
      k := k + 1;
    } else if i == 0 {
      k := 0;
    } else {
      k := FieldIsProperty(props[1..], i - 1);
      k := k + 1;
    }
  }

  // ---- the result ----

  /** The printed text is JSON, and what it says is the value. */
  lemma StringifySays(v: JsValue)
    requires Printable(v)
    ensures D.Says(Stringify(v), Meaning(v))
  {
    hide D.Says, Stringify, Meaning, D.Spelled, Printable, D.WellFormed;
    MeaningWellFormed(v);
    StringifySpells(v);
    D.SpelledSays(Meaning(v));
  }
}
