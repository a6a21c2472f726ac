/**
 Printing a synthetic JSON body under a byte limit. The size is estimated by walking the value, and
 the estimate must equal the UTF-8 length of the text the host would print.
 */
module BoundedJson {
  import opened Units
  import opened JsonGrammar
  import opened JsonQuote

  /** What the host prints for a number: ASCII, never empty. */
  type Numeral = t: Text | |t| > 0 && forall k :: 0 <= k < |t| ==> t[k] < 0x80 witness [ZERO]

  /**
   A host value without cycles, `toJSON` or bigint. `Omitted` is undefined, a function or a symbol; `Boxed` is an object
   around a primitive value, with the properties it lists.
   */
  datatype JsValue =
    | Omitted
    | Null
    | Bool(b: bool)
    | Number(text: Numeral)
    | Str(s: Text)
    | Arr(items: seq<JsValue>)
    | Obj(props: seq<Property>)
    | Boxed(inner: Primitive, props: seq<Property>)

  datatype Primitive = BoolBox(b: bool) | NumberBox(text: Numeral) | StringBox(s: Text)

  datatype Property = Property(key: Text, value: JsValue)

  // ---- the host's text (ECMA-262 section 25.5.2) ----

  function PrimitiveText(p: Primitive): Text {
    match p
    case BoolBox(b) => if b then TRUE else FALSE
    case NumberBox(text) => text
    case StringBox(s) => Quoted(s)
  }

  function Stringify(v: JsValue): Text
    decreases v, 0
  {
    match v
    case Omitted => NULL
    case Null => NULL
    case Bool(b) => if b then TRUE else FALSE
    case Number(text) => text
    case Str(s) => Quoted(s)
    case Arr(items) => [LBRACKET] + (Elements(items) + [RBRACKET])
    case Obj(props) => [LBRACE] + (Properties(props) + [RBRACE])
    case Boxed(inner, _) => PrimitiveText(inner)
  }

  function Comma(t: Text): Text { if t == [] then [] else [COMMA] }

  function Elements(items: seq<JsValue>): Text
    decreases items
  {
    if items == [] then [] else
    var n := |items| - 1;
    var before := Elements(items[..n]);
    before + (Comma(before) + Stringify(items[n]))
  }

  function PropertyText(p: Property): Text
    decreases p, 1
  {
    Quoted(p.key) + ([COLON] + Stringify(p.value))
  }

  function Properties(props: seq<Property>): Text
    decreases props
  {
    if props == [] then [] else
    var n := |props| - 1;
    var before := Properties(props[..n]);
    if props[n].value.Omitted? then before else before + (Comma(before) + PropertyText(props[n]))
  }

  // ---- its length, piece by piece ----

  /** Starts and ends with an ASCII unit, so its seams with other such texts are clean. */
  ghost predicate Framed(t: Text) { |t| > 0 && t[0] < 0x80 && t[|t| - 1] < 0x80 }

  lemma FramedAppend(a: Text, b: Text)
    requires (a == [] || Framed(a)) && (b == [] || Framed(b))
    ensures Utf8Length(a + b) == Utf8Length(a) + Utf8Length(b) && (a + b == [] || Framed(a + b))
  {
    Utf8Append(a, b);
  }

  lemma {:induction false} PartsEnd(ps: seq<Part>)
    ensures |PrintParts(ps)| > 0 && PrintParts(ps)[|PrintParts(ps)| - 1] == QUOTE
    decreases |ps|
  {
    if ps != [] { PartsEnd(ps[1..]); }
  }

  lemma QuotedFramed(s: Text)
    ensures Framed(Quoted(s))
  {
    PartsEnd(Quote(s));
  }

  lemma {:induction false} ValueFramed(v: JsValue)
    ensures Framed(Stringify(v))
  {
    match v
    case Str(s) => QuotedFramed(s);
    case Boxed(inner, _) => if inner.StringBox? { QuotedFramed(inner.s); }
    case _ =>
  }

  /** A container's text is its brackets around its contents. */
  lemma BracketLength(open: Unit, body: Text, close: Unit)
    requires open < 0x80 && close < 0x80 && (body == [] || Framed(body))
    ensures Utf8Length([open] + (body + [close])) == 2 + Utf8Length(body)
  {
    FramedAppend(body, [close]);
    FramedAppend([open], body + [close]);
  }

  lemma JoinLength(before: Text, t: Text)
    requires (before == [] || Framed(before)) && Framed(t)
    ensures var sep := if before == [] then 0 else 1;
            Utf8Length(before + (Comma(before) + t)) == Utf8Length(before) + sep + Utf8Length(t)
    ensures Framed(before + (Comma(before) + t))
  {
    FramedAppend(Comma(before), t);
    FramedAppend(before, Comma(before) + t);
  }

  lemma PropertyLength(p: Property)
    ensures Framed(PropertyText(p))
    ensures Utf8Length(PropertyText(p)) == Utf8Length(Quoted(p.key)) + 1 + Utf8Length(Stringify(p.value))
  {
    hide Quoted, Stringify;
    QuotedFramed(p.key);
    ValueFramed(p.value);
    FramedAppend([COLON], Stringify(p.value));
    FramedAppend(Quoted(p.key), [COLON] + Stringify(p.value));
  }

  lemma {:induction false} ElementsFramed(items: seq<JsValue>)
    ensures if items == [] then Elements(items) == [] else Framed(Elements(items))
    decreases |items|
  {
    hide Stringify;
    if items != [] {
      var n := |items| - 1;
      ElementsFramed(items[..n]);
      ValueFramed(items[n]);
      JoinLength(Elements(items[..n]), Stringify(items[n]));
    }
  }

  lemma ElementsStep(items: seq<JsValue>, n: nat)
    requires n < |items|
    ensures Utf8Length(Elements(items[..n + 1])) ==
              Utf8Length(Elements(items[..n])) + (if n > 0 then 1 else 0) + Utf8Length(Stringify(items[n]))
  {
    hide Stringify;
    assert items[..n + 1][..n] == items[..n];
    ElementsFramed(items[..n]);
    ValueFramed(items[n]);
    JoinLength(Elements(items[..n]), Stringify(items[n]));
  }

  lemma {:induction false} ElementsGrow(items: seq<JsValue>, n: nat)
    requires n <= |items|
    ensures Utf8Length(Elements(items[..n])) <= Utf8Length(Elements(items))
    decreases |items| - n
  {
    hide Elements;
    if n == |items| {
      assert items[..n] == items;
    } else {
      ElementsStep(items, n);
      ElementsGrow(items, n + 1);
    }
  }

  lemma {:induction false} PropertiesFramed(props: seq<Property>)
    ensures Properties(props) == [] || Framed(Properties(props))
    decreases |props|
  {
    hide Stringify, PropertyText;
    if props != [] {
      var n := |props| - 1;
      PropertiesFramed(props[..n]);
      PropertyLength(props[n]);
      JoinLength(Properties(props[..n]), PropertyText(props[n]));
    }
  }

  lemma PropertiesStep(props: seq<Property>, n: nat)
    requires n < |props|
    ensures var before := Properties(props[..n]);
            var sep := if before == [] then 0 else 1;
            if props[n].value.Omitted? then Properties(props[..n + 1]) == before
            else
              && Properties(props[..n + 1]) != []
              && Utf8Length(Properties(props[..n + 1])) ==
                 Utf8Length(before) + sep + Utf8Length(Quoted(props[n].key)) + 1 + Utf8Length(Stringify(props[n].value))
  {
    hide Stringify, PropertyText;
    assert props[..n + 1][..n] == props[..n];
    PropertiesFramed(props[..n]);
    PropertyLength(props[n]);
    JoinLength(Properties(props[..n]), PropertyText(props[n]));
  }

  lemma {:induction false} PropertiesGrow(props: seq<Property>, n: nat)
    requires n <= |props|
    ensures Utf8Length(Properties(props[..n])) <= Utf8Length(Properties(props))
    decreases |props| - n
  {
    hide Properties;
    if n == |props| {
      assert props[..n] == props;
    } else {
      PropertiesStep(props, n);
      PropertiesGrow(props, n + 1);
    }
  }

  // ---- what the walk sees ----

  /** The walk takes a boxed value for a plain object. */
  function Walk(v: JsValue): JsValue
    decreases v
  {
    match v
    case Arr(items) => Arr(seq(|items|, i requires 0 <= i < |items| => Walk(items[i])))
    case Obj(props) =>
      Obj(seq(|props|, i requires 0 <= i < |props| => Property(props[i].key, Walk(props[i].value))))
    case Boxed(_, props) =>
      Obj(seq(|props|, i requires 0 <= i < |props| => Property(props[i].key, Walk(props[i].value))))
    case _ => v
  }

  function WalkItems(items: seq<JsValue>): seq<JsValue> {
    seq(|items|, i requires 0 <= i < |items| => Walk(items[i]))
  }

  function WalkProps(props: seq<Property>): seq<Property> {
    seq(|props|, i requires 0 <= i < |props| => Property(props[i].key, Walk(props[i].value)))
  }

  lemma WalkIs(v: JsValue)
    ensures v.Arr? ==> Walk(v) == Arr(WalkItems(v.items))
    ensures v.Obj? || v.Boxed? ==> Walk(v) == Obj(WalkProps(v.props))
    ensures !IsContainer(v) ==> Walk(v) == v
    ensures Walk(v).Omitted? <==> v.Omitted?
  {
    match v
    case Arr(items) => assert seq(|items|, i requires 0 <= i < |items| => Walk(items[i])) == WalkItems(items);
    case Obj(props) =>
      assert seq(|props|, i requires 0 <= i < |props| => Property(props[i].key, Walk(props[i].value))) ==
        WalkProps(props);
    case Boxed(_, props) =>
      assert seq(|props|, i requires 0 <= i < |props| => Property(props[i].key, Walk(props[i].value))) ==
        WalkProps(props);
    case _ =>
  }

  /** The size the walk arrives at. */
  ghost function Measured(v: JsValue): nat { Utf8Length(Stringify(Walk(v))) }

  // ---- the estimator ----

  datatype Estimate = Size(bytes: nat) | TooLarge

  predicate IsContainer(v: JsValue) { v.Arr? || v.Obj? || v.Boxed? }

  /**
   The walk returns the UTF-8 length of the text of what it sees, except that a container longer than the limit raises
   the size error instead.
   */
  method EstimateSize(v: JsValue, limit: int) returns (r: Estimate)
    requires !v.Omitted?
    ensures r == if IsContainer(v) && Measured(v) > limit then TooLarge else Size(Measured(v))
    decreases v, 1
  {
    hide Walk, Stringify, Utf8Length;
    WalkIs(v);
    match v
    case Arr(_) => r := EstimateArray(v, limit);
    case Obj(_) => r := EstimateObject(v, limit);
    case Boxed(_, _) => r := EstimateObject(v, limit);
    case _ => r := Size(Utf8Length(Stringify(v)));
  }

  lemma ArrayLength(items: seq<JsValue>)
    ensures Utf8Length(Stringify(Arr(items))) == 2 + Utf8Length(Elements(items))
  {
    hide Elements, Utf8Length;
    ElementsFramed(items);
    BracketLength(LBRACKET, Elements(items), RBRACKET);
  }

  lemma ObjectLength(props: seq<Property>)
    ensures Utf8Length(Stringify(Obj(props))) == 2 + Utf8Length(Properties(props))
  {
    hide Properties, Utf8Length;
    PropertiesFramed(props);
    BracketLength(LBRACE, Properties(props), RBRACE);
  }

  method EstimateArray(v: JsValue, limit: int) returns (r: Estimate)
    requires v.Arr?
    ensures r == if Measured(v) > limit then TooLarge else Size(Measured(v))
    decreases v, 0
  {
    hide Elements, Utf8Length, Stringify, Walk;
    var items := v.items;
    ghost var seen := WalkItems(items);
    WalkIs(v);
    ArrayLength(seen);
    var total: nat := 2;
    assert Utf8Length(Elements(seen[..0])) == 0 by { EmptyLengths(); assert seen[..0] == []; }
    for index := 0 to |items|
      invariant total == 2 + Utf8Length(Elements(seen[..index]))
    {
      ElementsStep(seen, index);
      ElementsGrow(seen, index + 1);
      if index > 0 {
        if 1 > limit - total { return TooLarge; }
        total := total + 1;
      }
      var item := items[index];
      WalkIs(item);
      var size: nat := 4;
      if !item.Omitted? {
        var estimated := EstimateSize(item, limit);
        if estimated.TooLarge? { return TooLarge; }
        size := estimated.bytes;
      }
      NullLength(seen[index]);
      if size > limit - total { return TooLarge; }
      total := total + size;
    }
    assert seen[..|items|] == seen;
    r := if total > limit then TooLarge else Size(total);
  }

  method EstimateObject(v: JsValue, limit: int) returns (r: Estimate)
    requires v.Obj? || v.Boxed?
    ensures r == if Measured(v) > limit then TooLarge else Size(Measured(v))
    decreases v, 0
  {
    hide Properties, Utf8Length, Stringify, Walk;
    var props := v.props;
    ghost var seen := WalkProps(props);
    WalkIs(v);
    ObjectLength(seen);
    var total: nat := 2;
    var properties := 0;
    assert Properties(seen[..0]) == [] && Utf8Length([]) == 0 by { EmptyLengths(); assert seen[..0] == []; }
    for index := 0 to |props|
      invariant total == 2 + Utf8Length(Properties(seen[..index]))
      invariant properties >= 0 && (properties > 0 <==> Properties(seen[..index]) != [])
    {
      PropertiesStep(seen, index);
      PropertiesGrow(seen, index + 1);
      var p := props[index];
      WalkIs(p.value);
      if p.value.Omitted? { continue; }
      var estimated := EstimateSize(p.value, limit);
      if estimated.TooLarge? { return TooLarge; }
      if properties > 0 {
        if 1 > limit - total { return TooLarge; }
        total := total + 1;
      }
      var name := Utf8Length(Quoted(p.key));
      if name > limit - total { return TooLarge; }
      total := total + name;
      if 1 > limit - total { return TooLarge; }
      total := total + 1;
      if estimated.bytes > limit - total { return TooLarge; }
      total := total + estimated.bytes;
      properties := properties + 1;
    }
    assert seen[..|props|] == seen;
    r := if total > limit then TooLarge else Size(total);
  }

  lemma EmptyLengths()
    ensures Elements([]) == [] && Properties([]) == [] && Utf8Length([]) == 0
  {}

  lemma NullLength(v: JsValue)
    ensures v.Omitted? ==> Utf8Length(Stringify(v)) == 4
  {
    if v.Omitted? {
      assert Utf8Length(NULL[3..]) == 1;
      assert NULL[1..][1..] == NULL[2..] && NULL[2..][1..] == NULL[3..];
    }
  }

  // ---- the serialiser ----

  datatype Outcome = Serialized(text: Text) | SizeError | TypeError

  /** The UTF-8 length of the text the host prints. */
  ghost function Printed(v: JsValue): nat { Utf8Length(Stringify(v)) }

  /** The size error is raised by the walk, or by the last check on the printed text. */
  method SerializeBoundedJson(v: JsValue, limit: int) returns (r: Outcome)
    ensures r == if v.Omitted? then TypeError
                 else if Measured(v) > limit || Printed(v) > limit then SizeError
                 else Serialized(Stringify(v))
  {
    hide Walk, Stringify, Utf8Length;
    if v.Omitted? { return TypeError; }
    var total := EstimateSize(v, limit);
    if total.TooLarge? || total.bytes > limit { return SizeError; }
    var serialized := Stringify(v);
    if Utf8Length(serialized) > limit { return SizeError; }
    r := Serialized(serialized);
  }

  // ---- when the estimate is exact ----

  /** Every boxed value inside has the size of the object it is taken for. */
  ghost predicate BoxesAgree(v: JsValue) {
    match v
    case Arr(items) => forall i :: 0 <= i < |items| ==> BoxesAgree(items[i])
    case Obj(props) => forall i :: 0 <= i < |props| ==> BoxesAgree(props[i].value)
    case Boxed(_, _) => Measured(v) == Printed(v)
    case _ => true
  }

  /** The estimate is the printed length if the boxed values agree, in particular if there are none. */
  lemma {:induction false} AgreeingSizes(v: JsValue)
    requires BoxesAgree(v)
    ensures Measured(v) == Printed(v)
    decreases v, 0
  {
    hide Utf8Length, Stringify, Walk;
    WalkIs(v);
    match v {
      case Arr(items) =>
        AgreeingItems(v, |items|);
        ArrayLength(items);
        ArrayLength(WalkItems(items));
        assert items[..|items|] == items && WalkItems(items)[..|items|] == WalkItems(items);
      case Obj(props) =>
        AgreeingProps(v, |props|);
        ObjectLength(props);
        ObjectLength(WalkProps(props));
        assert props[..|props|] == props && WalkProps(props)[..|props|] == WalkProps(props);
      case _ =>
    }
  }

  lemma {:induction false} AgreeingItems(v: JsValue, n: nat)
    requires v.Arr? && BoxesAgree(v) && n <= |v.items|
    ensures Utf8Length(Elements(WalkItems(v.items)[..n])) == Utf8Length(Elements(v.items[..n]))
    decreases v, 0, n
  {
    hide Utf8Length, Stringify, Walk, Elements;
    var items, seen := v.items, WalkItems(v.items);
    if n == 0 {
      assert items[..0] == [] && seen[..0] == [];
    } else {
      AgreeingItems(v, n - 1);
      ElementsStep(items, n - 1);
      ElementsStep(seen, n - 1);
      AgreeingSizes(items[n - 1]);
    }
  }

  lemma {:induction false} AgreeingProps(v: JsValue, n: nat)
    requires v.Obj? && BoxesAgree(v) && n <= |v.props|
    ensures Utf8Length(Properties(WalkProps(v.props)[..n])) == Utf8Length(Properties(v.props[..n]))
    ensures Properties(WalkProps(v.props)[..n]) == [] <==> Properties(v.props[..n]) == []
    decreases v, 0, n
  {
    hide Utf8Length, Stringify, Walk, Properties;
    var props, seen := v.props, WalkProps(v.props);
    if n == 0 {
      assert props[..0] == [] && seen[..0] == [];
    } else {
      AgreeingProps(v, n - 1);
      PropertiesStep(props, n - 1);
      PropertiesStep(seen, n - 1);
      WalkIs(props[n - 1].value);
      AgreeingSizes(props[n - 1].value);
    }
  }

  ghost predicate Exact(v: JsValue, limit: int) { Measured(v) > limit || Printed(v) > limit <==> Printed(v) > limit }

  ghost predicate LastCheckFires(v: JsValue, limit: int) { Measured(v) <= limit < Printed(v) }

  /** The size error is exact at every limit if and only if the walk never counts more than is printed. */
  lemma ExactEverywhere(v: JsValue)
    ensures (forall limit :: Exact(v, limit)) <==> Measured(v) <= Printed(v)
    ensures (forall limit :: !LastCheckFires(v, limit)) <==> Printed(v) <= Measured(v)
  {
    hide Utf8Length, Stringify, Walk;
    assert Exact(v, Printed(v)) ==> Measured(v) <= Printed(v);
    assert !LastCheckFires(v, Measured(v)) ==> Printed(v) <= Measured(v);
  }

  /** Without disagreeing boxed values the size error is exact and the last check never fires, at any limit. */
  lemma AgreeingIsExact(v: JsValue, limit: int)
    requires BoxesAgree(v)
    ensures Exact(v, limit) && !LastCheckFires(v, limit)
  {
    hide Utf8Length, Stringify, Walk;
    AgreeingSizes(v);
  }

  /** A boxed `false` is walked as two bytes and printed as five. */
  lemma BoxedFalse()
    ensures var v := Boxed(BoolBox(false), []); Measured(v) == 2 && Printed(v) == 5 && LastCheckFires(v, 3)
  {
    var v := Boxed(BoolBox(false), []);
    WalkIs(v);
    assert WalkProps([]) == [];
    ObjectLength([]);
    EmptyLengths();
    FalseLength();
  }

  lemma FalseLength()
    ensures Utf8Length(FALSE) == 5
  {
    assert FALSE[1..][1..] == FALSE[2..] && FALSE[2..][1..] == FALSE[3..] && FALSE[3..][1..] == FALSE[4..];
    assert Utf8Length(FALSE[4..]) == 1;
    assert Utf8Length(FALSE[3..]) == 2;
    assert Utf8Length(FALSE[2..]) == 3;
  }

  /** A letter as the property a boxed text has at a position. */
  function Letter(k: nat, c: Unit): Property
    requires k < 10
  {
    Property([ZERO + k], JsValue.Str([c]))
  }

  /** Two letters and their boxed text: the walk counts each letter as a property of its own. */
  lemma BoxedText(a: Unit, b: Unit)
    requires 0x61 <= a <= 0x7a && 0x61 <= b <= 0x7a
    ensures var v := Boxed(StringBox([a, b]), [Letter(0, a), Letter(1, b)]);
      Printed(v) == 4 && Measured(v) == 17 && !Exact(v, 4)
  {
    hide Walk, Stringify, Utf8Length, Quoted, Properties;
    var props := [Letter(0, a), Letter(1, b)];
    var v := Boxed(StringBox([a, b]), props);
    WalkIs(v);
    WalkIs(props[0].value);
    WalkIs(props[1].value);
    assert WalkProps(props) == props;
    TwoTexts(props[0], props[1]);
    TextOfStrings([a, b], props);
    LetterLength([a, b]);
    LetterLength([a]);
    LetterLength([b]);
    LetterLength([ZERO]);
    LetterLength([ZERO + 1]);
  }

  lemma TextOfStrings(s: Text, props: seq<Property>)
    ensures Stringify(Boxed(StringBox(s), props)) == Quoted(s)
  {}

  lemma TwoTexts(p: Property, q: Property)
    requires p.value.Str? && q.value.Str?
    ensures Utf8Length(Stringify(Obj([p, q]))) == 5 + Utf8Length(Quoted(p.key)) + Utf8Length(Quoted(p.value.s))
      + Utf8Length(Quoted(q.key)) + Utf8Length(Quoted(q.value.s))
  {
    hide Utf8Length, Quoted, Properties;
    var props := [p, q];
    ObjectLength(props);
    EmptyLengths();
    assert props[..0] == [] && props[..2] == props;
    PropertiesStep(props, 0);
    PropertiesStep(props, 1);
  }

  /** Letters and digits are quoted as themselves. */
  lemma {:induction false} LetterLength(s: Text)
    requires forall k :: 0 <= k < |s| ==> 0x30 <= s[k] <= 0x39 || 0x61 <= s[k] <= 0x7a
    ensures Utf8Length(Quoted(s)) == |s| + 2
  {
    LetterParts(s);
    assert Quoted(s)[1..] == PrintParts(Quote(s));
  }

  lemma {:induction false} LetterParts(s: Text)
    requires forall k :: 0 <= k < |s| ==> 0x30 <= s[k] <= 0x39 || 0x61 <= s[k] <= 0x7a
    ensures Utf8Length(PrintParts(Quote(s))) == |s| + 1
    decreases |s|
  {
    if s == [] {
      assert PrintParts([]) == [QUOTE] && [QUOTE][1..] == [];
    } else {
      LetterParts(s[1..]);
      var tail := PrintParts(Quote(s[1..]));
      assert Quote(s) == [Plain(s[0])] + Quote(s[1..]);
      assert Quote(s)[1..] == Quote(s[1..]);
      assert PrintParts(Quote(s)) == [s[0]] + tail;
      assert ([s[0]] + tail)[1..] == tail;
    }
  }
}
