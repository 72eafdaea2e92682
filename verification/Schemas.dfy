/** The JSON Schema vocabulary of the pinned interaction schemas, and its interpreter. */
module Schemas {
  import opened Options
  import opened Counting

  datatype Value =
    | Null
    | Bool(on: bool)
    | Number(n: real)
    | NotFinite
    | Text(text: string)
    | Array(items: seq<Value>)
    | Object(fields: map<string, Value>)

  datatype Kind = AnyKind | ObjectKind | StringKind | ArrayKind | BooleanKind | NumberKind | IntegerKind

  /** A decoded schema; `closed` is additionalProperties set to false. */
  datatype Schema = Schema(
    kind: Kind, anyOf: Variants, oneOf: Variants, constant: Option<Value>, choices: Option<seq<Value>>,
    required: Option<seq<string>>, properties: map<string, Schema>, closed: bool, minLength: Option<int>,
    pattern: Option<string>, items: Option<Schema>, minimum: Option<real>, maximum: Option<real>)

  datatype Variants = Absent | Among(list: seq<Schema>)

  /** Whether a pattern is found in a text. */
  type Matcher = (string, string) -> bool

  predicate HasAll(v: Value, required: seq<string>) {
    v.Object? && forall k | 0 <= k < |required| :: required[k] in v.fields
  }

  predicate StringOk(m: Matcher, s: Schema, v: Value) {
    && v.Text? && (s.minLength.Some? ==> |v.text| >= s.minLength.value)
    && (s.pattern.Some? ==> m(s.pattern.value, v.text))
  }

  predicate NumberOk(s: Schema, v: Value) {
    && v.Number? && (s.kind.IntegerKind? ==> v.n.Floor as real == v.n)
    && (s.minimum.Some? ==> v.n >= s.minimum.value) && (s.maximum.Some? ==> v.n <= s.maximum.value)
  }

  /** Every field that the schema knows is as it says, and a closed schema knows all. */
  ghost predicate ObjectOk(m: Matcher, s: Schema, v: Value)
    decreases s, 1
  {
    v.Object? && forall key | key in v.fields ::
      if key in s.properties then Accepts(m, s.properties[key], v.fields[key]) else !s.closed
  }

  ghost predicate KindOk(m: Matcher, s: Schema, v: Value)
    decreases s, 2
  {
    match s.kind
    case ObjectKind => ObjectOk(m, s, v)
    case StringKind => StringOk(m, s, v)
    case ArrayKind =>
      v.Array? && (s.items.Some? ==> forall k | 0 <= k < |v.items| :: Accepts(m, s.items.value, v.items[k]))
    case BooleanKind => v.Bool?
    case NumberKind => NumberOk(s, v)
    case IntegerKind => NumberOk(s, v)
    case AnyKind => true
  }

  /** What each of the variants says. */
  ghost function Verdicts(m: Matcher, s: Schema, v: Value): seq<bool>
    requires s.oneOf.Among?
    decreases s, 1
  {
    seq(|s.oneOf.list|, j requires 0 <= j < |s.oneOf.list| => Accepts(m, s.oneOf.list[j], v))
  }

  /** Exactly one of the variants accepts. */
  ghost predicate OneOk(m: Matcher, s: Schema, v: Value)
    requires s.oneOf.Among?
    decreases s, 2
  {
    CountTrue(Verdicts(m, s, v)) == 1
  }

  ghost predicate AnyOk(m: Matcher, s: Schema, v: Value)
    requires s.anyOf.Among?
    decreases s, 1
  {
    exists i | 0 <= i < |s.anyOf.list| :: Accepts(m, s.anyOf.list[i], v)
  }

  ghost predicate Accepts(m: Matcher, s: Schema, v: Value)
    decreases s, 3
  {
    && (s.anyOf.Among? ==> AnyOk(m, s, v))
    && (s.oneOf.Among? ==> OneOk(m, s, v))
    && (s.constant.Some? ==> s.constant.value == v)
    && (s.choices.Some? ==> v in s.choices.value)
    && (s.required.Some? ==> HasAll(v, s.required.value))
    && KindOk(m, s, v)
  }

  /** validateSchema: the checks in the source's order. */
  method Validate(m: Matcher, s: Schema, v: Value) returns (ok: bool)
    ensures ok <==> Accepts(m, s, v)
    ensures ok <==> !Refused(m, s, v)
    decreases s, 3
  {
    AcceptedUnlessRefused(m, s, v);
    if s.anyOf.Among? {
      var matched := MatchesAny(m, s, v);
      if !matched { return false; }
    }
    if s.oneOf.Among? {
      var matches := MatchesOne(m, s, v);
      if !matches { return false; }
    }
    if s.constant.Some? && s.constant.value != v { return false; }
    if s.choices.Some? && v !in s.choices.value { return false; }
    if s.required.Some? {
      if !v.Object? { return false; }
      for k := 0 to |s.required.value|
        invariant forall j | 0 <= j < k :: s.required.value[j] in v.fields
      {
        if s.required.value[k] !in v.fields { return false; }
      }
    }
    ok := ValidateKind(m, s, v);
  }

  method MatchesAny(m: Matcher, s: Schema, v: Value) returns (matched: bool)
    requires s.anyOf.Among?
    ensures matched <==> AnyOk(m, s, v)
    decreases s, 1
  {
    for i := 0 to |s.anyOf.list|
      invariant forall j | 0 <= j < i :: !Accepts(m, s.anyOf.list[j], v)
    {
      var fits := Validate(m, s.anyOf.list[i], v);
      if fits { return true; }
    }
    return false;
  }

  method MatchesOne(m: Matcher, s: Schema, v: Value) returns (one: bool)
    requires s.oneOf.Among?
    ensures one <==> OneOk(m, s, v)
    decreases s, 2
  {
    var matches := 0;
    ghost var verdicts := Verdicts(m, s, v);
    for i := 0 to |s.oneOf.list|
      invariant matches == CountTrue(verdicts[..i])
    {
      var fits := Validate(m, s.oneOf.list[i], v);
      assert verdicts[i] == fits;
      assert verdicts[..i + 1][..i] == verdicts[..i];
      if fits { matches := matches + 1; }
    }
    assert verdicts[..|s.oneOf.list|] == verdicts;
    return matches == 1;
  }

  method ValidateKind(m: Matcher, s: Schema, v: Value) returns (ok: bool)
    ensures ok <==> KindOk(m, s, v)
    decreases s, 2
  {
    match s.kind
    case ObjectKind => ok := ValidateObject(m, s, v);
    case StringKind => ok := StringOk(m, s, v);
    case ArrayKind => ok := ValidateArray(m, s, v);
    case BooleanKind => ok := v.Bool?;
    case NumberKind => ok := NumberOk(s, v);
    case IntegerKind => ok := NumberOk(s, v);
    case AnyKind => ok := true;
  }

  method ValidateArray(m: Matcher, s: Schema, v: Value) returns (ok: bool)
    requires s.kind.ArrayKind?
    ensures ok <==> KindOk(m, s, v)
    decreases s, 1
  {
    if !v.Array? { return false; }
    if s.items.Some? {
      for k := 0 to |v.items|
        invariant forall j | 0 <= j < k :: Accepts(m, s.items.value, v.items[j])
      {
        var fits := Validate(m, s.items.value, v.items[k]);
        if !fits { return false; }
      }
    }
    return true;
  }

  /** The fields of the object come in any order. */
  method ValidateObject(m: Matcher, s: Schema, v: Value) returns (ok: bool)
    ensures ok <==> ObjectOk(m, s, v)
    decreases s, 1
  {
    if !v.Object? { return false; }
    var todo := v.fields.Keys;
    while todo != {}
      invariant todo <= v.fields.Keys
      invariant forall key | key in v.fields && key !in todo ::
        if key in s.properties then Accepts(m, s.properties[key], v.fields[key]) else !s.closed
      decreases todo
    {
      var key :| key in todo;
      todo := todo - {key};
      if key !in s.properties {
        if s.closed { return false; }
      } else {
        var fits := Validate(m, s.properties[key], v.fields[key]);
        if !fits { return false; }
      }
    }
    return true;
  }

  /** The constraints that do not look inside. */
  predicate Plain(s: Schema, v: Value) {
    && (s.constant.Some? ==> s.constant.value == v)
    && (s.choices.Some? ==> v in s.choices.value)
    && (s.required.Some? ==> HasAll(v, s.required.value))
  }

  lemma {:induction false} StringAccepts(m: Matcher, s: Schema, v: Value)
    requires s.kind.StringKind? && s.anyOf.Absent? && s.oneOf.Absent?
    ensures Accepts(m, s, v) <==> Plain(s, v) && StringOk(m, s, v)
  {
  }

  lemma {:induction false} ObjectAccepts(m: Matcher, s: Schema, v: Value)
    requires s.kind.ObjectKind? && s.anyOf.Absent? && s.oneOf.Absent?
    ensures Accepts(m, s, v) <==> Plain(s, v) && ObjectOk(m, s, v)
  {
  }

  lemma {:induction false} OneOfAccepts(m: Matcher, s: Schema, v: Value)
    requires s.kind.AnyKind? && s.anyOf.Absent? && s.oneOf.Among?
    ensures Accepts(m, s, v) <==> Plain(s, v) && CountTrue(Verdicts(m, s, v)) == 1
  {
  }

  lemma {:induction false} NumberAccepts(m: Matcher, s: Schema, v: Value)
    requires s.kind.NumberKind? && Accepts(m, s, v)
    ensures v.Number?
  {
  }

  lemma {:induction false} ConstantAccepts(m: Matcher, s: Schema, v: Value)
    requires s.constant.Some? && Accepts(m, s, v)
    ensures v == s.constant.value
  {
  }

  lemma {:induction false} AnyOfAccepts(m: Matcher, s: Schema, list: seq<Schema>, v: Value)
    requires s.kind.ObjectKind? && s.anyOf.Absent? && s.oneOf.Absent?
    ensures Accepts(m, s.(anyOf := Among(list)), v) <==>
            Accepts(m, s, v) && exists i | 0 <= i < |list| :: Accepts(m, list[i], v)
  {
    var t := s.(anyOf := Among(list));
    assert AnyOk(m, t, v) <==> exists i | 0 <= i < |list| :: Accepts(m, list[i], v);
    SameFields(m, s, t, v);
    ObjectAccepts(m, s, v);
  }

  lemma {:induction false} SameFields(m: Matcher, s: Schema, t: Schema, v: Value)
    requires t.properties == s.properties && t.closed == s.closed
    ensures ObjectOk(m, t, v) <==> ObjectOk(m, s, v)
  {
  }

  // Every way to be refused, one by one.

  /** No variant accepts. */
  ghost predicate NoneOf(m: Matcher, list: seq<Schema>, v: Value) {
    forall variant | variant in list :: !Accepts(m, variant, v)
  }

  /** Two places in the list hold variants that accept. */
  ghost predicate TwoOf(m: Matcher, list: seq<Schema>, v: Value) {
    exists i, j | 0 <= i < j < |list| :: Accepts(m, list[i], v) && Accepts(m, list[j], v)
  }

  ghost predicate WrongString(m: Matcher, s: Schema, v: Value) {
    match v
    case Text(text) =>
      (s.minLength.Some? && |text| < s.minLength.value) || (s.pattern.Some? && !m(s.pattern.value, text))
    case _ => true
  }

  ghost predicate IsWhole(n: real) {
    exists k: int :: IsInteger(n, k)
  }

  ghost predicate IsInteger(n: real, k: int) {
    n == k as real
  }

  ghost predicate WrongNumber(s: Schema, v: Value) {
    match v
    case Number(n) =>
      || (s.kind == IntegerKind && !IsWhole(n))
      || (s.minimum.Some? && n < s.minimum.value) || (s.maximum.Some? && n > s.maximum.value)
    case _ => true
  }

  /** A field that is refused, or one that a closed schema does not know. */
  ghost predicate WrongField(m: Matcher, s: Schema, key: string, field: Value) {
    (key in s.properties && !Accepts(m, s.properties[key], field)) || (key !in s.properties && s.closed)
  }

  ghost predicate WrongKind(m: Matcher, s: Schema, v: Value) {
    match s.kind
    case AnyKind => false
    case BooleanKind => v != Bool(true) && v != Bool(false)
    case StringKind => WrongString(m, s, v)
    case NumberKind => WrongNumber(s, v)
    case IntegerKind => WrongNumber(s, v)
    case ArrayKind =>
      (match v
       case Array(items) => s.items.Some? && exists item | item in items :: !Accepts(m, s.items.value, item)
       case _ => true)
    case ObjectKind =>
      (match v
       case Object(fields) => exists key | key in fields :: WrongField(m, s, key, fields[key])
       case _ => true)
  }

  ghost predicate Missing(v: Value, required: seq<string>) {
    match v
    case Object(fields) => exists key | key in required :: key !in fields
    case _ => true
  }

  ghost predicate Refused(m: Matcher, s: Schema, v: Value) {
    || (s.anyOf.Among? && NoneOf(m, s.anyOf.list, v))
    || (s.oneOf.Among? && (NoneOf(m, s.oneOf.list, v) || TwoOf(m, s.oneOf.list, v)))
    || (s.constant.Some? && v != s.constant.value)
    || (s.choices.Some? && forall choice | choice in s.choices.value :: choice != v)
    || (s.required.Some? && Missing(v, s.required.value))
    || WrongKind(m, s, v)
  }

  lemma WholeIs(n: real)
    ensures IsWhole(n) <==> n.Floor as real == n
  {
    if n.Floor as real == n { assert IsInteger(n, n.Floor); }
  }

  lemma StringIs(m: Matcher, s: Schema, v: Value)
    ensures StringOk(m, s, v) <==> !WrongString(m, s, v)
  {
  }

  lemma NumberIs(s: Schema, v: Value)
    ensures NumberOk(s, v) <==> !WrongNumber(s, v)
  {
    if v.Number? { WholeIs(v.n); }
  }

  lemma MissingIs(v: Value, required: seq<string>)
    ensures HasAll(v, required) <==> !Missing(v, required)
  {
    if v.Object? {
      if HasAll(v, required) {
        forall key | key in required ensures key in v.fields {
          var k :| 0 <= k < |required| && required[k] == key;
        }
      }
      if !Missing(v, required) {
        forall k | 0 <= k < |required| ensures required[k] in v.fields { assert required[k] in required; }
      }
    }
  }

  lemma ObjectIs(m: Matcher, s: Schema, v: Value)
    requires v.Object?
    ensures ObjectOk(m, s, v) <==> !exists key | key in v.fields :: WrongField(m, s, key, v.fields[key])
  {
    if !exists key | key in v.fields :: WrongField(m, s, key, v.fields[key]) {
      forall key | key in v.fields
        ensures if key in s.properties then Accepts(m, s.properties[key], v.fields[key]) else !s.closed
      {
        assert !WrongField(m, s, key, v.fields[key]);
      }
    }
  }

  lemma ArrayIs(m: Matcher, item: Schema, items: seq<Value>)
    ensures (forall k | 0 <= k < |items| :: Accepts(m, item, items[k])) <==>
            !exists v | v in items :: !Accepts(m, item, v)
  {
    forall k | 0 <= k < |items| ensures items[k] in items {}
  }

  lemma KindIs(m: Matcher, s: Schema, v: Value)
    ensures KindOk(m, s, v) <==> !WrongKind(m, s, v)
  {
    StringIs(m, s, v);
    NumberIs(s, v);
    match s.kind
    case ObjectKind => if v.Object? { ObjectIs(m, s, v); }
    case ArrayKind => if v.Array? && s.items.Some? { ArrayIs(m, s.items.value, v.items); }
    case _ =>
  }

  lemma {:induction false} NoneIs(m: Matcher, s: Schema, v: Value)
    requires s.oneOf.Among?
    ensures !NoneOf(m, s.oneOf.list, v) <==> AnyTrue(Verdicts(m, s, v))
  {
    var list, verdicts := s.oneOf.list, Verdicts(m, s, v);
    if !NoneOf(m, list, v) {
      var variant :| variant in list && Accepts(m, variant, v);
      var i :| 0 <= i < |list| && list[i] == variant;
      assert verdicts[i];
    }
    if AnyTrue(verdicts) {
      var i :| 0 <= i < |verdicts| && verdicts[i];
      assert list[i] in list && Accepts(m, list[i], v);
    }
  }

  lemma {:induction false} TwoIs(m: Matcher, s: Schema, v: Value)
    requires s.oneOf.Among?
    ensures TwoOf(m, s.oneOf.list, v) <==> TwoTrue(Verdicts(m, s, v))
  {
    var list, verdicts := s.oneOf.list, Verdicts(m, s, v);
    if TwoOf(m, list, v) {
      var i, j :| 0 <= i < j < |list| && Accepts(m, list[i], v) && Accepts(m, list[j], v);
      assert verdicts[i] && verdicts[j];
    }
    if TwoTrue(verdicts) {
      var i, j :| 0 <= i < j < |verdicts| && verdicts[i] && verdicts[j];
      assert Accepts(m, list[i], v) && Accepts(m, list[j], v);
    }
  }

  lemma {:induction false} OneIs(m: Matcher, s: Schema, v: Value)
    requires s.oneOf.Among?
    ensures OneOk(m, s, v) <==> !NoneOf(m, s.oneOf.list, v) && !TwoOf(m, s.oneOf.list, v)
  {
    CountsOne(Verdicts(m, s, v));
    NoneIs(m, s, v);
    TwoIs(m, s, v);
  }

  lemma AnyIs(m: Matcher, s: Schema, v: Value)
    requires s.anyOf.Among?
    ensures AnyOk(m, s, v) <==> !NoneOf(m, s.anyOf.list, v)
  {
    var list := s.anyOf.list;
    forall i | 0 <= i < |list| ensures list[i] in list {}
    if !NoneOf(m, list, v) {
      var variant :| variant in list && Accepts(m, variant, v);
      var i :| 0 <= i < |list| && list[i] == variant;
    }
  }

  /** A value is accepted exactly when nothing refuses it. */
  lemma AcceptedUnlessRefused(m: Matcher, s: Schema, v: Value)
    ensures Accepts(m, s, v) <==> !Refused(m, s, v)
  {
    if s.anyOf.Among? { AnyIs(m, s, v); }
    if s.oneOf.Among? { OneIs(m, s, v); }
    if s.required.Some? { MissingIs(v, s.required.value); }
    KindIs(m, s, v);
  }
}
