/** The schema offered to clients for open, click and fill, and the validator that their
    calls then meet. */
module AgentDevice {
  import opened Options
  import opened Counting
  import opened Schemas

  datatype Tool = Open | Click | Fill

  const ABSOLUTE := "^/"
  const REF := "^@e[0-9]+(?:~s[0-9]{1,16})?$"
  const ASSIGNS := "="
  const SELECTORS := ["udid", "serial", "device"]

  /** What the two simple patterns mean. A reference is whatever the third one matches. */
  ghost predicate Regexes(m: Matcher) {
    && (forall t {:trigger m("^/", t)} :: m("^/", t) <==> |t| > 0 && t[0] == '/')
    && (forall t {:trigger m("=", t)} :: m("=", t) <==> '=' in t)
  }

  const ANY := Schema(AnyKind, Absent, Absent, None, None, None, map[], false, None, None, None, None, None)

  function NonEmpty(s: Schema): Schema { s.(minLength := Some(1)) }

  function Patterned(s: Schema, pattern: string): Schema { s.(pattern := Some(pattern)) }

  // What the casts and assignments of the decorator take for granted.

  /** A string that the decorator does not loosen by overwriting what it says. */
  predicate Undecorated(s: Schema) {
    s.kind.StringKind? && s.anyOf.Absent? && s.oneOf.Absent? && s.minLength.None? && s.pattern.None?
  }

  predicate Demands(s: Schema, key: string) {
    key in s.properties && s.required.Some? && key in s.required.value
  }

  predicate Discriminated(s: Schema) {
    Demands(s, "kind") && s.properties["kind"].constant.Some? && s.properties["kind"].constant.value.Text?
  }

  function Discriminator(s: Schema): string
    requires Discriminated(s)
  {
    s.properties["kind"].constant.value.text
  }

  predicate VariantShaped(s: Schema) {
    && s.kind.ObjectKind? && s.closed && s.anyOf.Absent? && s.oneOf.Absent? && Discriminated(s)
    && match Discriminator(s)
       case "ref" => Demands(s, "ref") && Undecorated(s.properties["ref"])
       case "selector" => Demands(s, "selector") && Undecorated(s.properties["selector"])
       case "point" => Demands(s, "x") && Demands(s, "y") && s.properties["x"].kind.NumberKind?
           && s.properties["y"].kind.NumberKind?
       case _ => false
  }

  predicate TargetShaped(s: Schema) {
    && s.kind.AnyKind? && s.anyOf.Absent? && s.oneOf.Among?
    && (forall i | 0 <= i < |s.oneOf.list| :: VariantShaped(s.oneOf.list[i]))
    && (forall i, j | 0 <= i < j < |s.oneOf.list| :: Discriminator(s.oneOf.list[i]) != Discriminator(s.oneOf.list[j]))
  }

  predicate Shaped(tool: Tool, candidate: bool, s: Schema) {
    && s.kind.ObjectKind? && s.closed && s.anyOf.Absent? && s.oneOf.Absent? && s.constant.None? && s.choices.None?
    && "session" in s.properties && Undecorated(s.properties["session"])
    && (if candidate then "cwd" !in s.properties && (s.required.Some? ==> "cwd" !in s.required.value)
        else "cwd" in s.properties && Undecorated(s.properties["cwd"]))
    && if tool.Open? then forall k | 0 <= k < |SELECTORS| ::
        SELECTORS[k] in s.properties && Undecorated(s.properties[SELECTORS[k]])
       else Demands(s, "target") && TargetShaped(s.properties["target"])
  }

  // The decorator.

  /** The fields common to all three tools. */
  function Base(candidate: bool, s: Schema): map<string, Schema>
    requires "session" in s.properties && (candidate || "cwd" in s.properties)
  {
    var cwd := if candidate then ANY.(kind := StringKind) else s.properties["cwd"];
    s.properties["session" := NonEmpty(s.properties["session"])]["cwd" := Patterned(cwd, ABSOLUTE)]
  }

  function Strengthened(tool: Tool, s: Schema): Schema
    requires VariantShaped(s)
  {
    match Discriminator(s)
    case "ref" =>
      var fields := s.properties["ref" := Patterned(s.properties["ref"], REF)];
      if tool.Fill? then s.(properties := fields - {"label"}, closed := true) else s.(properties := fields)
    case "selector" => s.(properties := s.properties["selector" := Patterned(s.properties["selector"], ASSIGNS)])
    case _ => s
  }

  function StrongTarget(tool: Tool, s: Schema): Schema
    requires TargetShaped(s)
  {
    s.(oneOf := Among(seq(|s.oneOf.list|, i requires 0 <= i < |s.oneOf.list| => Strengthened(tool, s.oneOf.list[i]))))
  }

  function Branch(properties: map<string, Schema>, key: string): Schema
    requires key in properties
  {
    ANY.(kind := ObjectKind, required := Some(["session", "cwd", key]),
         properties := properties[key := NonEmpty(properties[key])], closed := true)
  }

  function Required(s: Schema): seq<string> {
    (if s.required.Some? then s.required.value else []) + ["session", "cwd"]
  }

  /** What all three tools get. */
  function Core(candidate: bool, s: Schema): Schema
    requires "session" in s.properties && (candidate || "cwd" in s.properties)
  {
    s.(required := Some(Required(s)), properties := Base(candidate, s))
  }

  function Advertised(tool: Tool, candidate: bool, s: Schema): Schema
    requires Shaped(tool, candidate, s)
  {
    var properties := Base(candidate, s);
    var out := Core(candidate, s);
    if tool.Open? then
      assert forall k | 0 <= k < |SELECTORS| :: SELECTORS[k] in s.properties;
      out.(anyOf := Among(seq(|SELECTORS|, k requires 0 <= k < |SELECTORS| => Branch(properties, SELECTORS[k]))))
    else
      out.(properties := properties["target" := StrongTarget(tool, s.properties["target"])])
  }

  // The validator.

  predicate IsText(fields: map<string, Value>, key: string) {
    key in fields && fields[key].Text?
  }

  function TextAt(fields: map<string, Value>, key: string): string {
    if IsText(fields, key) then fields[key].text else ""
  }

  predicate IsAbsolute(path: string) { |path| > 0 && path[0] == '/' }

  predicate TargetOk(m: Matcher, tool: Tool, target: Value) {
    && target.Object?
    && match TextAt(target.fields, "kind")
       case "ref" => (tool.Fill? ==> "label" !in target.fields) && m(REF, TextAt(target.fields, "ref"))
       case "selector" => '=' in TextAt(target.fields, "selector")
       case "point" => "x" in target.fields && target.fields["x"].Number? && "y" in target.fields
           && target.fields["y"].Number?
       case _ => false
  }

  function Wire(candidate: bool, args: map<string, Value>): map<string, Value> {
    if candidate then args - {"cwd"} else args
  }

  /** The calls that get past Validate. */
  ghost predicate Valid(m: Matcher, tool: Tool, candidate: bool, s: Schema, args: map<string, Value>) {
    && IsAbsolute(TextAt(args, "cwd")) && TextAt(args, "session") != ""
    && Accepts(m, s, Object(Wire(candidate, args)))
    && if tool.Open? then exists k | 0 <= k < |SELECTORS| :: TextAt(args, SELECTORS[k]) != ""
       else "target" in args && TargetOk(m, tool, args["target"])
  }

  // Each decoration adds exactly what the validator checks by hand.

  lemma NonEmptyAccepts(m: Matcher, s: Schema, v: Value)
    requires Undecorated(s)
    ensures Accepts(m, NonEmpty(s), v) <==> Accepts(m, s, v) && v.Text? && v.text != ""
  {
    StringAccepts(m, s, v);
    StringAccepts(m, NonEmpty(s), v);
  }

  lemma PatternedAccepts(m: Matcher, s: Schema, pattern: string, v: Value)
    requires Undecorated(s)
    ensures Accepts(m, Patterned(s, pattern), v) <==> Accepts(m, s, v) && v.Text? && m(pattern, v.text)
  {
    StringAccepts(m, s, v);
    StringAccepts(m, Patterned(s, pattern), v);
  }

  /** A field of `s` replaced by a stricter one. */
  lemma FieldReplaced(m: Matcher, s: Schema, key: string, field: Schema, v: Value)
    requires s.kind.ObjectKind? && s.anyOf.Absent? && s.oneOf.Absent? && key in s.properties
    requires v.Object? && key in v.fields
    requires Accepts(m, field, v.fields[key]) ==> Accepts(m, s.properties[key], v.fields[key])
    ensures Accepts(m, s.(properties := s.properties[key := field]), v)
            <==> Accepts(m, s, v) && Accepts(m, field, v.fields[key])
  {
    var t := s.(properties := s.properties[key := field]);
    ObjectAccepts(m, s, v);
    ObjectAccepts(m, t, v);
    if ObjectOk(m, s, v) && Accepts(m, field, v.fields[key]) { FieldsAccepted(m, s, t, key, v); }
    if ObjectOk(m, t, v) {
      assert Accepts(m, t.properties[key], v.fields[key]);
      FieldsAccepted(m, t, s, key, v);
    }
  }

  /** Two closed or open schemas with the same fields but for one. */
  lemma FieldsAccepted(m: Matcher, s: Schema, t: Schema, key: string, v: Value)
    requires ObjectOk(m, s, v) && t.closed == s.closed && t.properties.Keys == s.properties.Keys
    requires forall other | other in s.properties && other != key :: t.properties[other] == s.properties[other]
    requires key in v.fields ==> key in t.properties && Accepts(m, t.properties[key], v.fields[key])
    ensures ObjectOk(m, t, v)
  {
  }

  /** What a variant that accepts has in hand. */
  lemma VariantHolds(m: Matcher, s: Schema, v: Value, key: string)
    requires s.kind.ObjectKind? && s.anyOf.Absent? && s.oneOf.Absent? && Demands(s, key) && Accepts(m, s, v)
    ensures v.Object? && key in v.fields && Accepts(m, s.properties[key], v.fields[key])
  {
    ObjectAccepts(m, s, v);
    var k :| 0 <= k < |s.required.value| && s.required.value[k] == key;
    assert s.required.value[k] in v.fields;
  }

  /** What the validator asks of a target of this kind. */
  predicate VariantOk(m: Matcher, tool: Tool, kind: string, v: Value) {
    v.Object? &&
    match kind
    case "ref" => (tool.Fill? ==> "label" !in v.fields) && m(REF, TextAt(v.fields, "ref"))
    case "selector" => '=' in TextAt(v.fields, "selector")
    case _ => true
  }

  /** A demanded string field of a variant, with a pattern put on it. */
  lemma FieldPatterned(m: Matcher, s: Schema, key: string, pattern: string, v: Value)
    requires s.kind.ObjectKind? && s.anyOf.Absent? && s.oneOf.Absent? && Demands(s, key)
        && Undecorated(s.properties[key])
    ensures Accepts(m, s.(properties := s.properties[key := Patterned(s.properties[key], pattern)]), v)
            <==> Accepts(m, s, v) && v.Object? && m(pattern, TextAt(v.fields, key))
  {
    var field := Patterned(s.properties[key], pattern);
    var t := s.(properties := s.properties[key := field]);
    if Accepts(m, s, v) { VariantHolds(m, s, v, key); }
    if Accepts(m, t, v) { VariantHolds(m, t, v, key); }
    if v.Object? && key in v.fields {
      PatternedAccepts(m, s.properties[key], pattern, v.fields[key]);
      FieldReplaced(m, s, key, field, v);
      StringAccepts(m, s.properties[key], v.fields[key]);
    }
  }

  /** A field that a closed schema no longer knows. */
  lemma FieldDropped(m: Matcher, s: Schema, key: string, v: Value)
    requires s.kind.ObjectKind? && s.anyOf.Absent? && s.oneOf.Absent? && s.closed
    ensures Accepts(m, s.(properties := s.properties - {key}, closed := true), v)
            <==> Accepts(m, s, v) && v.Object? && key !in v.fields
  {
    var t := s.(properties := s.properties - {key}, closed := true);
    ObjectAccepts(m, s, v);
    ObjectAccepts(m, t, v);
    if ObjectOk(m, t, v) {
      forall other | other in v.fields
          ensures other in s.properties && Accepts(m, s.properties[other], v.fields[other]) {
        assert other in t.properties;
      }
    }
    if ObjectOk(m, s, v) && key !in v.fields {
      forall other | other in v.fields
          ensures other in t.properties && Accepts(m, t.properties[other], v.fields[other]) {
        assert other in s.properties;
      }
    }
  }

  lemma StrengthenedAccepts(m: Matcher, tool: Tool, s: Schema, v: Value)
    requires Regexes(m) && VariantShaped(s)
    ensures Accepts(m, Strengthened(tool, s), v) <==> Accepts(m, s, v) && VariantOk(m, tool, Discriminator(s), v)
  {
    match Discriminator(s)
    case "ref" =>
      var t := s.(properties := s.properties["ref" := Patterned(s.properties["ref"], REF)]);
      FieldPatterned(m, s, "ref", REF, v);
      FieldDropped(m, t, "label", v);
    case "selector" => FieldPatterned(m, s, "selector", ASSIGNS, v);
    case _ => if Accepts(m, s, v) { VariantHolds(m, s, v, "kind"); }
  }

  /** A variant that accepts is the one of the value's kind, and then the validator asks
      of the target just what it asks of this variant. */
  lemma VariantOfKind(m: Matcher, tool: Tool, s: Schema, v: Value)
    requires VariantShaped(s) && Accepts(m, s, v)
    ensures v.Object? && TextAt(v.fields, "kind") == Discriminator(s)
    ensures TargetOk(m, tool, v) <==> VariantOk(m, tool, Discriminator(s), v)
  {
    VariantHolds(m, s, v, "kind");
    ConstantAccepts(m, s.properties["kind"], v.fields["kind"]);
    if Discriminator(s) == "point" {
      VariantHolds(m, s, v, "x");
      VariantHolds(m, s, v, "y");
      NumberAccepts(m, s.properties["x"], v.fields["x"]);
      NumberAccepts(m, s.properties["y"], v.fields["y"]);
    }
  }

  lemma VerdictsCompared(m: Matcher, tool: Tool, s: Schema, v: Value, i: nat)
    requires Regexes(m) && TargetShaped(s) && i < |s.oneOf.list|
    ensures Verdicts(m, StrongTarget(tool, s), v)[i] <==> Verdicts(m, s, v)[i] && TargetOk(m, tool, v)
  {
    var variant := s.oneOf.list[i];
    StrengthenedAccepts(m, tool, variant, v);
    if Accepts(m, variant, v) { VariantOfKind(m, tool, variant, v); }
  }

  lemma OneVariant(m: Matcher, s: Schema, v: Value, i: nat, j: nat)
    requires TargetShaped(s) && i < |s.oneOf.list| && j < |s.oneOf.list| && Verdicts(m, s, v)[i] && Verdicts(m, s, v)[j]
    ensures i == j
  {
    VariantOfKind(m, Open, s.oneOf.list[i], v);
    VariantOfKind(m, Open, s.oneOf.list[j], v);
  }

  /** Strengthening the variants admits no new target, although exactly one has to
      accept: their kinds keep them apart. */
  lemma TargetAccepts(m: Matcher, tool: Tool, s: Schema, v: Value)
    requires Regexes(m) && TargetShaped(s)
    ensures Accepts(m, StrongTarget(tool, s), v) <==> Accepts(m, s, v) && TargetOk(m, tool, v)
  {
    var strong := StrongTarget(tool, s);
    OneOfAccepts(m, s, v);
    OneOfAccepts(m, strong, v);
    var was, now := Verdicts(m, s, v), Verdicts(m, strong, v);
    forall i | 0 <= i < |was| ensures now[i] <==> was[i] && TargetOk(m, tool, v) { VerdictsCompared(m, tool, s, v, i); }
    CountsCompared(m, s, v, was, now, TargetOk(m, tool, v));
  }

  lemma CountsCompared(m: Matcher, s: Schema, v: Value, was: seq<bool>, now: seq<bool>, ok: bool)
    requires TargetShaped(s) && was == Verdicts(m, s, v) && |now| == |was|
    requires forall i | 0 <= i < |was| :: now[i] <==> was[i] && ok
    ensures CountTrue(now) == 1 <==> CountTrue(was) == 1 && ok
  {
    if i :| 0 <= i < |was| && was[i] {
      forall j | 0 <= j < |was| && was[j] ensures j == i { OneVariant(m, s, v, i, j); }
      CountAtMost(was, i);
      CountAtMost(now, i);
    } else {
      CountNone(was);
      CountNone(now);
    }
  }

  // The calls as a whole.

  /** One field under the common decorations. */
  lemma BaseField(m: Matcher, tool: Tool, candidate: bool, s: Schema, key: string, v: Value)
    requires Regexes(m) && Shaped(tool, candidate, s) && key in Base(candidate, s)
    ensures Accepts(m, Base(candidate, s)[key], v) <==>
            && (key in s.properties ==> Accepts(m, s.properties[key], v))
            && (key == "session" ==> v.Text? && v.text != "")
            && (key == "cwd" ==> v.Text? && IsAbsolute(v.text))
  {
    if key == "session" {
      NonEmptyAccepts(m, s.properties[key], v);
    } else if key == "cwd" {
      if candidate {
        StringAccepts(m, Patterned(ANY.(kind := StringKind), ABSOLUTE), v);
      } else {
        PatternedAccepts(m, s.properties[key], ABSOLUTE, v);
      }
    }
  }

  ghost predicate FieldsOk(m: Matcher, properties: map<string, Schema>, args: map<string, Value>) {
    forall key | key in args :: key in properties && Accepts(m, properties[key], args[key])
  }

  lemma FieldsAre(m: Matcher, s: Schema, args: map<string, Value>)
    requires s.closed
    ensures ObjectOk(m, s, Object(args)) <==> FieldsOk(m, s.properties, args)
  {
  }

  lemma BaseFields(m: Matcher, tool: Tool, candidate: bool, s: Schema, args: map<string, Value>)
    requires Regexes(m) && Shaped(tool, candidate, s) && "session" in args && "cwd" in args
    ensures FieldsOk(m, Base(candidate, s), args) <==>
            FieldsOk(m, s.properties, Wire(candidate, args)) && TextAt(args, "session") != ""
                && IsAbsolute(TextAt(args, "cwd"))
  {
    var base := Base(candidate, s);
    forall key | key in args && key in base
      ensures Accepts(m, base[key], args[key]) <==>
              && (key in s.properties ==> Accepts(m, s.properties[key], args[key]))
              && (key == "session" ==> TextAt(args, key) != "") && (key == "cwd" ==> IsAbsolute(TextAt(args, key)))
    {
      BaseField(m, tool, candidate, s, key, args[key]);
    }
  }

  lemma RequiredAll(tool: Tool, candidate: bool, s: Schema, args: map<string, Value>)
    requires Shaped(tool, candidate, s)
    ensures Plain(Core(candidate, s), Object(args)) <==>
            Plain(s, Object(Wire(candidate, args))) && "session" in args && "cwd" in args
  {
    var given := if s.required.Some? then s.required.value else [];
    var all := Required(s);
    assert all == given + ["session", "cwd"];
    if HasAll(Object(args), all) {
      assert all[|given|] == "session" && all[|given| + 1] == "cwd";
      forall k | 0 <= k < |given|
          ensures given[k] in Wire(candidate, args) { assert all[k] == given[k] && given[k] in given; }
    }
    if HasAll(Object(Wire(candidate, args)), given) && "session" in args && "cwd" in args {
      forall k | 0 <= k < |all| ensures all[k] in args {
        if k < |given| { assert all[k] == given[k]; }
      }
    }
  }

  lemma CoreAccepts(m: Matcher, tool: Tool, candidate: bool, s: Schema, args: map<string, Value>)
    requires Regexes(m) && Shaped(tool, candidate, s)
    ensures Accepts(m, Core(candidate, s), Object(args)) <==>
            Accepts(m, s, Object(Wire(candidate, args))) && TextAt(args, "session") != ""
                && IsAbsolute(TextAt(args, "cwd"))
  {
    var core, wire := Core(candidate, s), Wire(candidate, args);
    ObjectAccepts(m, core, Object(args));
    ObjectAccepts(m, s, Object(wire));
    FieldsAre(m, core, args);
    FieldsAre(m, s, wire);
    RequiredAll(tool, candidate, s, args);
    if "session" in args && "cwd" in args { BaseFields(m, tool, candidate, s, args); }
  }

  /** What a branch of open asks for beyond what all calls need. */
  lemma BranchFields(m: Matcher, candidate: bool, s: Schema, key: string, args: map<string, Value>)
    requires Shaped(Open, candidate, s) && key in Base(candidate, s) && Accepts(m, Core(candidate, s), Object(args))
    ensures "session" in args && "cwd" in args
    ensures Accepts(m, Branch(Base(candidate, s), key), Object(args)) <==>
            key in args && Accepts(m, Branch(Base(candidate, s), key).properties[key], args[key])
  {
    var core, branch := Core(candidate, s), Branch(Base(candidate, s), key);
    ObjectAccepts(m, core, Object(args));
    ObjectAccepts(m, branch, Object(args));
    FieldsAre(m, core, args);
    FieldsAre(m, branch, args);
    RequiredAll(Open, candidate, s, args);
    assert branch.required.value == ["session", "cwd", key];
    if key !in args { assert branch.required.value[2] !in args; }
  }

  /** A branch of open asks for nothing but its selector beyond what all calls need. */
  lemma BranchAccepts(m: Matcher, candidate: bool, s: Schema, key: string, args: map<string, Value>)
    requires Shaped(Open, candidate, s) && key in SELECTORS && Accepts(m, Core(candidate, s), Object(args))
    ensures key in Base(candidate, s)
    ensures Accepts(m, Branch(Base(candidate, s), key), Object(args)) <==> TextAt(args, key) != ""
  {
    var k :| 0 <= k < |SELECTORS| && SELECTORS[k] == key;
    var base := Base(candidate, s);
    assert base[key] == s.properties[key] && Undecorated(base[key]);
    BranchFields(m, candidate, s, key, args);
    if key in args {
      ObjectAccepts(m, Core(candidate, s), Object(args));
      FieldsAre(m, Core(candidate, s), args);
      NonEmptyAccepts(m, base[key], args[key]);
      StringAccepts(m, base[key], args[key]);
    }
  }

  lemma OpenAccepts(m: Matcher, candidate: bool, s: Schema, args: map<string, Value>)
    requires Regexes(m) && Shaped(Open, candidate, s)
    ensures Accepts(m, Advertised(Open, candidate, s), Object(args)) <==> Valid(m, Open, candidate, s, args)
  {
    var core, base := Core(candidate, s), Base(candidate, s);
    var list := Advertised(Open, candidate, s).anyOf.list;
    AnyOfAccepts(m, core, list, Object(args));
    CoreAccepts(m, Open, candidate, s, args);
    if Accepts(m, core, Object(args)) {
      forall k | 0 <= k < |SELECTORS| ensures Accepts(m, list[k], Object(args)) <==> TextAt(args, SELECTORS[k]) != "" {
        BranchAccepts(m, candidate, s, SELECTORS[k], args);
      }
    }
  }

  lemma InteractionAccepts(m: Matcher, tool: Tool, candidate: bool, s: Schema, args: map<string, Value>)
    requires Regexes(m) && Shaped(tool, candidate, s) && !tool.Open?
    ensures Accepts(m, Advertised(tool, candidate, s), Object(args)) <==> Valid(m, tool, candidate, s, args)
  {
    var core, adv := Core(candidate, s), Advertised(tool, candidate, s);
    var target := s.properties["target"];
    CoreAccepts(m, tool, candidate, s, args);
    RequiredAll(tool, candidate, s, args);
    ObjectAccepts(m, core, Object(args));
    ObjectAccepts(m, adv, Object(args));
    if "target" in args {
      TargetAccepts(m, tool, target, args["target"]);
      FieldReplaced(m, core, "target", StrongTarget(tool, target), Object(args));
    } else {
      var k :| 0 <= k < |s.required.value| && s.required.value[k] == "target";
      assert Required(s)[k] == "target";
    }
  }

  /** The offered schema accepts exactly the calls that the validator lets through, the
      pinned schema's own verdict on the wire arguments included. */
  lemma AdvertisedIsValidated(m: Matcher, tool: Tool, candidate: bool, s: Schema, args: map<string, Value>)
    requires Regexes(m) && Shaped(tool, candidate, s)
    ensures Accepts(m, Advertised(tool, candidate, s), Object(args)) <==> Valid(m, tool, candidate, s, args)
  {
    if tool.Open? { OpenAccepts(m, candidate, s, args); } else { InteractionAccepts(m, tool, candidate, s, args); }
  }

  /** AdvertisedSchema on the decoded map: fields are added and edited one by one. */
  method Advertise(tool: Tool, candidate: bool, upstream: Schema) returns (out: Schema)
    requires Shaped(tool, candidate, upstream)
    ensures out == Advertised(tool, candidate, upstream)
  {
    var properties := upstream.properties;
    if candidate { properties := properties["cwd" := ANY.(kind := StringKind)]; }
    properties := properties["session" := NonEmpty(properties["session"])];
    properties := properties["cwd" := Patterned(properties["cwd"], ABSOLUTE)];
    assert properties == Base(candidate, upstream);
    out := upstream.(required := Some(Required(upstream)), properties := properties);
    if tool.Open? {
      var selectors: seq<Schema> := [];
      for k := 0 to |SELECTORS|
        invariant selectors == seq(k, i requires 0 <= i < k => Branch(properties, SELECTORS[i]))
      {
        assert SELECTORS[k] in upstream.properties;
        selectors := selectors + [Branch(properties, SELECTORS[k])];
      }
      out := out.(anyOf := Among(selectors));
    } else {
      var target := properties["target"];
      var variants := target.oneOf.list;
      for i := 0 to |variants|
        invariant |variants| == |target.oneOf.list|
        invariant forall j | 0 <= j < |variants| ::
            variants[j] == if j < i then Strengthened(tool, target.oneOf.list[j]) else target.oneOf.list[j]
      {
        variants := variants[i := Strengthened(tool, variants[i])];
      }
      assert Among(variants) == StrongTarget(tool, target).oneOf;
      out := out.(properties := properties["target" := target.(oneOf := Among(variants))]);
    }
  }

  method ValidateTarget(m: Matcher, tool: Tool, target: Value) returns (ok: bool)
    requires tool.Fill? && target.Object? && TextAt(target.fields, "kind") == "ref" ==> "label" !in target.fields
    ensures ok <==> TargetOk(m, tool, target)
  {
    if !target.Object? { return false; }
    var kind := TextAt(target.fields, "kind");
    if kind == "ref" { return m(REF, TextAt(target.fields, "ref")); }
    if kind == "selector" { return '=' in TextAt(target.fields, "selector"); }
    if kind != "point" { return false; }
    var keys := ["x", "y"];
    for k := 0 to |keys|
      invariant forall j | 0 <= j < k :: keys[j] in target.fields && target.fields[keys[j]].Number?
    {
      if keys[k] !in target.fields || !target.fields[keys[k]].Number? { return false; }
    }
    assert keys[0] == "x" && keys[1] == "y";
    return true;
  }

  method Selected(args: map<string, Value>) returns (selected: bool)
    ensures selected <==> exists k | 0 <= k < |SELECTORS| :: TextAt(args, SELECTORS[k]) != ""
  {
    selected := false;
    for k := 0 to |SELECTORS|
      invariant selected <==> exists j | 0 <= j < k :: TextAt(args, SELECTORS[j]) != ""
    {
      if TextAt(args, SELECTORS[k]) != "" { selected := true; }
    }
  }

  // A proper call, field by field.

  ghost predicate Says(fields: map<string, Value>, key: string, text: string) {
    key in fields && fields[key] == Text(text)
  }

  /** A text under `key` that is not empty. */
  ghost predicate Named(fields: map<string, Value>, key: string) {
    exists text :: Says(fields, key, text) && text != ""
  }

  /** A text under `key` that starts with a slash. */
  ghost predicate Rooted(fields: map<string, Value>, key: string) {
    exists rest :: Says(fields, key, "/" + rest)
  }

  ghost predicate Measured(fields: map<string, Value>, key: string) {
    exists n :: key in fields && fields[key] == Number(n)
  }

  /** A reference of the current snapshot, to be filled only without a label; a selector
      with an equals sign; or a point with two finite coordinates. */
  ghost predicate Aims(m: Matcher, tool: Tool, target: Value) {
    && target.Object?
    && var fields := target.fields;
       || (&& Says(fields, "kind", "ref") && (tool == Fill ==> "label" !in fields)
           && m("^@e[0-9]+(?:~s[0-9]{1,16})?$", TextAt(fields, "ref")))
       || (Says(fields, "kind", "selector") && exists before, after :: Says(fields, "selector", before + "=" + after))
       || (Says(fields, "kind", "point") && Measured(fields, "x") && Measured(fields, "y"))
  }

  /** What the pinned schema asks, a session, an absolute working directory, and a device
      to open or a target to act on. */
  ghost predicate Proper(m: Matcher, tool: Tool, candidate: bool, s: Schema, args: map<string, Value>) {
    && Named(args, "session") && Rooted(args, "cwd")
    && Accepts(m, s, Object(if candidate then args - {"cwd"} else args))
    && match tool
       case Open => Named(args, "udid") || Named(args, "serial") || Named(args, "device")
       case _ => "target" in args && Aims(m, tool, args["target"])
  }

  lemma NamedIs(fields: map<string, Value>, key: string)
    ensures Named(fields, key) <==> TextAt(fields, key) != ""
  {
    if TextAt(fields, key) != "" { assert Says(fields, key, fields[key].text); }
  }

  lemma RootedIs(fields: map<string, Value>, key: string)
    ensures Rooted(fields, key) <==> IsAbsolute(TextAt(fields, key))
  {
    if IsAbsolute(TextAt(fields, key)) {
      var text := fields[key].text;
      assert text == "/" + text[1..];
      assert Says(fields, key, "/" + text[1..]);
    }
  }

  lemma AssignsIs(fields: map<string, Value>, key: string)
    ensures (exists before, after :: Says(fields, key, before + "=" + after)) <==> '=' in TextAt(fields, key)
  {
    if '=' in TextAt(fields, key) {
      var text := fields[key].text;
      var k :| 0 <= k < |text| && text[k] == '=';
      assert text == text[..k] + "=" + text[k + 1..];
      assert Says(fields, key, text[..k] + "=" + text[k + 1..]);
    }
    if before, after :| Says(fields, key, before + "=" + after) {
      assert (before + "=" + after)[|before|] == '=';
    }
  }

  lemma MeasuredIs(fields: map<string, Value>, key: string)
    ensures Measured(fields, key) <==> key in fields && fields[key].Number?
  {
  }

  lemma KindIs(fields: map<string, Value>, kind: string)
    requires kind != ""
    ensures Says(fields, "kind", kind) <==> TextAt(fields, "kind") == kind
  {
  }

  lemma AimsIs(m: Matcher, tool: Tool, target: Value)
    ensures Aims(m, tool, target) <==> TargetOk(m, tool, target)
  {
    if target.Object? {
      var fields := target.fields;
      KindIs(fields, "ref");
      KindIs(fields, "selector");
      KindIs(fields, "point");
      AssignsIs(fields, "selector");
      MeasuredIs(fields, "x");
      MeasuredIs(fields, "y");
    }
  }

  lemma ProperIs(m: Matcher, tool: Tool, candidate: bool, s: Schema, args: map<string, Value>)
    ensures Proper(m, tool, candidate, s, args) <==> Valid(m, tool, candidate, s, args)
  {
    NamedIs(args, "session");
    RootedIs(args, "cwd");
    if tool.Open? {
      NamedIs(args, "udid");
      NamedIs(args, "serial");
      NamedIs(args, "device");
      assert SELECTORS[0] == "udid" && SELECTORS[1] == "serial" && SELECTORS[2] == "device";
    } else if "target" in args {
      AimsIs(m, tool, args["target"]);
    }
  }

  /** Validate for the three interactions, after the schema has been recognised. Nothing
      that the offered schema accepts is refused, and nothing else gets through. */
  method Validate(m: Matcher, tool: Tool, candidate: bool, s: Schema, args: map<string, Value>) returns (ok: bool)
    requires Regexes(m) && Shaped(tool, candidate, s)
    ensures ok <==> Accepts(m, Advertised(tool, candidate, s), Object(args))
    ensures ok <==> Proper(m, tool, candidate, s, args)
  {
    AdvertisedIsValidated(m, tool, candidate, s, args);
    ProperIs(m, tool, candidate, s, args);
    if candidate && !IsAbsolute(TextAt(args, "cwd")) { return false; }
    if tool.Fill? && "target" in args && args["target"].Object? {
      var target := args["target"].fields;
      if TextAt(target, "kind") == "ref" && "label" in target { return false; }
    }
    ok := Schemas.Validate(m, s, Object(Wire(candidate, args)));
    if !ok { return; }
    if !tool.Open? {
      if "target" !in args { return false; }
      ok := ValidateTarget(m, tool, args["target"]);
      if !ok { return; }
    }
    if TextAt(args, "session") == "" || !IsAbsolute(TextAt(args, "cwd")) { return false; }
    if tool.Open? { ok := Selected(args); }
  }

  // Two schemas of the kind the decorator is for, and calls of them.

  const STRING := ANY.(kind := StringKind)
  const NUMBER := ANY.(kind := NumberKind)

  const OPEN_SCHEMA :=
    ANY.(kind := ObjectKind, closed := true,
         properties := map["session" := STRING, "cwd" := STRING, "udid" := STRING, "serial" := STRING,
                           "device" := STRING])

  function Variant(kind: string, fields: map<string, Schema>, required: seq<string>): Schema {
    ANY.(kind := ObjectKind, closed := true, required := Some(["kind"] + required),
         properties := fields["kind" := STRING.(constant := Some(Text(kind)))])
  }

  const TARGET_SCHEMA :=
    ANY.(oneOf := Among([Variant("ref", map["ref" := STRING, "label" := STRING], ["ref"]),
                         Variant("selector", map["selector" := STRING], ["selector"]),
                         Variant("point", map["x" := NUMBER, "y" := NUMBER], ["x", "y"])]))

  const FILL_SCHEMA :=
    ANY.(kind := ObjectKind, closed := true, required := Some(["target"]),
         properties := map["session" := STRING, "cwd" := STRING, "target" := TARGET_SCHEMA])

  lemma SchemasShaped()
    ensures Shaped(Open, false, OPEN_SCHEMA) && Shaped(Fill, false, FILL_SCHEMA)
  {
    assert OPEN_SCHEMA.properties["session"] == STRING;
    var list := TARGET_SCHEMA.oneOf.list;
    VariantsShaped(list[0], list[1], list[2]);
    assert ["target"][0] == "target";
  }

  lemma VariantsShaped(ref: Schema, selector: Schema, point: Schema)
    requires ref == Variant("ref", map["ref" := STRING, "label" := STRING], ["ref"])
    requires selector == Variant("selector", map["selector" := STRING], ["selector"])
    requires point == Variant("point", map["x" := NUMBER, "y" := NUMBER], ["x", "y"])
    ensures VariantShaped(ref) && VariantShaped(selector) && VariantShaped(point)
    ensures Discriminator(ref) == "ref" && Discriminator(selector) == "selector" && Discriminator(point) == "point"
  {
    assert ref.required.value[0] == "kind" && ref.required.value[1] == "ref";
    assert selector.required.value[0] == "kind" && selector.required.value[1] == "selector";
    assert point.required.value[0] == "kind" && point.required.value[1] == "x" && point.required.value[2] == "y";
  }

  const CALL: map<string, Value> := map["session" := Text("s"), "cwd" := Text("/w"), "serial" := Text("d")]

  /** A call that names its device gets through, and one that does not is refused. */
  method Example(m: Matcher) returns (named: bool, nameless: bool)
    requires Regexes(m)
    ensures named && !nameless
  {
    SchemasShaped();
    named := Validate(m, Open, false, OPEN_SCHEMA, CALL);
    nameless := Validate(m, Open, false, OPEN_SCHEMA, CALL - {"serial"});
    CallAccepted(m);
    assert Says(CALL, "session", "s") && Says(CALL, "cwd", "/" + "w") && Says(CALL, "serial", "d");
  }

  lemma CallAccepted(m: Matcher)
    ensures Accepts(m, OPEN_SCHEMA, Object(CALL))
  {
    ObjectAccepts(m, OPEN_SCHEMA, Object(CALL));
    forall key | key in CALL ensures Accepts(m, OPEN_SCHEMA.properties[key], CALL[key]) {
      StringAccepts(m, STRING, CALL[key]);
    }
  }
}
