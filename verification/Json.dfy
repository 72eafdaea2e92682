/** JSON values and the partial join of two of them. */
module Json {
  import opened Options

  /** Numbers keep their spelling, as the decoder is told to. */
  datatype Value =
    | Null
    | Bool(on: bool)
    | Number(lexeme: string)
    | Text(text: string)
    | Array(items: seq<Value>)
    | Object(fields: map<string, Value>)

  /** Everything of `a` is also in `b`: objects may only have gained fields. */
  ghost predicate Below(a: Value, b: Value) {
    if a.Object? && b.Object? then
      forall key | key in a.fields :: key in b.fields && Below(a.fields[key], b.fields[key])
    else a == b
  }

  /** What merging two values gives; `None` is a collision. */
  ghost function Join(a: Value, b: Value): Option<Value> {
    if a.Object? && b.Object? then
      if forall key | key in a.fields && key in b.fields :: Join(a.fields[key], b.fields[key]).Some? then
        Some(Object(map key | key in a.fields.Keys + b.fields.Keys ::
          if key !in b.fields then a.fields[key]
          else if key !in a.fields then b.fields[key]
          else Join(a.fields[key], b.fields[key]).value))
      else None
    else if a == b then Some(a) else None
  }

  lemma {:induction false} BelowReflexive(a: Value)
    ensures Below(a, a)
  {
    if a.Object? {
      forall key | key in a.fields ensures Below(a.fields[key], a.fields[key]) { BelowReflexive(a.fields[key]); }
    }
  }

  lemma {:induction false} BelowTransitive(a: Value, b: Value, c: Value)
    requires Below(a, b) && Below(b, c)
    ensures Below(a, c)
  {
    if a.Object? && b.Object? && c.Object? {
      forall key | key in a.fields ensures key in c.fields && Below(a.fields[key], c.fields[key]) {
        BelowTransitive(a.fields[key], b.fields[key], c.fields[key]);
      }
    }
  }

  lemma {:induction false} BelowAntisymmetric(a: Value, b: Value)
    requires Below(a, b) && Below(b, a)
    ensures a == b
  {
    if a.Object? && b.Object? {
      forall key | key in a.fields ensures a.fields[key] == b.fields[key] {
        BelowAntisymmetric(a.fields[key], b.fields[key]);
      }
      assert a.fields.Keys == b.fields.Keys;
      assert a.fields == b.fields;
    }
  }

  /** The merge holds both inputs. */
  lemma {:induction false} JoinIsBound(a: Value, b: Value)
    requires Join(a, b).Some?
    ensures Below(a, Join(a, b).value) && Below(b, Join(a, b).value)
  {
    if a.Object? && b.Object? {
      var c := Join(a, b).value;
      forall key | key in a.fields ensures Below(a.fields[key], c.fields[key]) {
        if key in b.fields { JoinIsBound(a.fields[key], b.fields[key]); } else { BelowReflexive(a.fields[key]); }
      }
      forall key | key in b.fields ensures Below(b.fields[key], c.fields[key]) {
        if key in a.fields { JoinIsBound(a.fields[key], b.fields[key]); } else { BelowReflexive(b.fields[key]); }
      }
    }
  }

  /** It succeeds whenever anything holds both inputs, and holds nothing more. */
  lemma {:induction false} JoinIsLeast(a: Value, b: Value, d: Value)
    requires Below(a, d) && Below(b, d)
    ensures Join(a, b).Some? && Below(Join(a, b).value, d)
  {
    if a.Object? && b.Object? {
      forall key | key in a.fields && key in b.fields
        ensures Join(a.fields[key], b.fields[key]).Some?
            && Below(Join(a.fields[key], b.fields[key]).value, d.fields[key])
      {
        JoinIsLeast(a.fields[key], b.fields[key], d.fields[key]);
      }
    }
  }

  ghost predicate Bounds(a: Value, b: Value, d: Value) {
    Below(a, d) && Below(b, d)
  }

  ghost predicate Least(a: Value, b: Value, c: Value) {
    Bounds(a, b, c) && forall d | Bounds(a, b, d) :: Below(c, d)
  }

  /** A collision means that no value contains both inputs. */
  lemma CollisionIffUnbounded(a: Value, b: Value)
    ensures Join(a, b).None? <==> forall d :: !Bounds(a, b, d)
  {
    forall d | Bounds(a, b, d) ensures Join(a, b).Some? { JoinIsLeast(a, b, d); }
    if Join(a, b).Some? {
      JoinIsBound(a, b);
      assert Bounds(a, b, Join(a, b).value);
    }
  }

  lemma JoinLeast(a: Value, b: Value)
    requires Join(a, b).Some?
    ensures Least(a, b, Join(a, b).value)
  {
    JoinIsBound(a, b);
    forall d | Bounds(a, b, d) ensures Below(Join(a, b).value, d) { JoinIsLeast(a, b, d); }
  }

  lemma LeastUnique(a: Value, b: Value, c: Value, d: Value)
    requires Least(a, b, c) && Least(a, b, d)
    ensures c == d
  {
    BelowAntisymmetric(c, d);
  }

  /** The merge is the least value that contains both inputs. */
  lemma LeastUpperBound(a: Value, b: Value, c: Value)
    ensures Join(a, b) == Some(c) <==> Least(a, b, c)
  {
    if Join(a, b).Some? { JoinLeast(a, b); }
    if Least(a, b, c) {
      JoinIsLeast(a, b, c);
      LeastUnique(a, b, c, Join(a, b).value);
    }
  }

  /** Which payload is the destination does not matter. */
  lemma JoinCommutes(a: Value, b: Value)
    ensures Join(a, b) == Join(b, a)
  {
    if Join(a, b).Some? {
      LeastUpperBound(a, b, Join(a, b).value);
      LeastUpperBound(b, a, Join(a, b).value);
    } else if Join(b, a).Some? {
      LeastUpperBound(b, a, Join(b, a).value);
      LeastUpperBound(a, b, Join(b, a).value);
    }
  }

  lemma JoinIdempotent(a: Value)
    ensures Join(a, a) == Some(a)
  {
    BelowReflexive(a);
    LeastUpperBound(a, a, a);
  }

  /** Merging something already contained changes nothing, and nothing else does that. */
  lemma JoinAbsorbs(a: Value, b: Value)
    ensures Join(a, b) == Some(a) <==> Below(b, a)
  {
    BelowReflexive(a);
    LeastUpperBound(a, b, a);
  }

  ghost function JoinAll(a: Option<Value>, b: Option<Value>): Option<Value> {
    if a.None? || b.None? then None else Join(a.value, b.value)
  }

  /** `d` contains a merge exactly when it contains both parts. */
  lemma AboveJoin(a: Value, b: Value, d: Value)
    ensures (Join(a, b).Some? && Below(Join(a, b).value, d)) <==> Below(a, d) && Below(b, d)
  {
    if Below(a, d) && Below(b, d) { JoinIsLeast(a, b, d); }
    if Join(a, b).Some? && Below(Join(a, b).value, d) {
      JoinIsBound(a, b);
      BelowTransitive(a, Join(a, b).value, d);
      BelowTransitive(b, Join(a, b).value, d);
    }
  }

  lemma AboveLeft(a: Value, b: Value, c: Value, d: Value)
    ensures (JoinAll(Join(a, b), Some(c)).Some? && Below(JoinAll(Join(a, b), Some(c)).value, d))
            <==> Below(a, d) && Below(b, d) && Below(c, d)
  {
    AboveJoin(a, b, d);
    if Join(a, b).Some? { AboveJoin(Join(a, b).value, c, d); }
  }

  /** Grouping does not matter either, collisions included. */
  lemma JoinAssociates(a: Value, b: Value, c: Value)
    ensures JoinAll(Join(a, b), Some(c)) == JoinAll(Some(a), Join(b, c))
  {
    var l, r := JoinAll(Join(a, b), Some(c)), JoinAll(Join(b, c), Some(a));
    if Join(b, c).Some? { JoinCommutes(a, Join(b, c).value); }
    if l.Some? {
      BelowReflexive(l.value);
      AboveLeft(a, b, c, l.value);
      AboveLeft(b, c, a, l.value);
    }
    if r.Some? {
      BelowReflexive(r.value);
      AboveLeft(a, b, c, r.value);
      AboveLeft(b, c, a, r.value);
      BelowAntisymmetric(l.value, r.value);
    }
  }

  /** What a path of field names leads to. */
  ghost function At(a: Value, path: seq<string>): Option<Value>
    decreases |path|
  {
    if path == [] then Some(a)
    else if a.Object? && path[0] in a.fields then At(a.fields[path[0]], path[1..])
    else None
  }

  /** Both values hold something at `path`, and it is neither the same nor two objects. */
  ghost predicate Incompatible(a: Value, b: Value, path: seq<string>) {
    var x, y := At(a, path), At(b, path);
    x.Some? && y.Some? && x != y && !(x.value.Object? && y.value.Object?)
  }

  lemma IncompatibleBelow(a: Value, b: Value, key: string, path: seq<string>)
    requires a.Object? && b.Object? && key in a.fields && key in b.fields
    ensures Incompatible(a.fields[key], b.fields[key], path) <==> Incompatible(a, b, [key] + path)
  {
    assert ([key] + path)[1..] == path;
  }

  lemma {:induction false} CollisionHasPath(a: Value, b: Value) returns (path: seq<string>)
    requires Join(a, b).None?
    ensures Incompatible(a, b, path)
  {
    path := [];
    if a.Object? && b.Object? {
      var key :| key in a.fields && key in b.fields && Join(a.fields[key], b.fields[key]).None?;
      var rest := CollisionHasPath(a.fields[key], b.fields[key]);
      IncompatibleBelow(a, b, key, rest);
      path := [key] + rest;
    }
  }

  lemma {:induction false} PathMakesCollision(a: Value, b: Value, path: seq<string>)
    requires Incompatible(a, b, path)
    ensures Join(a, b).None?
    decreases |path|
  {
    if path != [] {
      assert path == [path[0]] + path[1..];
      IncompatibleBelow(a, b, path[0], path[1..]);
      PathMakesCollision(a.fields[path[0]], b.fields[path[0]], path[1..]);
    }
  }

  /** A merge fails exactly when some path holds incompatible values. */
  lemma CollisionIffIncompatible(a: Value, b: Value)
    ensures Join(a, b).None? <==> exists path :: Incompatible(a, b, path)
  {
    if Join(a, b).None? { var path := CollisionHasPath(a, b); }
    if path :| Incompatible(a, b, path) { PathMakesCollision(a, b, path); }
  }

  /** A value at some path is in the merge exactly when it is at that path in an input. */
  lemma {:induction false} JoinPaths(a: Value, b: Value, path: seq<string>)
    requires Join(a, b).Some?
    ensures At(Join(a, b).value, path) ==
            if At(a, path).None? then At(b, path)
            else if At(b, path).None? then At(a, path)
            else Join(At(a, path).value, At(b, path).value)
    decreases |path|
  {
    if path != [] && a.Object? && b.Object? {
      if path[0] in a.fields && path[0] in b.fields {
        JoinPaths(a.fields[path[0]], b.fields[path[0]], path[1..]);
      }
    } else {
      JoinIdempotent(a);
      if At(a, path).Some? { JoinIdempotent(At(a, path).value); }
    }
  }
}
