/** Merging decoded payloads in place, map by map. */
module JsonMerge {
  import opened Options
  import opened Json

  /** A decoded value: an object is a mutable map, anything else is never written to. */
  datatype Node = Leaf(value: Value) | Branch(at: JsonObject)

  /** `node` stands for `value` and is made of the maps in `feet`. */
  ghost predicate Holds(node: Node, value: Value, feet: set<object>)
    reads feet
    decreases feet, 1
  {
    if node.Leaf? then node.value == value && !value.Object? && feet == {}
    else node.at in feet && node.at.Repr == feet && node.at.Valid() && value == Object(node.at.Contents)
  }

  /** Every field stands for its value, with maps of its own from `below`. */
  ghost predicate Accounted(fields: map<string, Node>, contents: map<string, Value>, kids: map<string, set<object>>,
                            below: set<object>)
    requires fields.Keys <= contents.Keys && fields.Keys <= kids.Keys
    reads below
    decreases below, 2
  {
    forall key | key in fields :: kids[key] <= below && Holds(fields[key], contents[key], kids[key])
  }

  lemma AccountedNext(fields: map<string, Node>, contents: map<string, Value>, kids: map<string, set<object>>,
                      below: set<object>, key: string, value: Value, feet: set<object>)
    requires contents.Keys == kids.Keys && fields.Keys == contents.Keys + {key}
    requires Accounted(fields - {key}, contents, kids, below) && Holds(fields[key], value, feet)
    ensures Accounted(fields, contents[key := value], kids[key := feet], below + feet)
  {
  }

  class JsonObject {
    var fields: map<string, Node>
    /** The value of each field, the maps it is made of, and all maps reached from here. */
    ghost var Contents: map<string, Value>
    ghost var Kids: map<string, set<object>>
    ghost var Repr: set<object>

    /** A tree: no map is reached twice. */
    ghost predicate Valid()
      reads this, Repr
      decreases Repr, 0
    {
      && this in Repr && Contents.Keys == fields.Keys && Kids.Keys == fields.Keys
      && Accounted(fields, Contents, Kids, Repr - {this}) && Pairwise(Kids)
    }

    ghost function Tree(): Value
      reads this
    {
      Object(Contents)
    }

    constructor ()
      ensures Valid() && fresh(Repr) && Tree() == Object(map[])
    {
      fields, Contents, Kids, Repr := map[], map[], map[], {this};
    }

    /** Accounts for what `key` holds; every other field is accounted for. */
    ghost method Account(key: string, value: Value, feet: set<object>)
      requires this in Repr && key in fields && Contents.Keys == Kids.Keys && Contents.Keys + {key} == fields.Keys
      requires Accounted(fields - {key}, Contents, Kids, Repr - {this})
      requires Holds(fields[key], value, feet) && this !in feet && Pairwise(Kids[key := feet])
      modifies `Contents, `Kids, `Repr
      ensures Valid() && Contents == old(Contents)[key := value] && Kids == old(Kids)[key := feet]
          && Repr == old(Repr) + feet
    {
      AccountedNext(fields, Contents, Kids, Repr - {this}, key, value, feet);
      Contents, Kids, Repr := Contents[key := value], Kids[key := feet], Repr + feet;
      assert Repr - {this} == old(Repr) - {this} + feet;
    }

    /** dst[key] = source, for a key that is not there yet. The map then shares the value
        with `src`. */
    method Put(key: string, src: JsonObject)
      requires Valid() && src.Valid() && src != this && key !in fields && key in src.fields && src.Kids[key] !! Repr
      modifies this
      ensures Valid() && fields == old(fields)[key := src.fields[key]]
      ensures Contents == old(Contents)[key := src.Contents[key]]
      ensures Kids == old(Kids)[key := src.Kids[key]] && Repr == old(Repr) + src.Kids[key]
    {
      PairwiseNext(Kids, key, src.Kids[key]);
      fields := fields[key := src.fields[key]];
      Account(key, src.Contents[key], src.Kids[key]);
    }

    /** The recursive call on a key that both hold as objects. */
    method Descend(key: string, src: JsonObject) returns (collision: Option<seq<string>>)
      requires Valid() && src.Valid() && key in fields && key in src.fields && fields[key].Branch?
          && src.fields[key].Branch?
      requires Kids[key] !! src.Repr && src.Kids[key] !! Repr
      modifies `Contents, `Kids, `Repr, Kids[key]
      ensures Valid() && key in Contents
      ensures Contents == old(Contents)[key := Contents[key]]
      ensures Kids == old(Kids)[key := Kids[key]] && Repr <= old(Repr) + src.Kids[key]
      ensures collision.None? ==> Join(old(Contents)[key], src.Contents[key]) == Some(Contents[key])
      ensures collision.Some? ==> Incompatible(old(Contents)[key], src.Contents[key], collision.value)
      decreases src.Repr, 1
    {
      var child := fields[key].at;
      assert Holds(fields[key], Contents[key], Kids[key]);
      assert Holds(src.fields[key], src.Contents[key], src.Kids[key]);
      collision := MergeObjects(child, src.fields[key].at);
      PairwiseNext(Kids, key, child.Repr);
      Account(key, child.Tree(), child.Repr);
    }
  }

  lemma PairwiseNext(kids: map<string, set<object>>, key: string, feet: set<object>)
    requires Pairwise(kids)
    requires forall other | other in kids && other != key :: feet !! kids[other]
    ensures Pairwise(kids[key := feet])
  {
  }

  ghost predicate Pairwise(kids: map<string, set<object>>) {
    forall key, other | key in kids && other in kids && key != other :: kids[key] !! kids[other]
  }

  /** Only `key` changed, and it now holds the merge of what it held with `source`; or
      the two differ at a path. */
  ghost predicate KeyMerged(was: map<string, Value>, key: string, source: Value, now: map<string, Value>,
                            collision: Option<seq<string>>) {
    && key in now && now == was[key := now[key]]
    && match collision
       case None => if key in was then Join(was[key], source) == Some(now[key]) else now[key] == source
       case Some(path) => key in was && Incompatible(was[key], source, path)
  }

  /** `now` is `a` with the keys of `b` merged in, but for those in `todo`. */
  ghost predicate Merging(a: map<string, Value>, b: map<string, Value>, now: map<string, Value>, todo: set<string>) {
    && todo <= b.Keys && now.Keys == a.Keys + (b.Keys - todo)
    && forall key | key in now ::
         if key !in b || key in todo then now[key] == a[key]
         else if key !in a then now[key] == b[key]
         else Join(a[key], b[key]) == Some(now[key])
  }

  lemma MergedIsJoin(a: map<string, Value>, b: map<string, Value>, now: map<string, Value>)
    requires Merging(a, b, now, {})
    ensures Join(Object(a), Object(b)) == Some(Object(now))
  {
    forall key | key in a && key in b ensures Join(a[key], b[key]) == Some(now[key]) { assert key in now; }
    var c := Join(Object(a), Object(b)).value.fields;
    assert c.Keys == now.Keys;
    assert forall key | key in now :: c[key] == now[key];
    assert c == now;
  }

  lemma MergingNext(a: map<string, Value>, b: map<string, Value>, now: map<string, Value>, todo: set<string>,
                    key: string, next: map<string, Value>)
    requires Merging(a, b, now, todo) && key in todo && KeyMerged(now, key, b[key], next, None)
    ensures Merging(a, b, next, todo - {key})
  {
  }

  lemma MergingCollides(a: map<string, Value>, b: map<string, Value>, now: map<string, Value>, todo: set<string>,
                        key: string, next: map<string, Value>, path: seq<string>)
    requires Merging(a, b, now, todo) && key in todo && KeyMerged(now, key, b[key], next, Some(path))
    ensures Incompatible(Object(a), Object(b), [key] + path)
  {
    IncompatibleBelow(Object(a), Object(b), key, path);
  }

  /** The maps of `dst` are the original ones, `roots`, and ones shared with `src`; under
      the keys still to do nothing is shared yet. */
  ghost predicate Ready(dst: JsonObject, src: JsonObject, todo: set<string>, roots: set<object>)
    reads dst, dst.Repr, src, src.Repr
  {
    && dst.Valid() && src.Valid() && dst in roots && src != dst && roots !! src.Repr && dst.Repr <= roots + src.Repr
    && todo <= src.fields.Keys
    && forall key | key in todo :: src.Kids[key] !! dst.Repr && (key in dst.fields ==> dst.Kids[key] <= roots)
  }

  /** One round of the loop. */
  method MergeKey(dst: JsonObject, src: JsonObject, key: string, ghost todo: set<string>, ghost roots: set<object>)
    returns (collision: Option<seq<string>>)
    requires Ready(dst, src, todo, roots) && key in todo
    modifies roots
    ensures Ready(dst, src, todo - {key}, roots)
    ensures KeyMerged(old(dst.Contents), key, src.Contents[key], dst.Contents, collision)
    decreases src.Repr, 3
  {
    if key in dst.fields {
      collision := MergeField(dst, src, key, todo, roots);
    } else {
      assert Accounted(src.fields, src.Contents, src.Kids, src.Repr - {src});
      dst.Put(key, src);
      collision := None;
    }
  }

  /** A key that both hold. */
  method MergeField(dst: JsonObject, src: JsonObject, key: string, ghost todo: set<string>, ghost roots: set<object>)
    returns (collision: Option<seq<string>>)
    requires Ready(dst, src, todo, roots) && key in todo && key in dst.fields
    modifies roots
    ensures Ready(dst, src, todo - {key}, roots)
    ensures KeyMerged(old(dst.Contents), key, src.Contents[key], dst.Contents, collision)
    decreases src.Repr, 2
  {
    assert Accounted(dst.fields, dst.Contents, dst.Kids, dst.Repr - {dst});
    assert Accounted(src.fields, src.Contents, src.Kids, src.Repr - {src});
    assert Holds(dst.fields[key], dst.Contents[key], dst.Kids[key]);
    assert Holds(src.fields[key], src.Contents[key], src.Kids[key]);
    var existing, source := dst.fields[key], src.fields[key];
    if existing.Branch? && source.Branch? {
      collision := dst.Descend(key, src);
    } else if existing.Branch? || source.Branch? || existing.value != source.value {
      collision := Some([]);
    } else {
      collision := None;
    }
  }

  /** mergeJSONObjects. The keys of `src` come in any order. A collision is reported with
      the path at which the two payloads differ. */
  method MergeObjects(dst: JsonObject, src: JsonObject) returns (collision: Option<seq<string>>)
    requires dst.Valid() && src.Valid() && dst.Repr !! src.Repr
    modifies dst.Repr
    ensures dst.Valid() && dst.Repr <= old(dst.Repr) + src.Repr
    ensures collision.None? ==> Join(old(dst.Tree()), src.Tree()) == Some(dst.Tree())
    ensures collision.Some? ==> Incompatible(old(dst.Tree()), src.Tree(), collision.value)
    decreases src.Repr, 4
  {
    var todo := src.fields.Keys;
    ghost var a, b, roots := dst.Contents, src.Contents, dst.Repr;
    while todo != {}
      invariant Ready(dst, src, todo, roots)
      invariant Merging(a, b, dst.Contents, todo)
      decreases todo
    {
      var key :| key in todo;
      ghost var now := dst.Contents;
      var apart := MergeKey(dst, src, key, todo, roots);
      if apart.Some? {
        MergingCollides(a, b, now, todo, key, dst.Contents, apart.value);
        return Some([key] + apart.value);
      }
      MergingNext(a, b, now, todo, key, dst.Contents);
      todo := todo - {key};
    }
    MergedIsJoin(a, b, dst.Contents);
    return None;
  }
}
