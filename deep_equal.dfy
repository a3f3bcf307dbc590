/**
  The comparison and the copy behind the unsaved-changes tracker of
  src/composables/hasNonSavedChanges.ts: `deepEqual` (lines 31-49) and
  `cloneDeep` (lines 26-29), over JSON values.
*/
module DeepEquality {
  import opened JsonValues

  /**
    `a === b` on the operands `deepEqual` is given: primitives compare by
    value. The operands are fresh results of `JSON.parse`, so no array or
    object of one is the same object as an array or object of the other,
    and `===` is false on composites.
  */
  predicate StrictEquals(a: Json, b: Json)
    ensures StrictEquals(a, b) <==> !IsComposite(a) && a == b
  {
    match (a, b)
    case (Null, Null) => true
    case (Bool(x), Bool(y)) => x == y
    case (Num(x), Num(y)) => x == y
    case (Str(x), Str(y)) => x == y
    case _ => false
  }

  /**
    `deepEqual(a, b)`: identity, then the runtime kind, then null, then
    primitives; two arrays or objects are compared through their keys alone,
    so an array and an object with the same keys and members are equal.
  */
  predicate DeepEqual(a: Json, b: Json)
    ensures DeepEqual(a, b) ==> TypeOf(a) == TypeOf(b) && (a.Null? <==> b.Null?)
    decreases a
  {
    if StrictEquals(a, b) then true
    else if TypeOf(a) != TypeOf(b) then false
    else if a.Null? || b.Null? then false
    else if TypeOf(a) != ObjectKind then false
    else
      |Keys(a)| == |Keys(b)| &&
      forall k | k in Keys(a) :: k in Keys(b) && DeepEqual(Member(a, k), Member(b, k))
  }

  /**
    `cloneDeep`: `JSON.parse(JSON.stringify(j))` rebuilds every array and
    object of a JSON value afresh, member by member.
  */
  function CloneDeep(j: Json): (r: Json)
    ensures TypeOf(r) == TypeOf(j)
    ensures IsComposite(j) ==> IsComposite(r) && Keys(r) == Keys(j)
  {
    match j
    case Arr(s) => Arr(seq(|s|, i requires 0 <= i < |s| => CloneDeep(s[i])))
    case Obj(m) => Obj(map k | k in m :: CloneDeep(m[k]))
    case _ => j
  }

  /** On JSON values the copy loses nothing: it is the value itself. */
  lemma {:induction false} CloneDeepIsIdentity(j: Json)
    ensures CloneDeep(j) == j
  {
    match j
    case Arr(s) =>
      forall i | 0 <= i < |s| ensures CloneDeep(s[i]) == s[i] {
        CloneDeepIsIdentity(s[i]);
      }
      assert CloneDeep(j).items == s;
    case Obj(m) =>
      forall k | k in m ensures CloneDeep(m[k]) == m[k] {
        CloneDeepIsIdentity(m[k]);
      }
      assert CloneDeep(j).fields == m;
    case _ =>
  }

  /**
    The shape `deepEqual` actually sees: every array turned into the object
    keyed by its indices, all the way down.
  */
  function KeyedForm(j: Json): (r: Json)
    ensures TypeOf(r) == TypeOf(j) && r.Null? == j.Null?
    ensures !IsComposite(j) ==> r == j
    decreases j
  {
    if IsComposite(j) then Obj(map k | k in Keys(j) :: KeyedForm(Member(j, k))) else j
  }

  lemma SubsetOfSameSize(a: set<string>, b: set<string>)
    requires a <= b && |a| == |b|
    ensures a == b
  {
    if a != b {
      var x :| x in b && x !in a;
      assert a <= b - {x};
      SubsetSize(a, b - {x});
    }
  }

  lemma {:induction false} SubsetSize(a: set<string>, b: set<string>)
    requires a <= b
    ensures |a| <= |b|
    decreases a
  {
    if a != {} {
      var x :| x in a;
      SubsetSize(a - {x}, b - {x});
    }
  }

  lemma KeyedFormOfComposite(j: Json)
    requires IsComposite(j)
    ensures KeyedForm(j).Obj? && KeyedForm(j).fields.Keys == Keys(j)
    ensures forall k | k in Keys(j) :: KeyedForm(j).fields[k] == KeyedForm(Member(j, k))
  {
  }

  /** Two arrays or objects: the key loop of `deepEqual`. */
  lemma CompositeUnfold(a: Json, b: Json)
    requires IsComposite(a) && IsComposite(b)
    ensures DeepEqual(a, b) <==>
      |Keys(a)| == |Keys(b)| && forall k | k in Keys(a) :: k in Keys(b) && DeepEqual(Member(a, k), Member(b, k))
  {
  }

  /** Composites with the same keys and members of equal keyed forms have equal keyed forms. */
  lemma KeyedFormsAgree(a: Json, b: Json)
    requires IsComposite(a) && IsComposite(b) && Keys(a) == Keys(b)
    requires forall k | k in Keys(a) :: KeyedForm(Member(a, k)) == KeyedForm(Member(b, k))
    ensures KeyedForm(a) == KeyedForm(b)
  {
    KeyedFormOfComposite(a);
    KeyedFormOfComposite(b);
    assert KeyedForm(a).fields == KeyedForm(b).fields;
  }

  /** Composites with equal keyed forms, whose members are deep-equal where their keyed forms agree, are deep-equal. */
  lemma CompositeStepBackward(a: Json, b: Json)
    requires IsComposite(a) && IsComposite(b) && KeyedForm(a) == KeyedForm(b)
    requires forall k | k in Keys(a) && k in Keys(b) ::
      KeyedForm(Member(a, k)) == KeyedForm(Member(b, k)) ==> DeepEqual(Member(a, k), Member(b, k))
    ensures DeepEqual(a, b)
  {
    KeyedFormOfComposite(a);
    KeyedFormOfComposite(b);
    assert Keys(a) == Keys(b);
    CompositeUnfold(a, b);
  }

  /**
    The heart of the model: two values are deep-equal exactly when their
    keyed forms are the same value. Equal key counts together with the keys
    of `a` being keys of `b` make the key sets the same.
  */
  lemma {:induction false} DeepEqualIffSameKeyedForm(a: Json, b: Json)
    ensures DeepEqual(a, b) <==> KeyedForm(a) == KeyedForm(b)
    decreases a
  {
    if !IsComposite(a) || !IsComposite(b) {
      DeepEqualOnPrimitives(a, b);
    } else {
      forall k | k in Keys(a) && k in Keys(b)
        ensures DeepEqual(Member(a, k), Member(b, k)) <==> KeyedForm(Member(a, k)) == KeyedForm(Member(b, k))
      {
        DeepEqualIffSameKeyedForm(Member(a, k), Member(b, k));
      }
      if DeepEqual(a, b) {
        CompositeUnfold(a, b);
        SubsetOfSameSize(Keys(a), Keys(b));
        KeyedFormsAgree(a, b);
      }
      if KeyedForm(a) == KeyedForm(b) {
        CompositeStepBackward(a, b);
      }
    }
  }

  lemma {:induction false} DeepEqualReflexive(a: Json)
    ensures DeepEqual(a, a)
  {
    DeepEqualIffSameKeyedForm(a, a);
  }

  lemma {:induction false} DeepEqualSymmetric(a: Json, b: Json)
    ensures DeepEqual(a, b) <==> DeepEqual(b, a)
  {
    DeepEqualIffSameKeyedForm(a, b);
    DeepEqualIffSameKeyedForm(b, a);
  }

  lemma {:induction false} DeepEqualTransitive(a: Json, b: Json, c: Json)
    requires DeepEqual(a, b) && DeepEqual(b, c)
    ensures DeepEqual(a, c)
  {
    DeepEqualIffSameKeyedForm(a, b);
    DeepEqualIffSameKeyedForm(b, c);
    DeepEqualIffSameKeyedForm(a, c);
  }

  /** A value and its copy compare equal, in either order. */
  lemma {:induction false} CloneIsDeepEqual(v: Json)
    ensures DeepEqual(CloneDeep(v), v) && DeepEqual(v, CloneDeep(v))
  {
    CloneDeepIsIdentity(v);
    DeepEqualReflexive(v);
  }

  /**
    When either side is a primitive or null, deep equality is plain equality:
    different kinds never compare equal, null equals only null, and
    primitives compare by value.
  */
  lemma DeepEqualOnPrimitives(a: Json, b: Json)
    requires !IsComposite(a) || !IsComposite(b)
    ensures DeepEqual(a, b) <==> a == b
    ensures TypeOf(a) != TypeOf(b) ==> !DeepEqual(a, b)
    ensures a.Null? ==> (DeepEqual(a, b) <==> b.Null?)
  {
  }

  /**
    Two arrays or objects are deep-equal exactly when they have the same
    keys and deep-equal members under each key.
  */
  lemma {:induction false} DeepEqualComposite(a: Json, b: Json)
    requires IsComposite(a) && IsComposite(b)
    ensures DeepEqual(a, b) <==>
      Keys(a) == Keys(b) && forall k | k in Keys(a) :: DeepEqual(Member(a, k), Member(b, k))
  {
    if DeepEqual(a, b) && !StrictEquals(a, b) {
      SubsetOfSameSize(Keys(a), Keys(b));
    }
  }

  /** Arrays compare by length and element by element, in order. */
  lemma {:induction false} DeepEqualArrays(s: seq<Json>, t: seq<Json>)
    ensures DeepEqual(Arr(s), Arr(t)) <==>
      |s| == |t| && forall i | 0 <= i < |s| :: DeepEqual(s[i], t[i])
  {
    ArrayKeys(s);
    ArrayKeys(t);
    DeepEqualComposite(Arr(s), Arr(t));
    if |s| == |t| {
      assert Keys(Arr(s)) == Keys(Arr(t));
    }
  }

  /** Objects compare by key set and member by member; key order plays no part. */
  lemma {:induction false} DeepEqualObjects(m: map<string, Json>, n: map<string, Json>)
    ensures DeepEqual(Obj(m), Obj(n)) <==>
      m.Keys == n.Keys && forall k | k in m :: DeepEqual(m[k], n[k])
  {
    DeepEqualComposite(Obj(m), Obj(n));
  }

  /**
    No distinction between arrays and objects: an array is deep-equal to the
    object whose keys are its indices' numerals and whose members are its
    elements.
  */
  lemma {:induction false} DeepEqualArrayObject(s: seq<Json>, m: map<string, Json>)
    ensures DeepEqual(Arr(s), Obj(m)) <==>
      m.Keys == IndexKeys(|s|) && forall i | 0 <= i < |s| :: DeepEqual(s[i], m[IndexKey(i)])
  {
    ArrayKeys(s);
    DeepEqualComposite(Arr(s), Obj(m));
  }

  /** Element order matters: [1, 2, 3] and [3, 2, 1] differ. */
  lemma ArrayOrderMatters()
    ensures !DeepEqual(Arr([Num(1), Num(2), Num(3)]), Arr([Num(3), Num(2), Num(1)]))
  {
    var s, t := [Num(1), Num(2), Num(3)], [Num(3), Num(2), Num(1)];
    DeepEqualArrays(s, t);
    DeepEqualOnPrimitives(s[0], t[0]);
  }

  /** An array of one element is deep-equal to the object {"0": element}. */
  lemma SingletonArrayEqualsIndexObject(x: Json)
    ensures DeepEqual(Arr([x]), Obj(map["0" := x]))
  {
    assert IndexKey(0) == "0";
    assert IndexKeys(1) == {"0"};
    DeepEqualReflexive(x);
    DeepEqualArrayObject([x], map["0" := x]);
  }
}
