/**
  `useHasNonSavedChanges` of src/composables/hasNonSavedChanges.ts
  (lines 3-24): a tracker that keeps a copy of a form's data as last saved
  and a flag saying whether the data has drifted from that copy since.
*/
module NonSavedChanges {
  import opened JsonValues
  import opened DeepEquality

  /** The caller's observed value: a reference whose `value` the caller reassigns. */
  class Ref {
    var value: Json

    constructor (v: Json)
      ensures value == v
    {
      value := v;
    }
  }

  class ChangeTracker {
    /** The observed value; the tracker reads it and never writes it. */
    const data: Ref
    /** The copy taken at construction or at the last reset. */
    var rawInitial: Json
    var hasChanges: bool

    /** Snapshot the data, then run the watch callback once (`immediate: true`). */
    constructor (data: Ref)
      ensures this.data == data
      ensures rawInitial == data.value
      ensures !hasChanges
    {
      this.data := data;
      rawInitial := CloneDeep(data.value);
      hasChanges := false;
      new;
      CloneDeepIsIdentity(data.value);
      Notify();
      DeepEqualReflexive(data.value);
    }

    /** The watch callback, run after each change to the observed value. */
    method Notify()
      modifies this`hasChanges
      ensures hasChanges == !DeepEqual(data.value, rawInitial)
      ensures data.value == rawInitial ==> !hasChanges
      ensures unchanged(data)
    {
      hasChanges := !DeepEqual(CloneDeep(data.value), rawInitial);
      CloneDeepIsIdentity(data.value);
      DeepEqualReflexive(data.value);
    }

    /** `resetChanges`: the current data becomes the saved state. */
    method ResetChanges()
      modifies this`rawInitial, this`hasChanges
      ensures rawInitial == data.value && !hasChanges
      ensures hasChanges == !DeepEqual(data.value, rawInitial)
      ensures unchanged(data)
    {
      rawInitial := CloneDeep(data.value);
      hasChanges := false;
      CloneDeepIsIdentity(data.value);
      DeepEqualReflexive(data.value);
    }
  }

  /** A form holding a name and a list of tags. */
  function Form(tags: seq<Json>): Json
  {
    Obj(map["name" := Str("x"), "tags" := Arr(tags)])
  }

  /** Forms whose tag lists differ in length are not deep-equal. */
  lemma {:induction false} TagCountChangeIsAChange(tags: seq<Json>, tags': seq<Json>)
    requires |tags| != |tags'|
    ensures !DeepEqual(Form(tags), Form(tags'))
  {
    var m, m' := Form(tags).fields, Form(tags').fields;
    DeepEqualArrays(tags, tags');
    assert "tags" in m && m["tags"] == Arr(tags) && m'["tags"] == Arr(tags');
    assert !DeepEqual(m["tags"], m'["tags"]);
    DeepEqualObjects(m, m');
  }

  /**
    A form edited through the tracker: created clean, dirty after pushing a
    tag, clean again once the tag is popped, dirty after pushing it again,
    clean after a reset and unchanged by a second reset.
  */
  method EditSession() returns (flags: seq<bool>, savedOnce: Json, saved: Json)
    ensures flags == [false, true, false, true, false, false]
    ensures savedOnce == saved == Form([Num(1), Num(2), Num(3)])
  {
    var original, pushed := Form([Num(1), Num(2)]), Form([Num(1), Num(2), Num(3)]);
    TagCountChangeIsAChange([Num(1), Num(2), Num(3)], [Num(1), Num(2)]);

    var form := new Ref(original);
    var tracker := new ChangeTracker(form);
    var created := tracker.hasChanges;

    form.value := pushed;
    tracker.Notify();
    var afterPush := tracker.hasChanges;

    form.value := original;
    tracker.Notify();
    var afterPop := tracker.hasChanges;

    form.value := pushed;
    tracker.Notify();
    var afterRepush := tracker.hasChanges;

    tracker.ResetChanges();
    var afterReset := tracker.hasChanges;
    savedOnce := tracker.rawInitial;

    tracker.ResetChanges();
    flags := [created, afterPush, afterPop, afterRepush, afterReset, tracker.hasChanges];
    saved := tracker.rawInitial;
  }
}
