/** `mergeMissing` of internal/environment/defaults.go: defaults fill the gaps of a document. */
module MergeMissing {
  import opened Options
  import opened Documents

  /** A value completed from its default: null and missing give way, objects are completed key by key, anything else
      stays. */
  function Completed(current: Value, fallback: Value): Value
    decreases fallback
  {
    if current.Null? then fallback
    else if current.Object? && fallback.Object? then
      Object(map key | key in current.fields.Keys + fallback.fields.Keys ::
        if key !in fallback.fields then current.fields[key]
        else if key !in current.fields then fallback.fields[key]
        else Completed(current.fields[key], fallback.fields[key]))
    else current
  }

  function Merged(target: Fields, defaults: Fields): (merged: Fields)
    ensures merged.Keys == target.Keys + defaults.Keys
  {
    Completed(Object(target), Object(defaults)).fields
  }

  /** The loop over the defaults, with its recursion into objects. */
  method Merge(target: Fields, defaults: Value) returns (merged: Fields)
    requires defaults.Object?
    ensures merged == Merged(target, defaults.fields)
    decreases defaults
  {
    merged := target;
    var rest := defaults.fields.Keys;
    while rest != {}
      invariant rest <= defaults.fields.Keys
      invariant merged.Keys == target.Keys + (defaults.fields.Keys - rest)
      invariant forall key | key in merged && (key !in defaults.fields || key in rest) :: merged[key] == target[key]
      invariant forall key | key in defaults.fields && key !in rest ::
        merged[key] == Completed(Get(target, key), defaults.fields[key])
      decreases rest
    {
      var key :| key in rest;
      var fallback := defaults.fields[key];
      if key !in merged || merged[key].Null? {
        merged := merged[key := fallback];
      } else if merged[key].Object? && fallback.Object? {
        var inner := Merge(merged[key].fields, fallback);
        merged := merged[key := Object(inner)];
      }
      rest := rest - {key};
    }
    assert merged == Merged(target, defaults.fields);
  }

  // ---------------------------------------------------------------- what the user chose stays

  /** The value at the end of a path of keys. */
  function Find(value: Value, path: seq<string>): Option<Value>
    decreases |path|
  {
    if path == [] then Some(value)
    else if value.Object? && path[0] in value.fields then Find(value.fields[path[0]], path[1..])
    else None
  }

  predicate IsLeaf(value: Value) { !value.Null? && !value.Object? }

  /** No default ever replaces a leaf of the user's document, at any depth. */
  lemma {:induction false} LeavesStay(current: Value, fallback: Value, path: seq<string>)
    requires Find(current, path).Some? && IsLeaf(Find(current, path).value)
    ensures Find(Completed(current, fallback), path) == Find(current, path)
    decreases |path|
  {
    if path != [] && fallback.Object? && path[0] in fallback.fields {
      LeavesStay(current.fields[path[0]], fallback.fields[path[0]], path[1..]);
    }
  }

  /** What the defaults have is there afterwards, unless the user's document has something else on the way. */
  lemma {:induction false} DefaultsArrive(current: Value, fallback: Value, path: seq<string>)
    requires Find(fallback, path).Some?
    requires forall n | 0 <= n <= |path| && Find(current, path[..n]).Some? ::
      Find(current, path[..n]).value.Null? || (Find(current, path[..n]).value.Object? && n < |path|)
    ensures Find(Completed(current, fallback), path) == Find(fallback, path)
    decreases |path|
  {
    assert path[..0] == [];
    if path != [] && current.Object? && path[0] in current.fields {
      forall n | 0 <= n <= |path| - 1 && Find(current.fields[path[0]], path[1..][..n]).Some?
        ensures var found := Find(current.fields[path[0]], path[1..][..n]).value;
          found.Null? || (found.Object? && n < |path| - 1)
      {
        assert path[..n + 1][1..] == path[1..][..n];
        assert Find(current, path[..n + 1]) == Find(current.fields[path[0]], path[1..][..n]);
      }
      DefaultsArrive(current.fields[path[0]], fallback.fields[path[0]], path[1..]);
    }
  }

  /** Where the defaults say nothing the document stays as it is, whatever is there. */
  lemma {:induction false} NothingElseChanges(current: Value, fallback: Value, path: seq<string>)
    requires Find(current, path).Some? && Find(fallback, path).None?
    ensures Find(Completed(current, fallback), path) == Find(current, path)
    decreases |path|
  {
    if path != [] && fallback.Object? && path[0] in fallback.fields {
      NothingElseChanges(current.fields[path[0]], fallback.fields[path[0]], path[1..]);
    }
  }

  /** Nothing is made up: whatever is there afterwards was in the document or in the defaults. */
  lemma {:induction false} NothingIsMadeUp(current: Value, fallback: Value, path: seq<string>)
    requires Find(Completed(current, fallback), path).Some?
    ensures Find(current, path).Some? || Find(fallback, path).Some?
    ensures Find(current, path).Some? && !Find(current, path).value.Null? && !Find(current, path).value.Object? ==>
      Find(Completed(current, fallback), path) == Find(current, path)
    ensures Find(current, path).Some? && Find(current, path).value.Object? ==> Find(Completed(current, fallback), path).value.Object?
    decreases |path|
  {
    if path != [] && current.Object? && fallback.Object? && path[0] in current.fields && path[0] in fallback.fields {
      NothingIsMadeUp(current.fields[path[0]], fallback.fields[path[0]], path[1..]);
    }
  }

  lemma {:induction false} CompletedBySelf(value: Value)
    ensures Completed(value, value) == value
    decreases value
  {
    if value.Object? {
      forall key | key in value.fields ensures Completed(value.fields[key], value.fields[key]) == value.fields[key] {
        CompletedBySelf(value.fields[key]);
      }
      assert Completed(value, value).fields == value.fields;
    }
  }

  /** Merging the same defaults again changes nothing. */
  lemma {:induction false} SecondMergeChangesNothing(current: Value, fallback: Value)
    ensures Completed(Completed(current, fallback), fallback) == Completed(current, fallback)
    decreases fallback
  {
    if current.Null? {
      CompletedBySelf(fallback);
    } else if current.Object? && fallback.Object? {
      var once := Completed(current, fallback);
      forall key | key in once.fields && key in fallback.fields
        ensures Completed(once.fields[key], fallback.fields[key]) == once.fields[key]
      {
        if key in current.fields {
          SecondMergeChangesNothing(current.fields[key], fallback.fields[key]);
        } else {
          CompletedBySelf(fallback.fields[key]);
        }
      }
      assert Completed(once, fallback).fields == once.fields;
    }
  }
}
