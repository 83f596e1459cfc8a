/**
 The inner `recursiveSetObject` of `modify`: walk a plain object along a list
 of keys, replacing every value that is not object-typed with `{}` on the way,
 and assign the value at the last key.
 */
module SetObject {
  import opened Values

  /**
   The object after the walk, and the error if the walk threw part way. The
   JavaScript mutates in place, so on a throw `obj` is what the object holds
   at that moment.
   */
  datatype SetResult = SetResult(obj: map<string, Value>, thrown: Option<JsError>)

  /** The message V8 gives when a property of `null` is read. */
  function NullRead(key: string): JsError {
    TypeError("Cannot read properties of null (reading '" + key + "')")
  }

  /** `recursiveSetObject(obj, path, v)` on a plain object. */
  function SetPath(obj: map<string, Value>, path: seq<string>, v: Value): (r: SetResult)
    requires |path| >= 1
    ensures r.obj.Keys == obj.Keys + {path[0]}
    ensures forall k :: k in obj && k != path[0] ==> r.obj[k] == obj[k]
    ensures r.thrown.None? || r.thrown.value.TypeError?
    decreases |path|
  {
    var key := path[0];
    var o1 := if IsObjectTyped(Lookup(obj, key)) then obj else obj[key := Obj(map[])];
    if |path| == 1 then
      SetResult(o1[key := v], None)
    else if o1[key].Obj? then
      var sub := SetPath(o1[key].fields, path[1..], v);
      SetResult(o1[key := Obj(sub.obj)], sub.thrown)
    else
      // only `null` is object-typed and not a plain object: reading a key of it throws
      SetResult(o1, Some(NullRead(path[1])))
  }

  /** The nested object that a walk through fresh `{}` containers builds. */
  function Build(path: seq<string>, v: Value): (r: map<string, Value>)
    requires |path| >= 1
    ensures r.Keys == {path[0]}
    decreases |path|
  {
    map[path[0] := if |path| == 1 then v else Obj(Build(path[1..], v))]
  }

  /** A walk that throws has written nothing: the object is as it was. */
  lemma {:induction false} FailureUnchanged(obj: map<string, Value>, path: seq<string>, v: Value)
    requires |path| >= 1
    ensures SetPath(obj, path, v).thrown.Some? ==> SetPath(obj, path, v).obj == obj
    decreases |path|
  {
    var key := path[0];
    if |path| > 1 {
      if !IsObjectTyped(Lookup(obj, key)) {
        OnEmpty(path[1..], v);
      } else if obj[key].Obj? {
        FailureUnchanged(obj[key].fields, path[1..], v);
        assert obj[key := Obj(obj[key].fields)] == obj;
      }
    }
  }

  /** After a walk that did not throw, following the path reaches exactly `v`. */
  lemma {:induction false} Reaches(obj: map<string, Value>, path: seq<string>, v: Value)
    requires |path| >= 1
    requires SetPath(obj, path, v).thrown.None?
    ensures Follow(Obj(SetPath(obj, path, v).obj), path) == Some(v)
    decreases |path|
  {
    var key := path[0];
    var o1 := if IsObjectTyped(Lookup(obj, key)) then obj else obj[key := Obj(map[])];
    if |path| > 1 && o1[key].Obj? {
      Reaches(o1[key].fields, path[1..], v);
    }
  }

  /** A walk on an empty object builds the nested path and never throws. */
  lemma {:induction false} OnEmpty(path: seq<string>, v: Value)
    requires |path| >= 1
    ensures SetPath(map[], path, v) == SetResult(Build(path, v), None)
    decreases |path|
  {
    if |path| > 1 {
      OnEmpty(path[1..], v);
    }
  }

  /**
   The walk throws exactly when some proper, non-empty prefix of the path
   leads to `null`: `null` is object-typed, so it is not replaced, and the
   next key is then read from it.
   */
  lemma {:induction false} ThrowsIffNull(obj: map<string, Value>, path: seq<string>, v: Value)
    requires |path| >= 1
    ensures SetPath(obj, path, v).thrown.Some?
        <==> exists j :: 0 < j < |path| && Follow(Obj(obj), path[..j]) == Some(Null)
    decreases |path|
  {
    var key := path[0];
    var tail := path[1..];
    var r := SetPath(obj, path, v);
    if |path| == 1 {
    } else if !IsObjectTyped(Lookup(obj, key)) {
      OnEmpty(tail, v);
      forall j | 0 < j < |path| ensures Follow(Obj(obj), path[..j]) != Some(Null) {
        FollowStep(obj, path, j);
      }
    } else if obj[key] == Null {
      FollowStep(obj, path, 1);
      assert Follow(Obj(obj), path[..1]) == Some(Null);
    } else {
      var m := obj[key].fields;
      ThrowsIffNull(m, tail, v);
      forall j | 0 < j < |path|
        ensures Follow(Obj(obj), path[..j]) == Follow(Obj(m), tail[..j - 1])
      {
        FollowStep(obj, path, j);
      }
      if r.thrown.Some? {
        var j :| 0 < j < |tail| && Follow(Obj(m), tail[..j]) == Some(Null);
        assert Follow(Obj(obj), path[..j + 1]) == Some(Null);
      } else {
        forall j | 0 < j < |path| ensures Follow(Obj(obj), path[..j]) != Some(Null) {
          if j == 1 {
            assert tail[..0] == [];
          }
        }
      }
    }
  }

  /**
   Merge, not replace: at every object the path passes through, only the
   path's own key is written. Every other key, and its value, is kept.
   */
  lemma {:induction false} KeepsSiblings(obj: map<string, Value>, path: seq<string>, v: Value,
                                         j: nat, m: map<string, Value>)
    requires j < |path|
    requires SetPath(obj, path, v).thrown.None?
    requires Follow(Obj(obj), path[..j]) == Some(Obj(m))
    ensures Follow(Obj(SetPath(obj, path, v).obj), path[..j]).Some?
    ensures Follow(Obj(SetPath(obj, path, v).obj), path[..j]).value.Obj?
    ensures var m' := Follow(Obj(SetPath(obj, path, v).obj), path[..j]).value.fields;
      && m'.Keys == m.Keys + {path[j]}
      && forall k :: k in m && k != path[j] ==> m'[k] == m[k]
    decreases j
  {
    var r := SetPath(obj, path, v);
    if j > 0 {
      var key := path[0];
      var tail := path[1..];
      FollowStep(obj, path, j);
      FollowStep(r.obj, path, j);
      // the key leads on to `m`, so it held a plain object that the walk entered
      assert key in obj && obj[key].Obj?;
      KeepsSiblings(obj[key].fields, tail, v, j - 1, m);
    }
  }

  /**
   Destructive overwrite: when a non-final key on the path holds a value that
   is not object-typed (or nothing), that value is thrown away and replaced by
   a fresh object holding only the rest of the path.
   */
  lemma {:induction false} OverwritesPrimitive(obj: map<string, Value>, path: seq<string>, v: Value,
                                               j: nat, m: map<string, Value>)
    requires j + 1 < |path|
    requires Follow(Obj(obj), path[..j]) == Some(Obj(m))
    requires !IsObjectTyped(Lookup(m, path[j]))
    ensures SetPath(obj, path, v).thrown.None?
    ensures Follow(Obj(SetPath(obj, path, v).obj), path[..j + 1]) == Some(Obj(Build(path[j + 1..], v)))
    decreases j
  {
    var r := SetPath(obj, path, v);
    var key := path[0];
    if j == 0 {
      assert path[..1] == [key];
      OnEmpty(path[1..], v);
    } else {
      var tail := path[1..];
      assert tail[j..] == path[j + 1..];
      FollowStep(obj, path, j);
      FollowStep(r.obj, path, j + 1);
      assert key in obj && obj[key].Obj?;
      OverwritesPrimitive(obj[key].fields, tail, v, j - 1, m);
    }
  }

  /**
   Writing the same path again after a walk that went through cannot throw,
   and the second value is the one found at the path.
   */
  lemma Rewrite(obj: map<string, Value>, path: seq<string>, v1: Value, v2: Value)
    requires |path| >= 1
    requires SetPath(obj, path, v1).thrown.None?
    ensures SetPath(SetPath(obj, path, v1).obj, path, v2).thrown.None?
    ensures Follow(Obj(SetPath(SetPath(obj, path, v1).obj, path, v2).obj), path) == Some(v2)
  {
    var o := SetPath(obj, path, v1).obj;
    Reaches(obj, path, v1);
    forall j | 0 < j < |path| ensures Follow(Obj(o), path[..j]) != Some(Null) {
      PrefixIsObject(Obj(o), path, j);
    }
    ThrowsIffNull(o, path, v2);
    Reaches(o, path, v2);
  }
}
