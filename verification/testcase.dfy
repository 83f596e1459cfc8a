/**
 The `TestCase` template: its default-arguments object (`testObject`), the
 order in which the target function takes those arguments (`argOrder`), and
 the operations on them: `toObject`, `toArgs` and `modify`.
 */
module TestCases {
  import opened Values
  import opened Paths
  import opened SetObject

  /** The data part of a `TestCase` instance. */
  datatype TestCase = TestCase(testObject: map<string, Value>, argOrder: seq<string>)

  /** `new TestCase()`: no default arguments and no argument order. */
  function New(): TestCase {
    TestCase(map[], [])
  }

  /** A freshly constructed instance passes no arguments to its target. */
  lemma NewHasNoArgs()
    ensures ToArgs(New()) == []
  {
  }

  // ---------------------------------------------------------------- toObject

  /**
   The structure `JSON.parse(JSON.stringify(v))` gives back for a value that
   sits under an object key: object keys holding `undefined` are dropped, at
   every depth; everything else is rebuilt as it was.
   */
  function JsonClone(v: Value): (r: Value)
    ensures v != Undefined ==> Representable(r)
    ensures Representable(v) ==> r == v
    ensures v.Obj? <==> r.Obj?
  {
    match v
    case Obj(m) =>
      var kept := map k | k in m && m[k] != Undefined :: JsonClone(m[k]);
      assert Representable(Obj(m)) ==> kept == m by {
        if Representable(Obj(m)) {
          forall k | k in m ensures m[k] != Undefined {
            assert Representable(m[k]);
          }
          assert kept.Keys == m.Keys;
        }
      }
      Obj(kept)
    case _ => v
  }

  /** `toObject()`: a copy of the default-arguments object through JSON. */
  function ToObject(tc: TestCase): (copy: map<string, Value>)
    ensures Representable(Obj(copy))
    ensures copy.Keys == set k | k in tc.testObject && tc.testObject[k] != Undefined
    ensures Representable(Obj(tc.testObject)) ==> copy == tc.testObject
  {
    JsonClone(Obj(tc.testObject)).fields
  }

  /** Copying a copy changes nothing. */
  lemma ToObjectIdempotent(tc: TestCase)
    ensures ToObject(tc.(testObject := ToObject(tc))) == ToObject(tc)
  {
  }

  // ------------------------------------------------------------------ toArgs

  /**
   `toArgs()`: for each name in `argOrder`, in order, the top-level value of
   that name in `testObject`; a missing name gives `undefined`.
   */
  function ToArgs(tc: TestCase): (args: seq<Value>)
    ensures |args| == |tc.argOrder|
    ensures forall i :: 0 <= i < |args| ==> args[i] == Lookup(tc.testObject, tc.argOrder[i])
    decreases |tc.argOrder|
  {
    var n := |tc.argOrder|;
    if n == 0 then []
    else ToArgs(tc.(argOrder := tc.argOrder[..n - 1])) + [Lookup(tc.testObject, tc.argOrder[n - 1])]
  }

  // ------------------------------------------------------------------ modify

  /** The first argument of `modify`: an array of records, or any other value. */
  datatype Arg = Single(v: Value) | List(items: seq<Value>)

  /** A modification record `{path, value}`. */
  function Record(path: string, value: Value): Value {
    Obj(map["path" := Str(path), "value" := value])
  }

  /** A record once `mod.path` and `mod.value` have been read from it. */
  datatype Mod = Mod(path: string, value: Value)

  /**
   The list `modify` iterates over. A string with a value becomes one record;
   an array is taken as it is; any other object-typed value (a record, or
   `null`) is wrapped in a one-element list. Anything else is iterated with
   `for ... in`: a string yields its characters and a number, a boolean or
   `undefined` yields nothing.
   */
  function Normalize(arg1: Arg, arg2: Value): (mods: seq<Value>)
    ensures arg1.Single? && arg1.v.Str? && arg2 != Undefined ==> mods == [Record(arg1.v.s, arg2)]
    ensures arg1.Single? && IsObjectTyped(arg1.v) ==> mods == [arg1.v]
    ensures arg1.List? ==> mods == arg1.items
    ensures arg1.Single? && !arg1.v.Str? && !IsObjectTyped(arg1.v) ==> mods == []
    ensures arg1.Single? && arg1.v.Str? && arg2 == Undefined ==>
      |mods| == |arg1.v.s| && forall i :: 0 <= i < |mods| ==> mods[i] == Str([arg1.v.s[i]])
  {
    match arg1
    case List(items) => items
    case Single(v) =>
      if v.Str? && arg2 != Undefined then [Record(v.s, arg2)]
      else if IsObjectTyped(v) then [v]
      else if v.Str? then seq(|v.s|, i requires 0 <= i < |v.s| => Str([v.s[i]]))
      else []
  }

  /** Reading `mod.path` and `mod.value`, where `mod.path.split` must exist. */
  function ReadMod(mod: Value): (r: Result<Mod>)
    ensures r.Ok? <==> mod.Obj? && Lookup(mod.fields, "path").Str?
    ensures r.Ok? ==> r.value == Mod(mod.fields["path"].s, Lookup(mod.fields, "value"))
    ensures r.Fail? ==> r.error.TypeError?
  {
    match mod
    case Obj(m) =>
      (match Lookup(m, "path")
       case Str(p) => Ok(Mod(p, Lookup(m, "value")))
       case Undefined => Fail(TypeError("Cannot read properties of undefined (reading 'split')"))
       case Null => Fail(TypeError("Cannot read properties of null (reading 'split')"))
       case _ => Fail(TypeError("mod.path.split is not a function")))
    case Null => Fail(TypeError("Cannot read properties of null (reading 'path')"))
    case Undefined => Fail(TypeError("Cannot read properties of undefined (reading 'path')"))
    case _ => Fail(TypeError("Cannot read properties of undefined (reading 'split')"))
  }

  /** The loop of `modify`: each record in turn, stopping at the first throw. */
  function ApplyMods(obj: map<string, Value>, mods: seq<Value>): (r: SetResult)
    ensures r.thrown.None? || r.thrown.value.TypeError?
    ensures obj.Keys <= r.obj.Keys
    decreases |mods|
  {
    if |mods| == 0 then SetResult(obj, None)
    else
      match ReadMod(mods[0])
      case Fail(e) => SetResult(obj, Some(e))
      case Ok(mod) =>
        var r := SetPath(obj, Split(mod.path), mod.value);
        if r.thrown.Some? then r else ApplyMods(r.obj, mods[1..])
  }

  /** Applying `xs + ys` is applying `xs` and then, unless that threw, `ys`. */
  lemma {:induction false} ApplyModsAppend(obj: map<string, Value>, xs: seq<Value>, ys: seq<Value>)
    ensures var first := ApplyMods(obj, xs);
      ApplyMods(obj, xs + ys) == if first.thrown.Some? then first else ApplyMods(first.obj, ys)
    decreases |xs|
  {
    if |xs| == 0 {
      assert xs + ys == ys;
    } else {
      assert (xs + ys)[0] == xs[0];
      assert (xs + ys)[1..] == xs[1..] + ys;
      match ReadMod(xs[0])
      case Fail(_) =>
      case Ok(mod) =>
        var r := SetPath(obj, Split(mod.path), mod.value);
        if r.thrown.None? {
          ApplyModsAppend(r.obj, xs[1..], ys);
        }
    }
  }

  /** The instance after `modify`, and the error if `modify` threw. */
  datatype Outcome = Outcome(tc: TestCase, thrown: Option<JsError>)

  /**
   `modify(arg1, arg2)`. It returns the instance itself, so a chain
   `x.modify(a).modify(b)` is one call applied to the other's `tc`.
   */
  function Modify(tc: TestCase, arg1: Arg, arg2: Value): (out: Outcome)
    ensures out.tc.argOrder == tc.argOrder
    ensures out.thrown.None? || out.thrown.value.TypeError?
    ensures tc.testObject.Keys <= out.tc.testObject.Keys
  {
    var r := ApplyMods(tc.testObject, Normalize(arg1, arg2));
    Outcome(tc.(testObject := r.obj), r.thrown)
  }

  /**
   `modify(path, v)` with a value: it throws exactly when a proper prefix of
   the path's segments leads to `null`, and then changes nothing; otherwise
   following the segments from the root reaches exactly `v`.
   */
  lemma ModifyPath(tc: TestCase, path: string, v: Value)
    requires v != Undefined
    ensures var out := Modify(tc, Single(Str(path)), v);
      && (out.thrown.Some? <==> exists j :: 0 < j < |Split(path)|
                                  && Follow(Obj(tc.testObject), Split(path)[..j]) == Some(Null))
      && (out.thrown.Some? ==> out.tc == tc)
      && (out.thrown.None? ==> Follow(Obj(out.tc.testObject), Split(path)) == Some(v))
  {
    var segs := Split(path);
    var r := SetPath(tc.testObject, segs, v);
    ModifyOne(tc, path, v);
    ThrowsIffNull(tc.testObject, segs, v);
    FailureUnchanged(tc.testObject, segs, v);
    if r.thrown.None? {
      Reaches(tc.testObject, segs, v);
    }
  }

  /** `modify(path, v)` with a value is one walk along the path's segments. */
  lemma ModifyOne(tc: TestCase, path: string, v: Value)
    requires v != Undefined
    ensures var r := SetPath(tc.testObject, Split(path), v);
      Modify(tc, Single(Str(path)), v) == Outcome(tc.(testObject := r.obj), r.thrown)
  {
    assert Normalize(Single(Str(path)), v) == [Record(path, v)];
    ApplyOne(tc.testObject, path, v);
  }

  /**
   The three shapes agree: `modify(s, v)` with `v` not `undefined`,
   `modify({path: s, value: v})` and `modify([{path: s, value: v}])` give the
   same outcome, whatever the second argument of the last two.
   */
  lemma ShapesAgree(tc: TestCase, path: string, v: Value, other: Value)
    requires v != Undefined
    ensures Modify(tc, Single(Str(path)), v) == Modify(tc, Single(Record(path, v)), other)
    ensures Modify(tc, Single(Str(path)), v) == Modify(tc, List([Record(path, v)]), other)
  {
  }

  /**
   Records are applied in index order: modifying with `xs + ys` is modifying
   with `xs` and then, unless that threw, with `ys`. This is also what a
   chain of two `modify` calls does.
   */
  lemma ModifyAppend(tc: TestCase, xs: seq<Value>, ys: seq<Value>, other: Value)
    ensures var first := Modify(tc, List(xs), other);
      Modify(tc, List(xs + ys), other)
        == if first.thrown.Some? then first else Modify(first.tc, List(ys), other)
  {
    ApplyModsAppend(tc.testObject, xs, ys);
  }

  /**
   Two records on the same path: if the first goes through, so does the
   second, and the later value is the one found at the path.
   */
  lemma LaterRecordWins(tc: TestCase, path: string, v1: Value, v2: Value, other: Value)
    requires Modify(tc, List([Record(path, v1)]), other).thrown.None?
    ensures Modify(tc, List([Record(path, v1), Record(path, v2)]), other).thrown.None?
    ensures Follow(Obj(Modify(tc, List([Record(path, v1), Record(path, v2)]), other).tc.testObject),
                   Split(path)) == Some(v2)
  {
    var segs := Split(path);
    var both := [Record(path, v1), Record(path, v2)];
    ApplyOne(tc.testObject, path, v1);
    Rewrite(tc.testObject, segs, v1, v2);
    ApplyTwo(tc.testObject, path, v1, v2);
    assert Modify(tc, List(both), other).tc.testObject == ApplyMods(tc.testObject, both).obj;
  }

  /** Two records on one path, when the first goes through, are two walks along it. */
  lemma ApplyTwo(obj: map<string, Value>, path: string, v1: Value, v2: Value)
    requires SetPath(obj, Split(path), v1).thrown.None?
    ensures ApplyMods(obj, [Record(path, v1), Record(path, v2)])
         == SetPath(SetPath(obj, Split(path), v1).obj, Split(path), v2)
  {
    var first, second := [Record(path, v1)], [Record(path, v2)];
    ApplyOne(obj, path, v1);
    ApplyOne(SetPath(obj, Split(path), v1).obj, path, v2);
    ApplyModsAppend(obj, first, second);
    assert first + second == [Record(path, v1), Record(path, v2)];
  }

  /** One record is one walk along its path's segments. */
  lemma ApplyOne(obj: map<string, Value>, path: string, v: Value)
    ensures ApplyMods(obj, [Record(path, v)]) == SetPath(obj, Split(path), v)
  {
    var rec := Record(path, v);
    assert rec.fields["path"] == Str(path) && rec.fields["value"] == v;
    assert ReadMod(rec) == Ok(Mod(path, v));
    assert [rec][1..] == [];
  }

  /**
   A path with no `.` names a top-level key, and modifying it is a plain
   assignment of that key, whatever it held before.
   */
  lemma ModifyTopLevel(tc: TestCase, key: string, v: Value, other: Value)
    requires NoDot(key)
    ensures Modify(tc, Single(Record(key, v)), other) == Outcome(tc.(testObject := tc.testObject[key := v]), None)
  {
    ApplyTopLevel(tc.testObject, key, v);
  }

  /** One record on a dot-free path assigns that key. */
  lemma ApplyTopLevel(obj: map<string, Value>, key: string, v: Value)
    requires NoDot(key)
    ensures ApplyMods(obj, [Record(key, v)]) == SetResult(obj[key := v], None)
  {
    SplitNoDot(key);
    ApplyOne(obj, key, v);
  }

  /**
   `modify(s)` with no value: the string is iterated character by character,
   and a character has no `path`, so the call throws unless the string is
   empty. Either way the object is unchanged.
   */
  lemma StringWithoutValue(tc: TestCase, s: string)
    ensures Modify(tc, Single(Str(s)), Undefined).tc == tc
    ensures Modify(tc, Single(Str(s)), Undefined).thrown.Some? <==> |s| > 0
  {
    var mods := Normalize(Single(Str(s)), Undefined);
    assert |mods| == |s|;
    if |s| > 0 {
      assert mods[0] == Str([s[0]]);
      assert ReadMod(mods[0]).Fail?;
    }
  }

  /** `modify(null)`: `null` is object-typed, so it is wrapped as a record and reading its `path` throws. */
  lemma NullArgument(tc: TestCase, x: Value)
    ensures Modify(tc, Single(Null), x) == Outcome(tc, Some(TypeError("Cannot read properties of null (reading 'path')")))
  {
    assert Normalize(Single(Null), x) == [Null];
  }

  /** `modify(x)` with `undefined`, a number or a boolean: `for ... in` visits nothing, so nothing happens. */
  lemma NothingToIterate(tc: TestCase, x: Value, other: Value)
    requires x.Undefined? || x.Num? || x.Bool?
    ensures Modify(tc, Single(x), other) == Outcome(tc, None)
  {
    assert Normalize(Single(x), other) == [];
  }
}
