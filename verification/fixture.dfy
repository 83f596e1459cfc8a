/**
 The `Testy` fixture of the repository's own test: a target function that
 takes a string and an object, its default arguments, their order, and the
 check on its return value; with the end-to-end scenarios of that test.
 */
module Fixture {
  import opened Values
  import opened TestCases
  import Paths

  /** The default arguments `{arg1: "test", arg2: {foo: "bar"}}` in order `["arg1", "arg2"]`. */
  function Testy(): TestCase {
    TestCase(map["arg1" := Str("test"), "arg2" := Obj(map["foo" := Str("bar")])], ["arg1", "arg2"])
  }

  /** A parameter the caller did not pass is `undefined`. */
  function Param(args: seq<Value>, i: nat): Value {
    if i < |args| then args[i] else Undefined
  }

  /**
   `testFunction(arg1, arg2)`: returns 1 for a string and an object-typed
   value, otherwise throws a TypeError naming the first bad argument.
   */
  function TestyTarget(args: seq<Value>): (c: Result<Value>)
    ensures c == Ok(Num(1)) <==> Param(args, 0).Str? && (Param(args, 1).Obj? || Param(args, 1).Null?)
    ensures c == Fail(TypeError("bad arg1")) <==> !Param(args, 0).Str?
    ensures c == Fail(TypeError("bad arg2")) <==>
      Param(args, 0).Str? && !Param(args, 1).Obj? && !Param(args, 1).Null?
  {
    if TypeOf(Param(args, 0)) != "string" then Fail(TypeError("bad arg1"))
    else if TypeOf(Param(args, 1)) != "object" then Fail(TypeError("bad arg2"))
    else Ok(Num(1))
  }

  /** `validateRet(ret)`: `ret === 1`, which accepts exactly what the target can return. */
  function TestyValidate(ret: Value): (ok: bool)
    ensures ok <==> ret.Num? && ret.n == 1
    ensures ok <==> exists args :: TestyTarget(args) == Ok(ret)
  {
    assert TestyTarget([Str(""), Null]) == Ok(Num(1));
    ret == Num(1)
  }

  /** The default arguments in call order are `"test"` and `{foo: "bar"}`. */
  lemma DefaultArgs()
    ensures ToArgs(Testy()) == [Str("test"), Obj(map["foo" := Str("bar")])]
  {
  }

  /** "doIt and validateRet without error": on the defaults the target returns a value that validates. */
  lemma DefaultValidates()
    ensures TestyTarget(ToArgs(Testy())).Ok?
    ensures TestyValidate(TestyTarget(ToArgs(Testy())).value)
  {
    DefaultArgs();
  }

  /** "simple modify": after `modify("arg1", null)` the target throws "bad arg1". */
  lemma Arg1NullRejected()
    ensures Modify(Testy(), Single(Str("arg1")), Null).thrown.None?
    ensures TestyTarget(ToArgs(Modify(Testy(), Single(Str("arg1")), Null).tc)) == Fail(TypeError("bad arg1"))
  {
    ShapesAgree(Testy(), "arg1", Null, Undefined);
    TopLevelNull(Testy(), "arg1", Undefined);
  }

  /** Setting a top-level default to `null` by a record. */
  lemma TopLevelNull(tc: TestCase, key: string, other: Value)
    requires key == "arg1" || key == "arg2"
    ensures Modify(tc, Single(Record(key, Null)), other)
         == Outcome(tc.(testObject := tc.testObject[key := Null]), None)
  {
    ArgNamesHaveNoDot(key);
    ModifyTopLevel(tc, key, Null, other);
  }

  /** The fixture's argument names are single path segments. */
  lemma ArgNamesHaveNoDot(key: string)
    requires key == "arg1" || key == "arg2"
    ensures Paths.NoDot(key)
  {
    forall i | 0 <= i < |key| ensures key[i] != Paths.Dot {
      assert key[i] in "arg12";
    }
  }

  /**
   "multiple modify": after `modify([{path: "arg1", value: null}, {path:
   "arg2", value: null}])` the target throws "bad arg1", the first check.
   */
  lemma BothNullRejected(other: Value)
    ensures Modify(Testy(), List([Record("arg1", Null), Record("arg2", Null)]), other).thrown.None?
    ensures TestyTarget(ToArgs(Modify(Testy(), List([Record("arg1", Null), Record("arg2", Null)]), other).tc))
         == Fail(TypeError("bad arg1"))
  {
    var obj := Testy().testObject;
    var one, two := [Record("arg1", Null)], [Record("arg2", Null)];
    ArgNamesHaveNoDot("arg1");
    ArgNamesHaveNoDot("arg2");
    ApplyTopLevel(obj, "arg1", Null);
    ApplyTopLevel(obj["arg1" := Null], "arg2", Null);
    ApplyModsAppend(obj, one, two);
    assert one + two == [Record("arg1", Null), Record("arg2", Null)];
    var args := ToArgs(Modify(Testy(), List(one + two), other).tc);
    assert args[0] == Null;
  }

  /**
   "modify object": after `modify({path: "arg2", value: null})` the target
   as written still returns 1, since `typeof null` is "object"; the test
   scenario expects a TypeError here.
   */
  lemma Arg2NullAccepted(other: Value)
    ensures Modify(Testy(), Single(Record("arg2", Null)), other).thrown.None?
    ensures TestyTarget(ToArgs(Modify(Testy(), Single(Record("arg2", Null)), other).tc)) == Ok(Num(1))
  {
    TopLevelNull(Testy(), "arg2", other);
  }

  /**
   The target the "modify object" scenario expects: `arg2` must be an object
   and not `null`.
   */
  function StrictTarget(args: seq<Value>): (c: Result<Value>)
    ensures c == Ok(Num(1)) <==> Param(args, 0).Str? && Param(args, 1).Obj?
    ensures c == Fail(TypeError("bad arg1")) <==> !Param(args, 0).Str?
    ensures c == Fail(TypeError("bad arg2")) <==> Param(args, 0).Str? && !Param(args, 1).Obj?
    ensures Param(args, 1) != Null ==> c == TestyTarget(args)
  {
    if TypeOf(Param(args, 0)) != "string" then Fail(TypeError("bad arg1"))
    else if TypeOf(Param(args, 1)) != "object" || Param(args, 1) == Null then Fail(TypeError("bad arg2"))
    else Ok(Num(1))
  }

  /**
   With the strict target the defaults still validate, and all three
   bad-argument scenarios of the test throw a TypeError.
   */
  lemma StrictScenarios(other: Value)
    ensures StrictTarget(ToArgs(Testy())) == Ok(Num(1))
    ensures StrictTarget(ToArgs(Modify(Testy(), Single(Str("arg1")), Null).tc)) == Fail(TypeError("bad arg1"))
    ensures StrictTarget(ToArgs(Modify(Testy(), Single(Record("arg2", Null)), other).tc))
         == Fail(TypeError("bad arg2"))
    ensures StrictTarget(ToArgs(Modify(Testy(), List([Record("arg1", Null), Record("arg2", Null)]), other).tc))
         == Fail(TypeError("bad arg1"))
  {
    DefaultArgs();
    Arg1NullRejected();
    BothNullRejected(other);
    var a1 := ToArgs(Modify(Testy(), Single(Str("arg1")), Null).tc);
    var both := ToArgs(Modify(Testy(), List([Record("arg1", Null), Record("arg2", Null)]), other).tc);
    assert !Param(a1, 0).Str? && !Param(both, 0).Str?;
    TopLevelNull(Testy(), "arg2", other);
    var a2 := ToArgs(Modify(Testy(), Single(Record("arg2", Null)), other).tc);
    assert Param(a2, 0) == Str("test") && Param(a2, 1) == Null;
  }
}
