# mocha-testcase in Dafny

`TestCase` is a template for unit tests. It holds a function under test, a
nested object of default arguments (`testObject`) and the order in which the
function takes them (`argOrder`). `modify` changes the defaults along
dot-separated paths. `toArgs` turns the defaults into a positional argument
list, and `toObject` copies them. The repository's own test adds the `Testy`
fixture. Its target takes a string and an object, and its validator accepts
the return value 1.

This project models the data side of that class as pure functions over an
immutable value type:

- `values.dfy` (`Values`): JavaScript values (`undefined`, `null`, booleans,
  numbers, strings, plain objects as `map<string, Value>`). It also has
  `typeof`, property reads and navigation along a key path.
- `paths.dfy` (`Paths`): `path.split(".")` and its inverse `join(".")`.
- `setpath.dfy` (`SetObject`): the inner `recursiveSetObject` of `modify`.
- `testcase.dfy` (`TestCases`): the instance record and `toObject`, `toArgs`
  and `modify` with its three argument shapes.
- `fixture.dfy` (`Fixture`): the `Testy` fixture and the scenarios of the
  repository's test.

The source mutates the instance in place. The model returns a new instance
instead, so `modify` returns an `Outcome`: the instance afterwards, and the
`TypeError` if the call threw. A chain `x.modify(a).modify(b)` is two calls,
where the second starts from the first's instance. `toArgs` and `toObject`
only read the instance. In this model they cannot change it, and calling
either twice gives the same result.

## Model

| member | source | states |
|---|---|---|
| Values.TypeOf | mocha-testcase.js:87 | `typeof` is "object" exactly for plain objects and `null`; "string" exactly for strings; "undefined" exactly for `undefined` |
| Values.Lookup | mocha-testcase.js:42 | reading a missing key gives `undefined`; a key is present exactly when one navigation step along it succeeds, and that step reaches the value read |
| Paths.Split | mocha-testcase.js:79 | splitting a path on `.` gives at least one segment, and no segment contains `.` |
| Paths.SplitCount | mocha-testcase.js:79 | there is exactly one more segment than there are `.` characters, so `"a..b"` has an empty middle segment |
| Paths.JoinSplit | mocha-testcase.js:79 | joining the segments with `.` rebuilds the original path |
| Paths.SplitJoin | mocha-testcase.js:79 | splitting a `.`-join of dot-free segments gives back exactly those segments, empty ones included |
| Paths.SplitNoDot | mocha-testcase.js:79 | a path without `.` splits into itself alone, so it names a top-level key |
| SetObject.SetPath | mocha-testcase.js:85-94 | only the first key is added at the top level; every other top-level key keeps its value; anything thrown is a TypeError |
| SetObject.FailureUnchanged | mocha-testcase.js:85-94 | a walk that throws has written nothing: the object is exactly as before |
| SetObject.Reaches | mocha-testcase.js:85-94 | after a walk that did not throw, following the path from the root reaches exactly the assigned value |
| SetObject.OnEmpty | mocha-testcase.js:87-93 | a walk on an empty object never throws and builds the nested path ending in the value |
| SetObject.ThrowsIffNull | mocha-testcase.js:87-91 | the walk throws if and only if some proper non-empty prefix of the path leads to `null`: `null` is object-typed, so it is kept and then read from |
| SetObject.KeepsSiblings | mocha-testcase.js:85-94 | merge, not replace: at every object the path passes through, the keys afterwards are the old keys plus the path's key, and every other key keeps its value |
| SetObject.OverwritesPrimitive | mocha-testcase.js:87-91 | a non-final key holding a value that is not object-typed (or nothing) is discarded: the walk cannot throw, and that key then holds only the rest of the path |
| SetObject.Rewrite | mocha-testcase.js:85-94 | writing a path again after a walk along it succeeded cannot throw, and the second value is the one found |
| TestCases.NewHasNoArgs | mocha-testcase.js:19-20 | a fresh instance has no defaults and no order, so `toArgs` returns the empty list |
| TestCases.JsonClone | mocha-testcase.js:30 | the JSON round trip gives a JSON-representable value; it is the identity on JSON-representable values; it keeps objects as objects |
| TestCases.ToObject | mocha-testcase.js:29-31 | the copy is JSON-representable; its keys are the keys whose value is not `undefined`; on JSON-representable defaults it equals them |
| TestCases.ToObjectIdempotent | mocha-testcase.js:29-31 | copying the copy gives the same copy |
| TestCases.ToArgs | mocha-testcase.js:38-45 | the list is as long as `argOrder`, and element i is the top-level default named `argOrder[i]` (`undefined` if it is missing) |
| TestCases.ReadMod | mocha-testcase.js:78-80 | a record is usable exactly when it is an object whose `path` is a string, and then the walk gets exactly `mod.path` and `mod.value` (`undefined` if absent); anything else throws a TypeError |
| TestCases.ApplyMods | mocha-testcase.js:77-81 | the record loop only ever throws TypeErrors, and it never removes a top-level key, even when it throws part way |
| TestCases.Normalize | mocha-testcase.js:61-77 | a string with a value becomes the one record `{path, value}`; an object-typed single value (a record or `null`) is wrapped in a one-element list; an array is taken as it is; a string without a value yields one item per character of the model's string; `undefined`, numbers and booleans yield nothing |
| TestCases.ApplyModsAppend | mocha-testcase.js:77-81 | records are applied in index order: `xs + ys` is `xs`, then `ys` unless `xs` threw |
| TestCases.Modify | mocha-testcase.js:58-97 | `modify` leaves `argOrder` alone, never removes a top-level key of the defaults, and anything it throws is a TypeError |
| TestCases.ModifyPath | mocha-testcase.js:62-93 | `modify(path, v)` throws exactly when a proper prefix of the path leads to `null`, and then nothing changes; otherwise the path's segments reach exactly `v` |
| TestCases.ShapesAgree | mocha-testcase.js:62-74 | `modify(s, v)` with `v` not `undefined`, `modify({path: s, value: v})` and `modify([{path: s, value: v}])` give the same outcome |
| TestCases.ModifyAppend | mocha-testcase.js:77-96 | modifying with a list `xs + ys` equals chaining `modify(xs)` then `modify(ys)`, stopping if the first threw |
| TestCases.LaterRecordWins | mocha-testcase.js:77-81 | if the first of two records on the same path succeeds, so does the second, and the later value is the one found |
| TestCases.ModifyTopLevel | mocha-testcase.js:85-93 | a record whose path has no `.` assigns that top-level key and changes nothing else |
| TestCases.StringWithoutValue | mocha-testcase.js:62-81 | `modify(s)` without a value throws exactly when `s` is non-empty, since a character has no `path`; the object is unchanged either way |
| TestCases.NullArgument | mocha-testcase.js:72-79 | `modify(null)` wraps `null` as a record, and reading its `path` throws a TypeError with nothing changed |
| TestCases.NothingToIterate | mocha-testcase.js:72-77 | `modify` with `undefined`, a number or a boolean iterates nothing: no change and no throw |
| Fixture.TestyTarget | test/test.js:8-17 | returns 1 exactly for a string `arg1` and an object-typed (object or `null`) `arg2`; throws "bad arg1" exactly when `arg1` is not a string; throws "bad arg2" exactly when `arg1` is a string and `arg2` is not object-typed |
| Fixture.TestyValidate | test/test.js:28-31 | the return value validates exactly when it is the number 1, which is exactly when some arguments make the target return it |
| Fixture.DefaultArgs | test/test.js:18-25 | the fixture's arguments in call order are `"test"` and `{foo: "bar"}` |
| Fixture.DefaultValidates | test/test.js:43-55 | on the unmodified fixture the target returns normally with a value that validates |
| Fixture.Arg1NullRejected | test/test.js:38 | after `modify("arg1", null)` the target throws "bad arg1" |
| Fixture.BothNullRejected | test/test.js:40-42 | after setting both arguments to `null` by a list of records, the target throws "bad arg1", since that check comes first |
| Fixture.Arg2NullAccepted | test/test.js:13-16 | after `modify({path: "arg2", value: null})` the target as written still returns 1 |
| Fixture.StrictTarget | test/test.js:8-17 | the corrected target returns 1 exactly for a string and a non-null object; it agrees with the original whenever `arg2` is not `null` |
| Fixture.StrictScenarios | test/test.js:36-42 | with the corrected target the defaults validate, and all three bad-argument scenarios throw a TypeError |

## Findings

| source | as written | input that shows it | evidently intended | confidence | as-written member | corrected member |
|---|---|---|---|---|---|---|
| test/test.js:13 | `typeof arg2 !== "object"` lets `null` through, because `typeof null` is "object" | `arg2 = null`, the "modify object" scenario at test/test.js:39 | `arg2 = null` is a bad argument and throws a TypeError, as that scenario expects | medium, not executed | Fixture.Arg2NullAccepted | Fixture.StrictScenarios |

The repository's test describes three bad-argument scenarios and expects
each to fail with a TypeError. In the code as written, the fixture's target
accepts `arg2 = null`, so one of them returns normally. The model follows the
code and records this under Findings.

## Left out

- `doIt`, `test`, `testBadArgs` (mocha-testcase.js:104-149): they are promise and test-runner plumbing. The fixture scenarios call the target on `toArgs` directly instead.
- The `assert`/`it` capabilities and the `ctx` receiver (mocha-testcase.js:13-14, 21): they are injected collaborators that the data logic does not use.
- The base class defaults for `testFunction` and `validateRet` (mocha-testcase.js:16-18, 128-130): both only throw "not implemented". The model has no function-valued fields, and the fixture supplies its own.
- The module export (mocha-testcase.js:152-154).
- The test at test/test.js:38-42 passes its modifications to the `Testy` constructor, which takes no parameters, so as written those tests never call `modify`. The scenario lemmas apply `modify` explicitly, as the test names say.
- Arrays as containers in the default object, functions, symbols and prototype keys such as `__proto__`. Objects are string-keyed maps. An array appears only as `modify`'s list-of-records argument.
- Numbers are integers. `NaN`, infinities and `-0` do not arise, so neither does their JSON behaviour.
- TestCases.ToObject: cycles cannot arise with immutable values, so the `JSON.stringify` throw on a cycle is not modelled. Reference identity does not exist either, so "the copy does not alias the original" holds trivially.
- Error messages: the TypeError messages for a bad `modify` argument follow V8's wording. Only their kind is stated in contracts.
- Sharing between objects: the defaults are modelled as a tree of values with no shared sub-objects. In the source, `modify` stores values by reference and writes in place (mocha-testcase.js:88, 91, 93). So after `modify("arg3", x.testObject.arg2)`, a later `modify("arg2.foo", 1)` is also seen through `arg3`, and a caller still holding an object it passed as a value sees later writes into it. SetObject.SetPath, SetObject.KeepsSiblings and the other frame properties hold for the tree only, that is, when no object is reachable along two paths.
- TestCases.Normalize: strings are modelled as sequences of Unicode characters, not of UTF-16 code units. For a string with characters outside the Basic Multilingual Plane, the source's `for…in` (mocha-testcase.js:77) visits more items than the model yields, for example two for `"😀"` where the model yields one. Strings with unpaired surrogates cannot be expressed. The outcome of `modify` is the same either way: it throws exactly when the string is non-empty, and nothing changes.
- A `testObject` that is not a plain object: the root is always an object in the model, as in both the base class and the fixture.
