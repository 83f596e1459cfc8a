/**
 The JavaScript values that a test case's default-arguments object can hold,
 restricted to what JSON can carry plus `undefined`: primitives, `null`, and
 plain objects keyed by strings. Arrays as containers, functions and
 prototype-special keys are not part of this model.
 */
module Values {

  datatype Option<+T> = None | Some(value: T)

  /** A JavaScript value. Numbers are modelled as integers. */
  datatype Value =
    | Undefined
    | Null
    | Bool(b: bool)
    | Num(n: int)
    | Str(s: string)
    | Obj(fields: map<string, Value>)

  /**
   The kind of error a JavaScript `throw` carries, with its message. A plain
   `Error` is what the base class's unimplemented members throw; the
   operations modelled here throw only `TypeError`s.
   */
  datatype JsError =
    | TypeError(message: string)
    | Error(message: string)

  /** A computation that either produces a `T` or throws; a call of a JavaScript function is a `Result<Value>`. */
  datatype Result<+T> = Ok(value: T) | Fail(error: JsError)

  /** The `typeof` operator; note that `typeof null` is "object". */
  function TypeOf(v: Value): (t: string)
    ensures t == "object" <==> v.Obj? || v.Null?
    ensures t == "string" <==> v.Str?
    ensures t == "undefined" <==> v.Undefined?
  {
    match v
    case Undefined => "undefined"
    case Null => "object"
    case Bool(_) => "boolean"
    case Num(_) => "number"
    case Str(_) => "string"
    case Obj(_) => "object"
  }

  /** True of the values for which `typeof v === "object"` holds. */
  predicate IsObjectTyped(v: Value) {
    TypeOf(v) == "object"
  }

  /** Property read `obj[key]` on a plain object: a missing key reads as `undefined`. */
  function Lookup(obj: map<string, Value>, key: string): (v: Value)
    ensures key !in obj ==> v == Undefined
    ensures key in obj <==> Follow(Obj(obj), [key]).Some?
    ensures key in obj ==> Follow(Obj(obj), [key]) == Some(v)
  {
    if key in obj then obj[key] else Undefined
  }

  /**
   Navigation along a sequence of keys from `v`: every step must be a plain
   object that holds the key. The empty path reaches `v` itself.
   */
  function Follow(v: Value, path: seq<string>): Option<Value>
    decreases |path|
  {
    if |path| == 0 then Some(v)
    else match v
      case Obj(m) => if path[0] in m then Follow(m[path[0]], path[1..]) else None
      case _ => None
  }

  /** Following `p + q` is following `p` and then `q` from where `p` arrives. */
  lemma {:induction false} FollowAppend(v: Value, p: seq<string>, q: seq<string>)
    ensures Follow(v, p + q) == match Follow(v, p) case Some(w) => Follow(w, q) case None => None
    decreases |p|
  {
    if |p| == 0 {
      assert p + q == q;
    } else {
      assert (p + q)[0] == p[0];
      assert (p + q)[1..] == p[1..] + q;
      match v
      case Obj(m) =>
        if p[0] in m {
          FollowAppend(m[p[0]], p[1..], q);
        }
      case _ =>
    }
  }

  /** Following a non-empty prefix from an object is following the rest from the first key's value. */
  lemma FollowStep(m: map<string, Value>, path: seq<string>, j: nat)
    requires 0 < j <= |path|
    ensures Follow(Obj(m), path[..j])
         == if path[0] in m then Follow(m[path[0]], path[1..][..j - 1]) else None
  {
    assert path[..j][0] == path[0];
    assert path[..j][1..] == path[1..][..j - 1];
  }

  /** Every proper prefix of a path that can be followed leads to a plain object. */
  lemma PrefixIsObject(v: Value, path: seq<string>, j: nat)
    requires j < |path|
    requires Follow(v, path).Some?
    ensures Follow(v, path[..j]).Some? && Follow(v, path[..j]).value.Obj?
  {
    FollowAppend(v, path[..j], path[j..]);
    assert path[..j] + path[j..] == path;
  }

  /** A value JSON can represent exactly: no `undefined` anywhere inside it. */
  predicate Representable(v: Value) {
    match v
    case Undefined => false
    case Obj(m) => forall k :: k in m ==> Representable(m[k])
    case _ => true
  }
}
