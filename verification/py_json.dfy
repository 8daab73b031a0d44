/**
 * JSON values as Python's `json` module hands them to the webhook handlers
 * (a dict, a list, a str, an int, a bool or None), and the Python operations
 * those handlers apply to them, with the exception each one raises when the
 * value has the wrong shape.
 */
module PyJson {
  import PyStr

  datatype Json =
    | JNull
    | JBool(b: bool)
    | JNumber(n: int)
    | JString(s: string)
    | JArray(items: seq<Json>)
    | JObject(fields: map<string, Json>)

  /** The built-in exceptions these operations raise. */
  datatype Exception = KeyError | TypeError | AttributeError | IndexError

  /** The outcome of evaluating a Python expression. */
  datatype Py<T> = Ok(value: T) | Raise(exc: Exception)

  /** `bool(j)` */
  predicate Truthy(j: Json) {
    match j
    case JNull => false
    case JBool(b) => b
    case JNumber(n) => n != 0
    case JString(s) => s != ""
    case JArray(items) => items != []
    case JObject(fields) => fields != map[]
  }

  /** `j[key]` with a `str` key: a dict raises KeyError for a missing key;
      a list, a str, a number, a bool or None cannot be indexed by a str. */
  function Subscript(j: Json, key: string): Py<Json> {
    match j
    case JObject(fields) => if key in fields then Ok(fields[key]) else Raise(KeyError)
    case _ => Raise(TypeError)
  }

  /** `j[0]`: a dict has no integer keys (JSON keys are strings). */
  function SubscriptZero(j: Json): Py<Json> {
    match j
    case JArray(items) => if items != [] then Ok(items[0]) else Raise(IndexError)
    case JString(s) => if s != "" then Ok(JString([s[0]])) else Raise(IndexError)
    case JObject(_) => Raise(KeyError)
    case _ => Raise(TypeError)
  }

  /** `j.get(key)`: only a dict has a `get` method; a missing key gives None. */
  function Get(j: Json, key: string): Py<Json> {
    match j
    case JObject(fields) => Ok(if key in fields then fields[key] else JNull)
    case _ => Raise(AttributeError)
  }

  /** `key in j`: key membership for a dict, substring test for a str,
      element membership for a list; anything else is not a container. */
  function In(key: string, j: Json): Py<bool> {
    match j
    case JObject(fields) => Ok(key in fields)
    case JString(s) => Ok(PyStr.Contains(s, key))
    case JArray(items) => Ok(JString(key) in items)
    case _ => Raise(TypeError)
  }

  /** `j.lower()`: only a str has a `lower` method. */
  function LowerOf(j: Json): Py<string> {
    match j
    case JString(s) => Ok(PyStr.Lower(s))
    case _ => Raise(AttributeError)
  }

  /** `j[path[0]][path[1]]...`, evaluated left to right: the first step that
      fails raises its exception. */
  function Lookup(j: Json, path: seq<string>): Py<Json>
    decreases |path|
  {
    if path == [] then Ok(j)
    else
      match Subscript(j, path[0])
      case Raise(e) => Raise(e)
      case Ok(v) => Lookup(v, path[1..])
  }

  /** A path succeeds exactly when every step lands on a dict holding the
      next key; the first step that does not is a KeyError when it lands on
      a dict and a TypeError otherwise. */
  lemma {:induction false} LookupFails(j: Json, path: seq<string>)
    requires path != []
    ensures Lookup(j, path).Raise? ==> Lookup(j, path).exc in {KeyError, TypeError}
    ensures !j.JObject? ==> Lookup(j, path) == Raise(TypeError)
    ensures j.JObject? && path[0] !in j.fields ==> Lookup(j, path) == Raise(KeyError)
    decreases |path|
  {
    if j.JObject? && path[0] in j.fields && |path| > 1 {
      LookupFails(j.fields[path[0]], path[1..]);
    }
  }

  /** Looking up `p + q` is looking up `p`, then `q` in what that gives. */
  lemma {:induction false} LookupAppend(j: Json, p: seq<string>, q: seq<string>)
    ensures Lookup(j, p + q) == (match Lookup(j, p) case Ok(v) => Lookup(v, q) case Raise(e) => Raise(e))
    decreases |p|
  {
    if p == [] {
      assert p + q == q;
    } else {
      assert (p + q)[0] == p[0];
      assert (p + q)[1..] == p[1..] + q;
      match Subscript(j, p[0]) {
        case Ok(v) => LookupAppend(v, p[1..], q);
        case Raise(e) =>
      }
    }
  }

  /** Some step of the path reaches a dict that lacks the next key. */
  predicate MissingKey(j: Json, path: seq<string>) {
    exists i :: 0 <= i < |path| && KeyMissingAt(j, path, i)
  }

  /** The first `i` keys lead to a dict without key `path[i]`. */
  predicate KeyMissingAt(j: Json, path: seq<string>, i: int)
    requires 0 <= i < |path|
  {
    var r := Lookup(j, path[..i]);
    r.Ok? && r.value.JObject? && path[i] !in r.value.fields
  }

  /** A path lookup raises KeyError exactly when some key on the path is
      missing from the dict reached so far. */
  lemma {:induction false} KeyErrorIffMissingKey(j: Json, path: seq<string>)
    ensures Lookup(j, path) == Raise(KeyError) <==> MissingKey(j, path)
    decreases |path|
  {
    if path != [] {
      assert path[..0] == [];
      if j.JObject? && path[0] in j.fields {
        var v := j.fields[path[0]];
        var tail := path[1..];
        KeyErrorIffMissingKey(v, tail);
        forall i | 1 <= i < |path|
          ensures KeyMissingAt(j, path, i) <==> KeyMissingAt(v, tail, i - 1)
        {
          assert path[..i] == [path[0]] + tail[..i - 1];
          LookupAppend(j, [path[0]], tail[..i - 1]);
          assert path[i] == tail[i - 1];
        }
        if MissingKey(j, path) {
          var i :| 0 <= i < |path| && KeyMissingAt(j, path, i);
          assert i != 0;
          assert KeyMissingAt(v, tail, i - 1);
        }
        if MissingKey(v, tail) {
          var i :| 0 <= i < |tail| && KeyMissingAt(v, tail, i);
          assert KeyMissingAt(j, path, i + 1);
        }
      } else if j.JObject? {
        assert KeyMissingAt(j, path, 0);
      } else {
        forall i | 0 <= i < |path|
          ensures !KeyMissingAt(j, path, i)
        {
          if i > 0 {
            assert path[..i] == [path[0]] + path[1..i];
            LookupAppend(j, [path[0]], path[1..i]);
          }
        }
      }
    }
  }
}
