/**
 * JSON values as the request-body parser hands them to a validator.
 *
 * An object keeps its members in the order they appear in the text. Reading
 * a property follows the JavaScript object the parser builds: when a key
 * occurs more than once, the last occurrence wins; a key that does not occur
 * reads as `undefined`.
 */
module Json {

  datatype Value =
    | Null
    | Bool(b: bool)
    | Number(n: real)
    | String(s: string)
    | Array(items: seq<Value>)
    | Object(members: seq<Member>)

  datatype Member = Member(key: string, value: Value)

  /** The result of reading one property: a value, or `undefined`. */
  datatype Field = Absent | Present(value: Value)

  /** The type names a schema reports when a value has the wrong type. */
  datatype TypeName =
    | StringType
    | NumberType
    | BooleanType
    | NullType
    | ArrayType
    | ObjectType

  function TypeOf(v: Value): TypeName
  {
    match v
    case Null => NullType
    case Bool(_) => BooleanType
    case Number(_) => NumberType
    case String(_) => StringType
    case Array(_) => ArrayType
    case Object(_) => ObjectType
  }

  predicate HasKey(ms: seq<Member>, k: string)
  {
    exists i :: 0 <= i < |ms| && ms[i].key == k
  }

  /** `ms[i]` is the last member of `ms` whose key is `k`. */
  predicate LastWithKey(ms: seq<Member>, k: string, i: int)
  {
    0 <= i < |ms| && ms[i].key == k && forall j :: i < j < |ms| ==> ms[j].key != k
  }

  /**
   * Reading own property `k` of the object whose members are `ms`.
   * Properties inherited from `Object.prototype` are not modelled.
   */
  function Get(ms: seq<Member>, k: string): (r: Field)
    ensures r.Present? <==> HasKey(ms, k)
    ensures r.Present? ==> exists i :: LastWithKey(ms, k, i) && ms[i].value == r.value
  {
    if ms == [] then Absent
    else if ms[|ms| - 1].key == k then
      assert LastWithKey(ms, k, |ms| - 1);
      Present(ms[|ms| - 1].value)
    else
      FrontKeepsKey(ms, k);
      Get(ms[..|ms| - 1], k)
  }

  /** Dropping a last member with another key changes neither presence nor the last occurrence of `k`. */
  lemma FrontKeepsKey(ms: seq<Member>, k: string)
    requires ms != [] && ms[|ms| - 1].key != k
    ensures HasKey(ms, k) <==> HasKey(ms[..|ms| - 1], k)
    ensures forall i :: LastWithKey(ms[..|ms| - 1], k, i) ==> LastWithKey(ms, k, i)
  {
    var front := ms[..|ms| - 1];
    if HasKey(ms, k) {
      var i :| 0 <= i < |ms| && ms[i].key == k;
      assert front[i].key == k;
    }
  }

  /**
   * The members of `ms` whose key is in `keys`. The contract gives the set of
   * members kept and what happens to a single member; `KeepKeysConcat`
   * adds that filtering distributes over concatenation, which fixes the
   * order and the multiplicity of the result.
   */
  function KeepKeys(ms: seq<Member>, keys: set<string>): (r: seq<Member>)
    ensures |r| <= |ms|
    ensures forall m :: m in r ==> m in ms && m.key in keys
    ensures forall m :: m in ms && m.key in keys ==> m in r
    ensures |ms| == 1 ==> r == if ms[0].key in keys then ms else []
  {
    if ms == [] then []
    else
      var last := ms[|ms| - 1];
      var front := KeepKeys(ms[..|ms| - 1], keys);
      assert ms == ms[..|ms| - 1] + [last];
      if last.key in keys then front + [last] else front
  }

  /** Filtering keeps the members of each part in place, in their original order. */
  lemma {:induction false} KeepKeysConcat(a: seq<Member>, b: seq<Member>, keys: set<string>)
    ensures KeepKeys(a + b, keys) == KeepKeys(a, keys) + KeepKeys(b, keys)
  {
    if b == [] {
      assert a + b == a;
    } else {
      var front, last := b[..|b| - 1], b[|b| - 1];
      assert (a + b)[..|a + b| - 1] == a + front;
      assert (a + b)[|a + b| - 1] == last;
      KeepKeysConcat(a, front, keys);
    }
  }

  /** Appending a member either shadows key `k` or leaves its reading alone. */
  lemma GetAppend(ms: seq<Member>, m: Member, k: string)
    ensures Get(ms + [m], k) == if m.key == k then Present(m.value) else Get(ms, k)
  {
    assert (ms + [m])[..|ms|] == ms;
  }

  /**
   * Last occurrence wins across a concatenation: the members of `b` decide
   * the reading of `k` whenever one of them carries `k`.
   */
  lemma {:induction false} GetConcat(a: seq<Member>, b: seq<Member>, k: string)
    ensures Get(a + b, k) == if HasKey(b, k) then Get(b, k) else Get(a, k)
  {
    if b == [] {
      assert a + b == a;
    } else {
      var front, last := b[..|b| - 1], b[|b| - 1];
      assert b == front + [last];
      assert a + b == (a + front) + [last];
      GetAppend(a + front, last, k);
      GetAppend(front, last, k);
      GetConcat(a, front, k);
    }
  }

  /** Dropping members whose key is not `k` does not change the reading of `k`. */
  lemma {:induction false} GetKeepKeys(ms: seq<Member>, keys: set<string>, k: string)
    requires k in keys
    ensures Get(KeepKeys(ms, keys), k) == Get(ms, k)
  {
    if ms != [] {
      var front, last := ms[..|ms| - 1], ms[|ms| - 1];
      assert ms == front + [last];
      GetKeepKeys(front, keys, k);
      GetAppend(front, last, k);
      if last.key in keys {
        GetAppend(KeepKeys(front, keys), last, k);
      }
    }
  }
}
