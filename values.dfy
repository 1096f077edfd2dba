/** Values on both sides of the bridge: what the CAD kernel holds in its
    properties (CadValue) and what travels over the RPC transport (Wire),
    plus the ordered dictionaries that Python uses for requests and records. */
module Values {

  datatype Option<T> = None | Some(value: T)

  /** A failure-compatible result, so that `:-` can stand for Python's raise. */
  datatype Result<T, E> = Ok(value: T) | Err(error: E) {
    predicate IsFailure() { Err? }
    function PropagateFailure<U>(): Result<U, E>
      requires Err?
    {
      Err(error)
    }
    function Extract(): T
      requires Ok?
    {
      value
    }
    function Map<U>(f: T -> U): Result<U, E>
    {
      match this
      case Ok(v) => Ok(f(v))
      case Err(e) => Err(e)
    }
    function Then<U>(f: T -> Result<U, E>): Result<U, E>
    {
      match this
      case Ok(v) => f(v)
      case Err(e) => Err(e)
    }
  }

  /** App.Vector; its coordinates are opaque reals (no arithmetic is done on them). */
  datatype Vec = Vec(x: real, y: real, z: real)

  /** App.Rotation, seen as the axis and angle it was constructed from. */
  datatype Rot = Rot(axis: Vec, angle: real)

  /** A value held by a property of a live document object. */
  datatype CadValue =
    | CNone
    | CBool(b: bool)
    | CInt(i: int)
    | CFloat(f: real)
    | CStr(s: string)
    | CVector(v: Vec)
    | CRotation(rot: Rot)
    | CPlacement(base: Vec, rotation: Rot)
    | CList(items: seq<CadValue>)              // a Python list or tuple
    | CColor(red: real, green: real, blue: real, alpha: real)
    | CLink(target: string)                    // a document object, by its internal name
    | CDict(entries: seq<(string, CadValue)>)  // a Python dict stored by a raw assignment
    | COther(kind: string)                     // any other kernel value

  /** A value on the XML-RPC transport: JSON-like primitives, arrays and mappings. */
  datatype Wire =
    | WNone
    | WBool(b: bool)
    | WInt(i: int)
    | WFloat(f: real)
    | WStr(s: string)
    | WList(items: seq<Wire>)
    | WMap(entries: Dict)

  /** A Python dict on the wire, in insertion order. */
  type Dict = seq<(string, Wire)>

  /** The keys of an ordered dictionary, in order. */
  function KeysOf<V>(d: seq<(string, V)>): seq<string>
  {
    seq(|d|, i requires 0 <= i < |d| => d[i].0)
  }

  predicate HasKey<V>(d: seq<(string, V)>, k: string)
  {
    k in KeysOf(d)
  }

  /** `d.get(k)`: the value of the first entry with key k. */
  function Lookup<V(==)>(d: seq<(string, V)>, k: string): (r: Option<V>)
    ensures r.Some? <==> HasKey(d, k)
  {
    if d == [] then None
    else if d[0].0 == k then
      assert KeysOf(d)[0] == k;
      Some(d[0].1)
    else
      var r := Lookup(d[1..], k);
      assert KeysOf(d) == [d[0].0] + KeysOf(d[1..]);
      r
  }

  /** The first entry with a key is the one `d.get` finds. */
  lemma {:induction false} LookupFirst<V>(d: seq<(string, V)>, i: nat)
    requires i < |d|
    requires forall j :: 0 <= j < i ==> d[j].0 != d[i].0
    ensures Lookup(d, d[i].0) == Some(d[i].1)
  {
    if i > 0 {
      LookupFirst(d[1..], i - 1);
    }
  }

  /** `d.get(k)` looks at the first entry, then at the rest. */
  lemma LookupCons<V>(x: (string, V), d: seq<(string, V)>, k: string)
    ensures Lookup([x] + d, k) == if x.0 == k then Some(x.1) else Lookup(d, k)
  {
    assert ([x] + d)[1..] == d;
  }

  /** `d.get(k, default)`. */
  function GetOr<V(==)>(d: seq<(string, V)>, k: string, default: V): V
  {
    match Lookup(d, k)
    case Some(v) => v
    case None => default
  }

  /** `d[k] = v`: an existing key keeps its place, a new key goes last. */
  function Put<V>(d: seq<(string, V)>, k: string, v: V): (r: seq<(string, V)>)
  {
    if d == [] then [(k, v)]
    else if d[0].0 == k then [(k, v)] + d[1..]
    else [d[0]] + Put(d[1..], k, v)
  }

  /** `del d[k]` (every entry with key k goes). */
  function Without<V(==)>(d: seq<(string, V)>, k: string): (r: seq<(string, V)>)
    ensures !HasKey(r, k)
    ensures forall j :: j != k ==> Lookup(r, j) == Lookup(d, j)
  {
    if d == [] then []
    else if d[0].0 == k then Without(d[1..], k)
    else
      var t := Without(d[1..], k);
      assert KeysOf([d[0]] + t) == [d[0].0] + KeysOf(t);
      [d[0]] + t
  }

  /** After `d[k] = v`, k maps to v and every other key keeps its value. */
  lemma {:induction false} PutLookup<V>(d: seq<(string, V)>, k: string, v: V, j: string)
    ensures Lookup(Put(d, k, v), j) == if j == k then Some(v) else Lookup(d, j)
  {
    if d != [] && d[0].0 != k {
      PutLookup(d[1..], k, v, j);
      assert Put(d, k, v)[1..] == Put(d[1..], k, v);
    }
  }

  /** `d[k] = v` adds k at the end when it is new and keeps the key order otherwise. */
  lemma {:induction false} PutKeys<V>(d: seq<(string, V)>, k: string, v: V)
    ensures KeysOf(Put(d, k, v)) == if HasKey(d, k) then KeysOf(d) else KeysOf(d) + [k]
  {
    if d == [] {
      assert KeysOf(d) == [];
      assert KeysOf(Put(d, k, v)) == [k];
    } else if d[0].0 == k {
      assert KeysOf(d)[0] == k;
      assert KeysOf(Put(d, k, v)) == KeysOf(d);
    } else {
      PutKeys(d[1..], k, v);
      assert KeysOf(d) == [d[0].0] + KeysOf(d[1..]);
      assert KeysOf(Put(d, k, v)) == [d[0].0] + KeysOf(Put(d[1..], k, v));
    }
  }

  /** Python's `s.startswith(p)`. */
  predicate StartsWith(s: string, p: string)
  {
    |p| <= |s| && s[..|p|] == p
  }

  /** Python's `p in s` for strings: p occurs somewhere in s. */
  predicate Occurs(p: string, s: string)
  {
    exists i :: 0 <= i <= |s| && StartsWith(s[i..], p)
  }

  /** Python's truth value of a wire value: None, False, zero and empty
      containers are false. */
  predicate Truthy(w: Wire)
  {
    match w
    case WNone => false
    case WBool(b) => b
    case WInt(i) => i != 0
    case WFloat(f) => f != 0.0
    case WStr(s) => s != ""
    case WList(xs) => xs != []
    case WMap(e) => e != []
  }

  predicate Distinct<T(==)>(s: seq<T>)
  {
    forall i, j :: 0 <= i < j < |s| ==> s[i] != s[j]
  }

  /** A dict without repeated keys stays so when its first entry goes, and
      that entry's key does not come again. */
  lemma DistinctTail<V>(d: seq<(string, V)>)
    requires d != [] && Distinct(KeysOf(d))
    ensures Distinct(KeysOf(d[1..])) && !HasKey(d[1..], d[0].0)
  {
    var ks := KeysOf(d[1..]);
    forall i | 0 <= i < |ks| ensures ks[i] == KeysOf(d)[i + 1] && ks[i] != d[0].0 {
      assert KeysOf(d)[0] == d[0].0;
    }
  }

  /** `del d[k]` keeps the keys without repetition. */
  lemma {:induction false} WithoutDistinct<V>(d: seq<(string, V)>, k: string)
    requires Distinct(KeysOf(d))
    ensures Distinct(KeysOf(Without(d, k)))
  {
    if d != [] {
      DistinctTail(d);
      WithoutDistinct(d[1..], k);
      if d[0].0 != k {
        var t := Without(d[1..], k);
        var ks := KeysOf([d[0]] + t);
        assert ks == [d[0].0] + KeysOf(t);
        assert Lookup(t, d[0].0) == Lookup(d[1..], d[0].0) == None;
        forall i, j | 0 <= i < j < |ks| ensures ks[i] != ks[j] {
          if i > 0 {
            assert ks[i] == KeysOf(t)[i - 1] && ks[j] == KeysOf(t)[j - 1];
          } else {
            assert ks[j] == KeysOf(t)[j - 1];
          }
        }
      }
    }
  }
}
