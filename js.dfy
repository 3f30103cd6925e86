/** JavaScript values and plain objects, as far as the request builders use them.

    A plain object is modelled as the ordered list of its own string-keyed
    properties, in the order `Object.keys` enumerates them. Assigning to a
    property that exists overwrites it where it stands; assigning to a new
    property appends it. */
module Js {

  datatype Option<T> = None | Some(value: T)

  /** A value a caller can hand to the builders: the primitives the document
      client accepts and plain objects. JavaScript numbers are doubles; here
      they are reals, so NaN and the infinities are not represented. */
  datatype Value =
    | Undefined
    | Null
    | Bool(b: bool)
    | Num(x: real)
    | Str(s: string)
    | Obj(props: seq<(string, Value)>)

  /** JavaScript's ToBoolean: undefined, null, false, 0 and "" are falsy,
      every object is truthy. */
  function Truthy(v: Value): (t: bool)
    ensures !t <==> v in [Undefined, Null, Bool(false), Num(0.0), Str("")]
  {
    match v
    case Undefined => false
    case Null => false
    case Bool(b) => b
    case Num(x) => x != 0.0
    case Str(s) => s != ""
    case Obj(_) => true
  }

  /** Named properties in enumeration order. The operations below are stated
      for any kind of property value. */
  type Props<V> = seq<(string, V)>

  /** A plain object. */
  type Object = Props<Value>

  /** `Object.keys(o)`. */
  function Keys<V>(o: Props<V>): (ks: seq<string>)
    ensures |ks| == |o|
    ensures forall i :: 0 <= i < |o| ==> ks[i] == o[i].0
  {
    if o == [] then [] else [o[0].0] + Keys(o[1..])
  }

  lemma {:induction false} KeysConcat<V>(a: Props<V>, b: Props<V>)
    ensures Keys(a + b) == Keys(a) + Keys(b)
  {
    if a != [] {
      assert (a + b)[1..] == a[1..] + b;
      KeysConcat(a[1..], b);
    }
  }

  /** What every real JavaScript object satisfies: no property name twice. */
  predicate DistinctKeys<V>(o: Props<V>) {
    forall i, j :: 0 <= i < j < |o| ==> o[i].0 != o[j].0
  }

  /** Property read `o[k]`; `None` stands for a missing property. */
  function Get<V>(o: Props<V>, k: string): (r: Option<V>)
    ensures r.Some? <==> k in Keys(o)
  {
    if o == [] then None
    else if o[0].0 == k then Some(o[0].1)
    else Get(o[1..], k)
  }

  /** Property assignment `o[k] = v`: an existing property keeps its place,
      a new one goes last, and distinct names stay distinct. What each name
      holds afterwards is `SetGet`. */
  function Set<V>(o: Props<V>, k: string, v: V): (r: Props<V>)
    ensures Keys(r) == if k in Keys(o) then Keys(o) else Keys(o) + [k]
    ensures DistinctKeys(o) ==> DistinctKeys(r)
  {
    if o == [] then [(k, v)]
    else
      assert o == [o[0]] + o[1..];
      ConsKeys(o[0], o[1..]);
      ConsDistinct(o[0], o[1..]);
      if o[0].0 == k then
        ConsKeys((k, v), o[1..]);
        ConsDistinct((k, v), o[1..]);
        [(k, v)] + o[1..]
      else
        var rest := Set(o[1..], k, v);
        ConsKeys(o[0], rest);
        ConsDistinct(o[0], rest);
        assert Keys([o[0]] + rest) == if k in Keys(o) then Keys(o) else Keys(o) + [k] by {
          ConcatAssoc([o[0].0], Keys(o[1..]), [k]);
        }
        [o[0]] + rest
  }

  /** After `o[k] = v`, `k` holds `v` and every other name holds what it held. */
  lemma {:induction false} SetGet<V>(o: Props<V>, k: string, v: V, j: string)
    ensures Get(Set(o, k, v), j) == if j == k then Some(v) else Get(o, j)
  {
    if o != [] {
      assert o == [o[0]] + o[1..];
      ConsGet(o[0], o[1..]);
      if o[0].0 == k {
        ConsGet((k, v), o[1..]);
      } else {
        ConsGet(o[0], Set(o[1..], k, v));
        SetGet(o[1..], k, v, j);
      }
    }
  }

  /** The names of an object with one property in front. */
  lemma ConsKeys<V>(p: (string, V), o: Props<V>)
    ensures Keys([p] + o) == [p.0] + Keys(o)
  {
    assert ([p] + o)[1..] == o;
  }

  /** Reading an object with one property in front. */
  lemma ConsGet<V>(p: (string, V), o: Props<V>)
    ensures forall j :: Get([p] + o, j) == if j == p.0 then Some(p.1) else Get(o, j)
  {
    assert ([p] + o)[1..] == o;
  }

  /** Distinct names of an object with one property in front. */
  lemma ConsDistinct<V>(p: (string, V), o: Props<V>)
    ensures DistinctKeys([p] + o) <==> p.0 !in Keys(o) && DistinctKeys(o)
  {
    var r := [p] + o;
    assert r[1..] == o;
    ConsKeys(p, o);
    if DistinctKeys(r) {
      forall i, j | 0 <= i < j < |o| ensures o[i].0 != o[j].0 {
        assert o[i] == r[i + 1] && o[j] == r[j + 1];
      }
    }
  }

  /** The effect of assigning the properties of `source`, in order, onto
      `target` (what `Object.assign(target, source)` does). */
  function Assign<V>(target: Props<V>, source: Props<V>): (r: Props<V>)
    ensures DistinctKeys(target) ==> DistinctKeys(r)
    ensures |target| <= |r| <= |target| + |source|
    ensures Keys(r)[..|target|] == Keys(target)
    ensures forall k :: k in Keys(r) <==> k in Keys(target) || k in Keys(source)
    decreases |source|
  {
    if source == [] then target
    else
      var n := |source| - 1;
      var before := Assign(target, source[..n]);
      var r := Set(before, source[n].0, source[n].1);
      SetKeys(before, source[n].0, source[n].1);
      SnocKeys(source);
      r
  }

  /** The names after `o[k] = v`: those of `o`, in place, and `k`. */
  lemma SetKeys<V>(o: Props<V>, k: string, v: V)
    ensures Keys(Set(o, k, v))[..|o|] == Keys(o)
    ensures forall j :: j in Keys(Set(o, k, v)) <==> j in Keys(o) || j == k
  {
  }

  /** A non-empty sequence is its prefix and its last element. */
  lemma SnocSplit<T>(s: seq<T>)
    requires s != []
    ensures s == s[..|s| - 1] + [s[|s| - 1]]
  {
  }

  /** The names of an object are those before its last property and that one. */
  lemma SnocKeys<V>(o: Props<V>)
    requires o != []
    ensures forall j :: j in Keys(o) <==> j in Keys(o[..|o| - 1]) || j == o[|o| - 1].0
  {
    var n := |o| - 1;
    SnocSplit(o);
    KeysConcat(o[..n], [o[n]]);
  }

  /** Assigning one more property of `source` is one more `Set`. */
  lemma AssignStep<V>(target: Props<V>, source: Props<V>, i: nat)
    requires i < |source|
    ensures Assign(target, source[..i + 1]) == Set(Assign(target, source[..i]), source[i].0, source[i].1)
  {
    assert source[..i + 1][..i] == source[..i];
  }

  /** In an object with distinct names, reading the i-th name gives the i-th value. */
  lemma {:induction false} GetAt<V>(o: Props<V>, i: nat)
    requires DistinctKeys(o) && i < |o|
    ensures Get(o, o[i].0) == Some(o[i].1)
  {
    if i > 0 {
      assert o[1..][i - 1] == o[i];
      GetAt(o[1..], i - 1);
    }
  }

  /** Assigning a name the object does not have appends exactly one property. */
  lemma {:induction false} SetFresh<V>(o: Props<V>, k: string, v: V)
    requires k !in Keys(o)
    ensures Set(o, k, v) == o + [(k, v)]
  {
    if o != [] {
      ConsKeys(o[0], o[1..]);
      assert o == [o[0]] + o[1..];
      SetFresh(o[1..], k, v);
      ConcatAssoc([o[0]], o[1..], [(k, v)]);
    }
  }

  /** Dropping the last property of an object with distinct names leaves
      distinct names, none of them the dropped one. */
  lemma DistinctSnoc<V>(o: Props<V>)
    requires o != [] && DistinctKeys(o)
    ensures DistinctKeys(o[..|o| - 1])
    ensures o[|o| - 1].0 !in Keys(o[..|o| - 1])
  {
    var n := |o| - 1;
    assert forall i :: 0 <= i < n ==> o[..n][i] == o[i];
  }

  /** Assigning properties none of which the target has appends them in order. */
  lemma {:induction false} AssignFresh<V>(target: Props<V>, source: Props<V>)
    requires DistinctKeys(source)
    requires forall k :: k in Keys(source) ==> k !in Keys(target)
    ensures Assign(target, source) == target + source
    decreases |source|
  {
    if source != [] {
      var n := |source| - 1;
      var prefix := source[..n];
      var last := source[n];
      SnocSplit(source);
      SnocKeys(source);
      DistinctSnoc(source);
      AssignFresh(target, prefix);
      assert last.0 !in Keys(target + prefix) by {
        KeysConcat(target, prefix);
      }
      SetFresh(target + prefix, last.0, last.1);
      ConcatAssoc(target, prefix, [last]);
    }
  }

  lemma ConcatAssoc<T>(a: seq<T>, b: seq<T>, c: seq<T>)
    ensures (a + b) + c == a + (b + c)
  {
  }

  /** After `Assign`, a name of `source` holds its value from `source`;
      every other name holds what it held in `target`. */
  lemma {:induction false} AssignGet<V>(target: Props<V>, source: Props<V>, k: string)
    requires DistinctKeys(source)
    ensures Get(Assign(target, source), k) == if k in Keys(source) then Get(source, k) else Get(target, k)
    decreases |source|
  {
    if source != [] {
      var n := |source| - 1;
      var prefix := source[..n];
      SnocKeys(source);
      DistinctSnoc(source);
      AssignGet(target, prefix, k);
      SetGet(Assign(target, prefix), source[n].0, source[n].1, k);
      if k == source[n].0 {
        GetAt(source, n);
      } else if k in Keys(prefix) {
        var i :| 0 <= i < n && Keys(prefix)[i] == k;
        GetAt(prefix, i);
        GetAt(source, i);
      }
    }
  }
}
