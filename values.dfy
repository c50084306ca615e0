/** Python-side values the query-set builder handles: optional values,
    raised exceptions, keyword-argument values, model instances and
    dictionaries (kept as insertion-ordered sequences of pairs). */
module Values {

  datatype Option<+T> = None | Some(value: T)

  /** The outcome of an operation that may raise. */
  datatype Result<+T, +E> = Success(value: T) | Failure(error: E)

  /** The exceptions the builder and the foreign-key descriptor raise. */
  datatype Error =
    | KeyError(key: string)
    | AttributeError(name: string)
    | TypeError
    | ValueError
    | ObjectNotFound
    | MultipleObjectsReturned
    | FieldDefinitionError(message: string)

  /** A keyword-argument value: a scalar or a model instance. */
  datatype Value =
    | NoneVal
    | BoolVal(b: bool)
    | IntVal(i: int)
    | StrVal(s: string)
    | Obj(e: Entity)

  /** A model instance: its model's name, its primary key (`instance.pk`) and
      its attribute dictionary (`instance.__dict__`). */
  datatype Entity = Entity(model: string, pk: Value, attrs: seq<(string, Value)>)

  /** Python truthiness of a value (`if value:`). */
  predicate Truthy(v: Value)
  {
    match v
    case NoneVal => false
    case BoolVal(b) => b
    case IntVal(i) => i != 0
    case StrVal(s) => s != []
    case Obj(_) => true
  }

  /** Truthiness of an optional name (`not self._m2m_related`). */
  predicate TruthyName(n: Option<string>)
  {
    n.Some? && n.value != []
  }

  /** A Python dictionary, in insertion order. */
  type Dict = seq<(string, Value)>

  function Keys(d: Dict): (ks: seq<string>)
    ensures |ks| == |d|
    ensures forall i :: 0 <= i < |d| ==> ks[i] == d[i].0
  {
    if d == [] then [] else [d[0].0] + Keys(d[1..])
  }

  /** No key occurs twice: what every Python dictionary satisfies. */
  predicate IsDict(d: Dict)
  {
    forall i, j :: 0 <= i < j < |d| ==> d[i].0 != d[j].0
  }

  /** `d.get(k)`. */
  function Get(d: Dict, k: string): (r: Option<Value>)
    ensures r.None? <==> k !in Keys(d)
    ensures r.Some? ==> (k, r.value) in d
  {
    if d == [] then None
    else if d[0].0 == k then Some(d[0].1)
    else Get(d[1..], k)
  }

  /** `d[k] = v`: an existing key keeps its position, a new key goes last. */
  function Set(d: Dict, k: string, v: Value): (r: Dict)
    ensures k in Keys(d) ==> |r| == |d|
    ensures k !in Keys(d) ==> r == d + [(k, v)]
  {
    if d == [] then [(k, v)]
    else if d[0].0 == k then [(k, v)] + d[1..]
    else [d[0]] + Set(d[1..], k, v)
  }

  /** `d.pop(k)` without the popped value: every entry for `k` removed. */
  function Pop(d: Dict, k: string): (r: Dict)
    ensures k !in Keys(r)
    ensures forall x :: x in Keys(r) ==> x in Keys(d)
  {
    if d == [] then []
    else if d[0].0 == k then Pop(d[1..], k)
    else [d[0]] + Pop(d[1..], k)
  }

  /** `d.update(other)`, also `{**d, **other}`: entries of `other` in order. */
  function Update(d: Dict, other: Dict): Dict
    decreases |other|
  {
    if other == [] then d else Update(Set(d, other[0].0, other[0].1), other[1..])
  }

  lemma {:induction false} GetSet(d: Dict, k: string, v: Value, x: string)
    ensures Get(Set(d, k, v), x) == if x == k then Some(v) else Get(d, x)
  {
    if d != [] && d[0].0 != k {
      GetSet(d[1..], k, v, x);
    }
  }

  lemma {:induction false} KeysSet(d: Dict, k: string, v: Value)
    ensures forall x :: x in Keys(Set(d, k, v)) <==> x in Keys(d) || x == k
    ensures IsDict(d) ==> IsDict(Set(d, k, v))
  {
    if d != [] && d[0].0 != k {
      KeysSet(d[1..], k, v);
      var r := Set(d, k, v);
      assert r == [d[0]] + Set(d[1..], k, v);
      forall x ensures x in Keys(r) <==> x in Keys(d) || x == k {
        assert Keys(r) == [d[0].0] + Keys(Set(d[1..], k, v));
        assert Keys(d) == [d[0].0] + Keys(d[1..]);
      }
      if IsDict(d) {
        assert IsDict(d[1..]);
        forall j | 0 < j < |r| ensures r[0].0 != r[j].0 {
          assert r[j].0 in Keys(Set(d[1..], k, v));
          assert d[0].0 !in Keys(d[1..]);
        }
      }
    } else if d != [] {
      var r := Set(d, k, v);
      assert Keys(r) == [k] + Keys(d[1..]);
      assert Keys(d) == [k] + Keys(d[1..]);
    }
  }

  /** After `d.update(other)` a key maps to its value in `other` when it is
      one of `other`'s keys, and to its old value in `d` otherwise. */
  lemma {:induction false} GetUpdate(d: Dict, other: Dict, x: string)
    requires IsDict(other)
    ensures Get(Update(d, other), x) == if x in Keys(other) then Get(other, x) else Get(d, x)
    decreases |other|
  {
    if other != [] {
      var k, v := other[0].0, other[0].1;
      var rest := other[1..];
      assert IsDict(rest);
      assert Keys(other) == [k] + Keys(rest);
      GetUpdate(Set(d, k, v), rest, x);
      GetSet(d, k, v, x);
      if x == k {
        assert k !in Keys(rest);
      }
    }
  }

  /** `d.update(other)` keeps the dictionary property and its key set is the
      union of both key sets. */
  lemma {:induction false} KeysUpdate(d: Dict, other: Dict)
    ensures forall x :: x in Keys(Update(d, other)) <==> x in Keys(d) || x in Keys(other)
    ensures IsDict(d) ==> IsDict(Update(d, other))
    decreases |other|
  {
    if other != [] {
      var k, v := other[0].0, other[0].1;
      assert Keys(other) == [k] + Keys(other[1..]);
      KeysSet(d, k, v);
      KeysUpdate(Set(d, k, v), other[1..]);
    }
  }

  lemma {:induction false} GetPop(d: Dict, k: string, x: string)
    ensures Get(Pop(d, k), x) == if x == k then None else Get(d, x)
  {
    if d != [] {
      GetPop(d[1..], k, x);
    }
  }
}
