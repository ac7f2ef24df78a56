/**
 Project specs as JSON values, and when two of them mean the same to a simulation.

 `WithoutNulls` is the source's normal form. `SameModuloNulls` says, without normalising
 anything, that two values agree once a key that is absent reads as null. The main result,
 `NormalFormsDecide`, is that comparing normal forms decides exactly that relation.
 */
module Json {

  datatype Json =
    | Null
    | Bool(truth: bool)
    | Number(n: int)
    | Text(s: string)
    | List(items: seq<Json>)
    | Object(fields: map<string, Json>)

  // A project spec is a JSON object.
  type Spec = map<string, Json>

  // Python's `d.get(k)`: a key that is left out reads as null.
  function Get(fields: map<string, Json>, key: string): Json {
    if key in fields then fields[key] else Null
  }

  function WithoutNulls(value: Json): Json {
    match value
    case Object(fields) => Object(map k | k in fields && fields[k] != Null :: WithoutNulls(fields[k]))
    case List(items) => List(seq(|items|, i requires 0 <= i < |items| => WithoutNulls(items[i])))
    case _ => value
  }

  /** Every key reads the same in both objects, an absent key reading as null; lists agree
      position by position, nulls included; anything else is equal. */
  ghost predicate SameModuloNulls(a: Json, b: Json)
    decreases a
  {
    match a
    case Object(fields) =>
      && b.Object?
      && (forall k | k in fields :: SameModuloNulls(fields[k], Get(b.fields, k)))
      && (forall k | k in b.fields && k !in fields :: b.fields[k] == Null)
    case List(items) =>
      && b.List?
      && |items| == |b.items|
      && (forall i | 0 <= i < |items| :: SameModuloNulls(items[i], b.items[i]))
    case _ => a == b
  }

  // Only null normalises to null, so a key survives normalisation exactly when it is not null.
  lemma NullStaysAlone(value: Json)
    ensures WithoutNulls(value) == Null <==> value == Null
  {
  }

  lemma {:induction false} NormalFormsDecide(a: Json, b: Json)
    ensures WithoutNulls(a) == WithoutNulls(b) <==> SameModuloNulls(a, b)
    decreases a
  {
    match a
    case Object(fields) =>
      if b.Object? {
        forall k | k in fields
          ensures WithoutNulls(fields[k]) == WithoutNulls(Get(b.fields, k))
                  <==> SameModuloNulls(fields[k], Get(b.fields, k))
        {
          NormalFormsDecide(fields[k], Get(b.fields, k));
        }
        forall k | k in b.fields && k !in fields
          ensures WithoutNulls(Null) == WithoutNulls(b.fields[k]) <==> b.fields[k] == Null
        {
          NullStaysAlone(b.fields[k]);
        }
        ObjectNormalForms(fields, b.fields);
        assert forall k :: k in fields || k in b.fields <==> k in fields.Keys + b.fields.Keys;
      }
    case List(items) =>
      if b.List? {
        var xs, ys := WithoutNulls(a).items, WithoutNulls(b).items;
        assert |xs| == |items| && |ys| == |b.items|;
        if |xs| == |ys| {
          forall i | 0 <= i < |items|
            ensures xs[i] == ys[i] <==> SameModuloNulls(items[i], b.items[i])
          {
            NormalFormsDecide(items[i], b.items[i]);
          }
          assert xs == ys <==> forall i | 0 <= i < |xs| :: xs[i] == ys[i];
        }
      }
    case _ =>
  }

  // Two objects have one normal form when every key has one, absent reading as null.
  lemma ObjectNormalForms(m: map<string, Json>, n: map<string, Json>)
    ensures WithoutNulls(Object(m)) == WithoutNulls(Object(n))
            <==> (forall k | k in m.Keys + n.Keys :: WithoutNulls(Get(m, k)) == WithoutNulls(Get(n, k)))
  {
    var x, y := WithoutNulls(Object(m)).fields, WithoutNulls(Object(n)).fields;
    forall k | k in m.Keys + n.Keys
      ensures WithoutNulls(Get(m, k)) == WithoutNulls(Get(n, k)) <==> (k in x <==> k in y) && (k in x ==> x[k] == y[k])
    {
      NullStaysAlone(Get(m, k));
      NullStaysAlone(Get(n, k));
    }
    if forall k | k in m.Keys + n.Keys :: WithoutNulls(Get(m, k)) == WithoutNulls(Get(n, k)) {
      forall k ensures k in x <==> k in y { assert k in x || k in y ==> k in m.Keys + n.Keys; }
      assert x.Keys == y.Keys;
      assert x == y;
    }
  }

  lemma {:induction false} WithoutNullsIdempotent(value: Json)
    ensures WithoutNulls(WithoutNulls(value)) == WithoutNulls(value)
  {
    match value
    case Object(fields) =>
      var once := WithoutNulls(value).fields;
      forall k | k in once ensures once[k] != Null && WithoutNulls(once[k]) == once[k] {
        NullStaysAlone(fields[k]);
        WithoutNullsIdempotent(fields[k]);
      }
      assert WithoutNulls(Object(once)).fields == once;
    case List(items) =>
      var once := WithoutNulls(value).items;
      forall i | 0 <= i < |items| ensures WithoutNulls(once[i]) == once[i] {
        WithoutNullsIdempotent(items[i]);
      }
      assert WithoutNulls(List(once)).items == once;
    case _ =>
  }

  lemma SameModuloNullsIsAnEquivalence(a: Json, b: Json, c: Json)
    ensures SameModuloNulls(a, a)
    ensures SameModuloNulls(a, b) ==> SameModuloNulls(b, a)
    ensures SameModuloNulls(a, b) && SameModuloNulls(b, c) ==> SameModuloNulls(a, c)
  {
    NormalFormsDecide(a, a);
    NormalFormsDecide(a, b);
    NormalFormsDecide(b, a);
    NormalFormsDecide(b, c);
    NormalFormsDecide(a, c);
  }

  // One step down into a value: to a key of an object or a position of a list.
  datatype Step = Key(key: string) | At(index: nat)

  /** `value` with `key` written as null in the object that `path` leads to. A path that leads
      nowhere, or to an object that already has the key, leaves the value as it is. */
  function PutNull(value: Json, path: seq<Step>, key: string): Json
    decreases |path|
  {
    if path == [] then
      if value.Object? && key !in value.fields then Object(value.fields[key := Null]) else value
    else
      match path[0]
      case Key(k) =>
        if value.Object? && k in value.fields
        then Object(value.fields[k := PutNull(value.fields[k], path[1..], key)])
        else value
      case At(i) =>
        if value.List? && i < |value.items|
        then List(value.items[i := PutNull(value.items[i], path[1..], key)])
        else value
  }

  /** Writing a key in as null at any depth, or leaving such a key out again, changes nothing. */
  lemma {:induction false} NullKeysDoNotCount(value: Json, path: seq<Step>, key: string)
    ensures SameModuloNulls(value, PutNull(value, path, key))
    ensures SameModuloNulls(PutNull(value, path, key), value)
    decreases |path|
  {
    var edited := PutNull(value, path, key);
    forall v: Json ensures SameModuloNulls(v, v) {
      SameModuloNullsIsAnEquivalence(v, v, v);
    }
    if path == [] {
    } else {
      match path[0]
      case Key(k) =>
        if value.Object? && k in value.fields {
          NullKeysDoNotCount(value.fields[k], path[1..], key);
        }
      case At(i) =>
        if value.List? && i < |value.items| {
          NullKeysDoNotCount(value.items[i], path[1..], key);
        }
    }
    SameModuloNullsIsAnEquivalence(value, edited, value);
  }
}
