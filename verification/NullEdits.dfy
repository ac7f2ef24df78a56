/**
 Edits of one null key at a time, and the values that can be reached by them.

 The main result, `EditsReachExactly`, is that `SameModuloNulls` holds of exactly the values that
 some chain of such edits connects: writing a null key in at any depth, or leaving one out.
 */
module NullEdits {
  import opened Chains
  import opened Json

  // One of the two is the other with a null key written in.
  ghost predicate NullEdit(a: Json, b: Json) {
    exists path, key :: b == PutNull(a, path, key) || a == PutNull(b, path, key)
  }

  ghost predicate EditsFrom(a: Json, chain: seq<Json>, b: Json) {
    Connects(NullEdit, a, chain, b)
  }

  lemma EditInField(fields: map<string, Json>, k: string, a: Json, b: Json)
    requires NullEdit(a, b)
    ensures NullEdit(Object(fields[k := a]), Object(fields[k := b]))
  {
    var path, key :| b == PutNull(a, path, key) || a == PutNull(b, path, key);
    assert fields[k := a][k := b] == fields[k := b] && fields[k := b][k := a] == fields[k := a];
    assert ([Key(k)] + path)[1..] == path;
    assert || Object(fields[k := b]) == PutNull(Object(fields[k := a]), [Key(k)] + path, key)
           || Object(fields[k := a]) == PutNull(Object(fields[k := b]), [Key(k)] + path, key);
  }

  lemma EditAtPosition(items: seq<Json>, i: nat, a: Json, b: Json)
    requires i < |items| && NullEdit(a, b)
    ensures NullEdit(List(items[i := a]), List(items[i := b]))
  {
    var path, key :| b == PutNull(a, path, key) || a == PutNull(b, path, key);
    assert items[i := a][i := b] == items[i := b] && items[i := b][i := a] == items[i := a];
    assert ([At(i)] + path)[1..] == path;
    assert || List(items[i := b]) == PutNull(List(items[i := a]), [At(i)] + path, key)
           || List(items[i := a]) == PutNull(List(items[i := b]), [At(i)] + path, key);
  }

  lemma EditsInField(fields: map<string, Json>, k: string, a: Json, chain: seq<Json>, b: Json)
    returns (lifted: seq<Json>)
    requires EditsFrom(a, chain, b)
    ensures EditsFrom(Object(fields[k := a]), lifted, Object(fields[k := b]))
  {
    lifted := seq(|chain|, i requires 0 <= i < |chain| => Object(fields[k := chain[i]]));
    forall i | 0 < i < |lifted| ensures NullEdit(lifted[i - 1], lifted[i]) {
      EditInField(fields, k, chain[i - 1], chain[i]);
    }
  }

  lemma EditsAtPosition(items: seq<Json>, p: nat, a: Json, chain: seq<Json>, b: Json) returns (lifted: seq<Json>)
    requires p < |items| && EditsFrom(a, chain, b)
    ensures EditsFrom(List(items[p := a]), lifted, List(items[p := b]))
  {
    lifted := seq(|chain|, i requires 0 <= i < |chain| => List(items[p := chain[i]]));
    forall i | 0 < i < |lifted| ensures NullEdit(lifted[i - 1], lifted[i]) {
      EditAtPosition(items, p, chain[i - 1], chain[i]);
    }
  }

  /************************************* Down to the normal form *************************************/

  // The object with the fields in `done` in normal form, and the others as they are.
  function Normalised(fields: map<string, Json>, done: set<string>): map<string, Json> {
    map k | k in fields :: if k in done then WithoutNulls(fields[k]) else fields[k]
  }

  lemma {:induction false} EditsOfFields(fields: map<string, Json>, done: set<string>) returns (chain: seq<Json>)
    requires done <= fields.Keys
    ensures EditsFrom(Object(fields), chain, Object(Normalised(fields, done)))
    decreases Object(fields), 0, |done|
  {
    if done == {} {
      assert Normalised(fields, {}) == fields;
      chain := [Object(fields)];
    } else {
      var k :| k in done;
      var before := Normalised(fields, done - {k});
      var first := EditsOfFields(fields, done - {k});
      var inner := EditsToNormalForm(fields[k]);
      var second := EditsInField(before, k, fields[k], inner, WithoutNulls(fields[k]));
      assert before[k := fields[k]] == before;
      assert before[k := WithoutNulls(fields[k])] == Normalised(fields, done);
      chain := Join(first, second);
      Joined(NullEdit, Object(fields), first, Object(before), second, Object(Normalised(fields, done)));
    }
  }

  lemma {:induction false} EditsDroppingNulls(fields: map<string, Json>, nulls: set<string>) returns (chain: seq<Json>)
    requires forall k | k in nulls :: k in fields && fields[k] == Null
    ensures EditsFrom(Object(fields), chain, Object(fields - nulls))
    decreases |nulls|
  {
    if nulls == {} {
      assert fields - {} == fields;
      chain := [Object(fields)];
    } else {
      var k :| k in nulls;
      var rest := fields - {k};
      assert PutNull(Object(rest), [], k) == Object(fields) by {
        assert rest[k := Null] == fields;
      }
      assert EditsFrom(Object(fields), [Object(fields), Object(rest)], Object(rest));
      var second := EditsDroppingNulls(rest, nulls - {k});
      assert rest - (nulls - {k}) == fields - nulls;
      chain := Join([Object(fields), Object(rest)], second);
      Joined(NullEdit, Object(fields), [Object(fields), Object(rest)], Object(rest), second, Object(fields - nulls));
    }
  }

  lemma {:induction false} EditsOfItems(items: seq<Json>, done: nat) returns (chain: seq<Json>)
    requires done <= |items|
    ensures EditsFrom(List(items), chain, List(WithoutNulls(List(items)).items[..done] + items[done..]))
    decreases List(items), 0, done
  {
    var normal := WithoutNulls(List(items)).items;
    if done == 0 {
      assert normal[..0] + items[0..] == items;
      chain := [List(items)];
    } else {
      var p := done - 1;
      var before := normal[..p] + items[p..];
      var first := EditsOfItems(items, p);
      var inner := EditsToNormalForm(items[p]);
      var second := EditsAtPosition(before, p, items[p], inner, WithoutNulls(items[p]));
      assert before[p := items[p]] == before;
      assert before[p := WithoutNulls(items[p])] == normal[..done] + items[done..];
      chain := Join(first, second);
      Joined(NullEdit, List(items), first, List(before), second, List(normal[..done] + items[done..]));
    }
  }

  lemma {:induction false} EditsToNormalForm(value: Json) returns (chain: seq<Json>)
    ensures EditsFrom(value, chain, WithoutNulls(value))
    decreases value, 1
  {
    match value
    case Object(fields) =>
      var all := Normalised(fields, fields.Keys);
      var nulls := set k | k in all && all[k] == Null;
      var first := EditsOfFields(fields, fields.Keys);
      var second := EditsDroppingNulls(all, nulls);
      assert all - nulls == WithoutNulls(value).fields by {
        forall k | k in fields ensures all[k] == Null <==> fields[k] == Null { NullStaysAlone(fields[k]); }
      }
      chain := Join(first, second);
      Joined(NullEdit, value, first, Object(all), second, WithoutNulls(value));
    case List(items) =>
      chain := EditsOfItems(items, |items|);
      assert WithoutNulls(value).items[..|items|] + items[|items|..] == WithoutNulls(value).items;
    case _ =>
      chain := [value];
  }

  lemma {:induction false} EditsChangeNothing(a: Json, chain: seq<Json>, b: Json)
    requires EditsFrom(a, chain, b)
    ensures SameModuloNulls(a, b)
    decreases |chain|
  {
    var n := |chain| - 1;
    if n == 0 {
      SameModuloNullsIsAnEquivalence(a, a, a);
    } else {
      AllButLast(NullEdit, a, chain, b);
      EditsChangeNothing(a, chain[..n], chain[n - 1]);
      var path, key :| b == PutNull(chain[n - 1], path, key) || chain[n - 1] == PutNull(b, path, key);
      NullKeysDoNotCount(chain[n - 1], path, key);
      NullKeysDoNotCount(b, path, key);
      SameModuloNullsIsAnEquivalence(a, chain[n - 1], b);
    }
  }

  /** Two values agree modulo nulls exactly when null keys can be written in and left out, one at a
      time and at any depth, until the one has become the other. */
  lemma EditsReachExactly(a: Json, b: Json)
    ensures SameModuloNulls(a, b) <==> exists chain :: EditsFrom(a, chain, b)
  {
    if SameModuloNulls(a, b) {
      NormalFormsDecide(a, b);
      var down := EditsToNormalForm(a);
      var up := EditsToNormalForm(b);
      TurnedRound(NullEdit, b, up, WithoutNulls(b));
      Joined(NullEdit, a, down, WithoutNulls(a), Reversed(up), b);
      assert EditsFrom(a, Join(down, Reversed(up)), b);
    }
    if exists chain :: EditsFrom(a, chain, b) {
      var chain :| EditsFrom(a, chain, b);
      EditsChangeNothing(a, chain, b);
    }
  }
}
