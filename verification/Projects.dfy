/**
 Projects: versioned saves, the version at which the simulation inputs last changed, and the
 links from scenarios to their base.

 A project's history, the spec at every version, is not stored by the program. `Tracks` ties the
 two stored counters to it, and the results say what a reader may conclude from the counters.
 */
module Projects {
  import opened Wrappers
  import opened Chains
  import opened Json
  import opened NullEdits

  // A row of the projects table; its other columns repeat the spec or are not read back.
  datatype Project = Project(spec: Spec, version: int, inputsVersion: int, base: Option<nat>)

  type Table = map<nat, Project>

  const SIMULATION_INPUTS: seq<string> := ["components", "routes", "tours", "trains"]

  predicate InputsDiffer(before: Spec, after: Spec) {
    exists i | 0 <= i < |SIMULATION_INPUTS| ::
      WithoutNulls(Get(before, SIMULATION_INPUTS[i])) != WithoutNulls(Get(after, SIMULATION_INPUTS[i]))
  }

  // The sections of a spec that a simulation reads.
  ghost predicate Section(key: string) {
    key == "components" || key == "routes" || key == "tours" || key == "trains"
  }

  // Two specs that no simulation can tell apart.
  ghost predicate SameInputs(a: Spec, b: Spec) {
    forall k | Section(k) :: SameModuloNulls(Get(a, k), Get(b, k))
  }

  lemma SectionsAreTheInputs()
    ensures forall k :: Section(k) <==> k in SIMULATION_INPUTS
  {
    assert SIMULATION_INPUTS[0] == "components" && SIMULATION_INPUTS[1] == "routes";
    assert SIMULATION_INPUTS[2] == "tours" && SIMULATION_INPUTS[3] == "trains";
  }

  /** The comparison of two specs finds a difference exactly when their components, their routes, their
      tours or their trains differ modulo null keys. */
  lemma InputsDifferDecides(a: Spec, b: Spec)
    ensures InputsDiffer(a, b) <==> !SameInputs(a, b)
    ensures SameInputs(a, b) <==>
              && SameModuloNulls(Get(a, "components"), Get(b, "components"))
              && SameModuloNulls(Get(a, "routes"), Get(b, "routes"))
              && SameModuloNulls(Get(a, "tours"), Get(b, "tours"))
              && SameModuloNulls(Get(a, "trains"), Get(b, "trains"))
  {
    SectionsAreTheInputs();
    assert Section("components") && Section("routes") && Section("tours") && Section("trains");
    forall k | Section(k)
      ensures WithoutNulls(Get(a, k)) == WithoutNulls(Get(b, k)) <==> SameModuloNulls(Get(a, k), Get(b, k))
    {
      NormalFormsDecide(Get(a, k), Get(b, k));
    }
    forall i | 0 <= i < |SIMULATION_INPUTS| ensures Section(SIMULATION_INPUTS[i]) {
      assert SIMULATION_INPUTS[i] in SIMULATION_INPUTS;
    }
    if !SameInputs(a, b) {
      var k :| Section(k) && !SameModuloNulls(Get(a, k), Get(b, k));
      var i :| 0 <= i < |SIMULATION_INPUTS| && SIMULATION_INPUTS[i] == k;
    }
  }

  lemma SameInputsIsAnEquivalence(a: Spec, b: Spec, c: Spec)
    ensures SameInputs(a, a)
    ensures SameInputs(a, b) ==> SameInputs(b, a)
    ensures SameInputs(a, b) && SameInputs(b, c) ==> SameInputs(a, c)
  {
    forall k | Section(k)
      ensures SameModuloNulls(Get(a, k), Get(a, k))
      ensures SameModuloNulls(Get(a, k), Get(b, k)) ==> SameModuloNulls(Get(b, k), Get(a, k))
      ensures SameModuloNulls(Get(a, k), Get(b, k)) && SameModuloNulls(Get(b, k), Get(c, k)) ==>
                SameModuloNulls(Get(a, k), Get(c, k))
    {
      SameModuloNullsIsAnEquivalence(Get(a, k), Get(b, k), Get(c, k));
    }
  }

  /********************************************** Saving **********************************************/

  datatype SaveResult = Saved(project: Project) | Stale(version: int) | NotFound

  /** `update_project`, which a row lock makes atomic: the answer and the table after it. */
  function Save(table: Table, id: nat, spec: Spec, expected: Option<int>): (SaveResult, Table) {
    if id !in table then (NotFound, table)
    else
      var row := table[id];
      if expected.Some? && expected.value != row.version then (Stale(row.version), table)
      else
        var version := row.version + 1;
        var inputsVersion := if InputsDiffer(row.spec, spec) then version else row.inputsVersion;
        var saved := Project(spec, version, inputsVersion, row.base);
        (Saved(saved), table[id := saved])
  }

  // The base a new project is linked to when `from` is asked for: `from` itself, or its own base.
  function BaseFor(table: Table, from: nat): nat
    requires from in table
  {
    table[from].base.GetOr(from)
  }

  function AddProject(table: Table, id: nat, spec: Spec, base: Option<nat>): Table {
    table[id := Project(spec, 1, 1, base)]
  }

  // Deleting a project; the foreign key sets the links to it to null.
  function RemoveProject(table: Table, id: nat): Table {
    map q | q in table && q != id ::
      if table[q].base == Some(id) then table[q].(base := None) else table[q]
  }

  /*************************************** Versions and history ***************************************/

  // One committed save, with the version its request was conditional on.
  datatype Commit = Commit(spec: Spec, expected: Option<int>)

  // Version v of a project was committed by `history[v - 1]`.
  type History = seq<Commit>

  ghost predicate Changed(h: History, v: int) {
    2 <= v <= |h| && !SameInputs(h[v - 2].spec, h[v - 1].spec)
  }

  // `r` is the largest version whose save changed the inputs, or 1 if none did.
  ghost predicate LastChangedAt(h: History, r: int) {
    && 1 <= r <= |h|
    && (r == 1 || Changed(h, r))
    && (forall v | r < v <= |h| :: !Changed(h, v))
  }

  ghost predicate Tracks(p: Project, h: History) {
    && p.version == |h|
    && 1 <= |h| && h[|h| - 1].spec == p.spec
    && LastChangedAt(h, p.inputsVersion)
  }

  // A conditional save replaced exactly the version it named.
  ghost predicate Conditional(h: History) {
    forall i | 1 <= i < |h| :: h[i].expected.Some? ==> h[i].expected.value == i
  }

  lemma SaveMovesInputsVersion(table: Table, id: nat, spec: Spec, expected: Option<int>)
    requires id in table && Save(table, id, spec, expected).0.Saved?
    ensures var before := table[id].spec;
            Save(table, id, spec, expected).1[id].inputsVersion
            == if && SameModuloNulls(Get(before, "components"), Get(spec, "components"))
                  && SameModuloNulls(Get(before, "routes"), Get(spec, "routes"))
                  && SameModuloNulls(Get(before, "tours"), Get(spec, "tours"))
                  && SameModuloNulls(Get(before, "trains"), Get(spec, "trains"))
               then table[id].inputsVersion else table[id].version + 1
  {
    InputsDifferDecides(table[id].spec, spec);
  }

  // One more commit changes what the earlier ones did not.
  lemma OneMoreCommit(p: Project, h: History, commit: Commit, q: Project)
    requires Tracks(p, h) && q.spec == commit.spec && q.version == p.version + 1
    requires q.inputsVersion == if SameInputs(p.spec, q.spec) then p.inputsVersion else q.version
    ensures Tracks(q, h + [commit])
  {
    var after := h + [commit];
    assert forall v | 2 <= v <= |h| :: Changed(after, v) <==> Changed(h, v);
    assert Changed(after, |h| + 1) <==> !SameInputs(p.spec, q.spec);
  }

  /** `inputs_version` is exact over any history: a save that goes through moves it to the new
      version if the save changed the inputs and leaves it otherwise, so it stays the largest
      version whose save changed them. */
  lemma SaveTracks(table: Table, id: nat, spec: Spec, expected: Option<int>, h: History)
    requires id in table && Tracks(table[id], h) && Conditional(h)
    requires Save(table, id, spec, expected).0.Saved?
    ensures var after := h + [Commit(spec, expected)];
            && Tracks(Save(table, id, spec, expected).1[id], after)
            && Conditional(after)
    ensures var before := table[id].spec;
            Save(table, id, spec, expected).1[id].inputsVersion
            == if && SameModuloNulls(Get(before, "components"), Get(spec, "components"))
                  && SameModuloNulls(Get(before, "routes"), Get(spec, "routes"))
                  && SameModuloNulls(Get(before, "tours"), Get(spec, "tours"))
                  && SameModuloNulls(Get(before, "trains"), Get(spec, "trains"))
               then table[id].inputsVersion else table[id].version + 1
  {
    SaveMovesInputsVersion(table, id, spec, expected);
    InputsDifferDecides(table[id].spec, spec);
    OneMoreCommit(table[id], h, Commit(spec, expected), Save(table, id, spec, expected).1[id]);
  }

  lemma CreationTracks(spec: Spec, base: Option<nat>)
    ensures Tracks(Project(spec, 1, 1, base), [Commit(spec, None)]) && Conditional([Commit(spec, None)])
  {
  }

  /***************************** Saves that leave `inputs_version` alone *****************************/

  // A change outside the four sections.
  ghost predicate OutsideInputs(a: Spec, b: Spec) {
    forall k | Section(k) :: Get(a, k) == Get(b, k)
  }

  ghost predicate SameBut(a: Spec, b: Spec, section: string) {
    forall k | k != section :: Get(a, k) == Get(b, k)
  }

  // One null key written in, or left out, at any depth of a section, or a change outside the sections.
  ghost predicate CosmeticEdit(a: Spec, b: Spec) {
    || OutsideInputs(a, b)
    || exists section :: NullEdit(Get(a, section), Get(b, section)) && SameBut(a, b, section)
  }

  lemma CosmeticEditsKeepInputs(a: Spec, b: Spec)
    requires CosmeticEdit(a, b)
    ensures SameInputs(a, b)
  {
    forall k | Section(k) ensures SameModuloNulls(Get(a, k), Get(b, k)) {
      var x, y := Get(a, k), Get(b, k);
      SameModuloNullsIsAnEquivalence(x, x, x);
      if NullEdit(x, y) {
        assert Connects(NullEdit, x, [x, y], y);
        EditsChangeNothing(x, [x, y], y);
      }
    }
  }

  lemma {:induction false} CosmeticChainsKeepInputs(a: Spec, chain: seq<Spec>, b: Spec)
    requires Connects(CosmeticEdit, a, chain, b)
    ensures SameInputs(a, b)
    decreases |chain|
  {
    SameInputsIsAnEquivalence(a, a, a);
    if |chain| == 1 {
    } else {
      var before := chain[|chain| - 2];
      AllButLast(CosmeticEdit, a, chain, b);
      CosmeticChainsKeepInputs(a, chain[..|chain| - 1], before);
      CosmeticEditsKeepInputs(before, b);
      SameInputsIsAnEquivalence(a, before, b);
    }
  }

  // A chain of edits of one section's value, carried out in the spec.
  lemma EditsOfSection(a: Spec, section: string, value: Json) returns (chain: seq<Spec>)
    requires SameModuloNulls(Get(a, section), value)
    ensures Connects(CosmeticEdit, a, chain, a[section := value])
  {
    EditsReachExactly(Get(a, section), value);
    var edits :| EditsFrom(Get(a, section), edits, value);
    var inside := seq(|edits|, i requires 0 <= i < |edits| => a[section := edits[i]]);
    var first := a[section := Get(a, section)];
    forall i | 0 < i < |inside| ensures CosmeticEdit(inside[i - 1], inside[i]) {
      assert SameBut(inside[i - 1], inside[i], section);
      assert Get(inside[i - 1], section) == edits[i - 1] && Get(inside[i], section) == edits[i];
    }
    assert OutsideInputs(a, first);
    assert Connects(CosmeticEdit, a, [a, first], first);
    chain := Join([a, first], inside);
    Joined(CosmeticEdit, a, [a, first], first, inside, a[section := value]);
  }

  // `a` with the first `n` sections of `b`.
  function WithSections(a: Spec, b: Spec, n: nat): (r: Spec)
    requires n <= |SIMULATION_INPUTS|
    ensures forall k :: Get(r, k) == if k in SIMULATION_INPUTS[..n] then Get(b, k) else Get(a, k)
  {
    if n == 0 then a else WithSections(a, b, n - 1)[SIMULATION_INPUTS[n - 1] := Get(b, SIMULATION_INPUTS[n - 1])]
  }

  lemma {:induction false} EditsOfSections(a: Spec, b: Spec, n: nat) returns (chain: seq<Spec>)
    requires SameInputs(a, b) && n <= |SIMULATION_INPUTS|
    requires forall k :: Section(k) <==> k in SIMULATION_INPUTS
    ensures Connects(CosmeticEdit, a, chain, WithSections(a, b, n))
    decreases n
  {
    if n == 0 {
      chain := [a];
    } else {
      var before, section := WithSections(a, b, n - 1), SIMULATION_INPUTS[n - 1];
      assert Section(section) && section !in SIMULATION_INPUTS[..n - 1];
      var first := EditsOfSections(a, b, n - 1);
      var second := EditsOfSection(before, section, Get(b, section));
      chain := Join(first, second);
      Joined(CosmeticEdit, a, first, before, second, WithSections(a, b, n));
    }
  }

  /** A save leaves `inputs_version` where it is exactly when the new spec can be reached from the old
      one by writing null keys in and leaving them out, any number of them and at any depth of the four
      sections, and by changing what is outside the sections. */
  lemma CosmeticSavesKeepInputsVersion(table: Table, id: nat, spec: Spec, expected: Option<int>)
    requires id in table && table[id].inputsVersion <= table[id].version && Save(table, id, spec, expected).0.Saved?
    ensures Save(table, id, spec, expected).1[id].inputsVersion == table[id].inputsVersion
            <==> exists chain :: Connects(CosmeticEdit, table[id].spec, chain, spec)
  {
    var before := table[id].spec;
    InputsDifferDecides(before, spec);
    SectionsAreTheInputs();
    if SameInputs(before, spec) {
      var edits := EditsOfSections(before, spec, |SIMULATION_INPUTS|);
      var last := WithSections(before, spec, |SIMULATION_INPUTS|);
      assert SIMULATION_INPUTS[..|SIMULATION_INPUTS|] == SIMULATION_INPUTS;
      assert OutsideInputs(last, spec);
      assert Connects(CosmeticEdit, last, [last, spec], spec);
      Joined(CosmeticEdit, before, edits, last, [last, spec], spec);
    } else {
      forall chain ensures !Connects(CosmeticEdit, before, chain, spec) {
        if Connects(CosmeticEdit, before, chain, spec) {
          CosmeticChainsKeepInputs(before, chain, spec);
        }
      }
    }
  }

  /******************************************** Staleness ********************************************/

  lemma {:induction false} UnchangedSince(h: History, v: int, u: int)
    requires 1 <= v <= u <= |h| && forall w | v < w <= u :: !Changed(h, w)
    ensures SameInputs(h[v - 1].spec, h[u - 1].spec)
    decreases u - v
  {
    SameInputsIsAnEquivalence(h[v - 1].spec, h[v - 1].spec, h[v - 1].spec);
    if v == u {
    } else {
      UnchangedSince(h, v, u - 1);
      assert !Changed(h, u);
      SameInputsIsAnEquivalence(h[v - 1].spec, h[u - 2].spec, h[u - 1].spec);
    }
  }

  /** A version is below `inputs_version` exactly when some later save changed the inputs; and
      when it is not, its inputs are the project's current ones, modulo null keys. */
  lemma StaleExactlyWhenChanged(p: Project, h: History, v: int)
    requires Tracks(p, h) && 1 <= v <= |h|
    ensures v < p.inputsVersion <==> exists u :: v < u <= |h| && Changed(h, u)
    ensures p.inputsVersion <= v ==> SameInputs(h[v - 1].spec, p.spec)
  {
    if v < p.inputsVersion {
      assert Changed(h, p.inputsVersion);
    } else {
      UnchangedSince(h, v, |h|);
    }
  }

  // The inputs at version `u`, later than `v`, were other than those at `v`.
  ghost predicate Differs(h: History, v: int, u: int) {
    1 <= v < u <= |h| && !SameInputs(h[v - 1].spec, h[u - 1].spec)
  }

  // If the inputs at `u` differ from the current ones, they have been changed since.
  lemma ChangedSince(p: Project, h: History, u: int)
    requires Tracks(p, h) && 1 <= u <= |h| && !SameInputs(h[u - 1].spec, p.spec)
    ensures u < p.inputsVersion
  {
    if p.inputsVersion <= u {
      UnchangedSince(h, u, |h|);
    }
  }

  /** A version whose inputs are the current ones is stale all the same exactly when some version after
      it had other inputs, which have been changed back since. */
  lemma StaleWithSameInputsExactly(p: Project, h: History, v: int)
    requires Tracks(p, h) && 1 <= v <= |h| && SameInputs(h[v - 1].spec, p.spec)
    ensures v < p.inputsVersion <==> exists u :: Differs(h, v, u)
  {
    var mine, now := h[v - 1].spec, p.spec;
    if v < p.inputsVersion {
      var u := p.inputsVersion;
      assert Changed(h, u);
      var before, after := h[u - 2].spec, h[u - 1].spec;
      SameInputsIsAnEquivalence(mine, before, before);
      SameInputsIsAnEquivalence(before, mine, after);
      assert Differs(h, v, u) || (Differs(h, v, u - 1) && v < u - 1);
    }
    if exists u :: Differs(h, v, u) {
      var u :| Differs(h, v, u);
      var other := h[u - 1].spec;
      SameInputsIsAnEquivalence(other, now, now);
      SameInputsIsAnEquivalence(mine, now, other);
      ChangedSince(p, h, u);
    }
  }

  /****************************************** Scenario families ******************************************/

  // Every link names an existing project that is not a scenario itself.
  ghost predicate Flat(table: Table) {
    forall q | q in table && table[q].base.Some? ::
      table[q].base.value in table && table[table[q].base.value].base.None?
  }

  /** Deleting a project detaches exactly its own scenarios and changes nothing else. */
  lemma RemoveDetachesExactly(table: Table, id: nat)
    requires Flat(table)
    ensures Flat(RemoveProject(table, id))
    ensures RemoveProject(table, id).Keys == table.Keys - {id}
    ensures forall q | q in table && q != id ::
              RemoveProject(table, id)[q] == if table[q].base == Some(id) then table[q].(base := None) else table[q]
  {
  }

  /** A new link keeps families flat if what it names is still there and is no scenario. */
  lemma InsertKeepsFlat(table: Table, id: nat, spec: Spec, base: Option<nat>)
    requires Flat(table) && id !in table
    requires base.Some? ==> base.value in table && table[base.value].base.None?
    ensures Flat(AddProject(table, id, spec, base))
  {
  }

  /** The base that is looked up is one that no scenario can be made of: it exists, and it is
      linked to nothing. */
  lemma BaseForIsABase(table: Table, from: nat)
    requires Flat(table) && from in table
    ensures BaseFor(table, from) in table && table[BaseFor(table, from)].base.None?
  {
  }

  // The projects of one family: those that a new scenario would share its base with.
  ghost function Family(table: Table, base: nat): set<nat> {
    set q | q in table && BaseFor(table, q) == base
  }

  /** A project made from another, base or scenario, joins its family, which is led by a project that is
      no scenario and belongs to it; and every other family is as it was. */
  lemma ScenariosJoinTheFamily(table: Table, from: nat, id: nat, spec: Spec)
    requires Flat(table) && from in table && id !in table
    ensures var base := BaseFor(table, from);
            var after := AddProject(table, id, spec, Some(base));
            && Flat(after)
            && after[id] == Project(spec, 1, 1, if table[from].base.None? then Some(from) else table[from].base)
            && (forall q | q in table :: after[q] == table[q])
            && Family(after, base) == Family(table, base) + {id}
            && base in Family(table, base) && from in Family(table, base)
            && (forall other | other != base :: Family(after, other) == Family(table, other))
  {
    var base := BaseFor(table, from);
    var after := AddProject(table, id, spec, Some(base));
    forall q | q in table ensures q in after && BaseFor(after, q) == BaseFor(table, q) {
    }
    assert BaseFor(after, id) == base;
  }

  /** A save never changes a link. */
  lemma SaveKeepsLinks(table: Table, id: nat, spec: Spec, expected: Option<int>)
    ensures var after := Save(table, id, spec, expected).1;
            && after.Keys == table.Keys
            && (forall q | q in table :: after[q].base == table[q].base)
            && (forall q | q in table && q != id :: after[q] == table[q])
    ensures Flat(table) ==> Flat(Save(table, id, spec, expected).1)
  {
  }
}
