/** The templates and template versions in the API, and the operations that keep them in line with one chart:
    pkg/catalog/manager/crd.go and deleteChart of pkg/catalog/manager/manager.go. */
module CatalogStore {
  import opened CatalogModel
  import opened Maps

  /** How an API call ends. Any call may fail for reasons outside this program. */
  datatype Outcome = Ok | AlreadyExists | NotFound | Fault

  /** A template version as `updateTemplate` finds it: its name and the object. */
  datatype Found = Found(name: string, stored: TemplateVersion)

  /** What `mergeLabels` leaves: the requested labels, and the catalog label if there was one. */
  function MergedLabels(current: Labels, wanted: Labels): Labels {
    (map k | k in current && k == CATALOG_NAME_LABEL :: current[k]) + wanted
  }

  method Prune(all: Labels, keep: set<string>) returns (r: Labels)
    ensures r == all - (all.Keys - keep)
  {
    r := all;
    var rest := all.Keys;
    while rest != {}
      invariant rest <= all.Keys
      invariant r == all - (all.Keys - keep - rest)
      decreases rest
    {
      var k :| k in rest;
      if k !in keep {
        r := r - {k};
      }
      rest := rest - {k};
    }
  }

  method MergeLabels(current: Labels, wanted: Labels) returns (r: Labels)
    ensures r == MergedLabels(current, wanted)
  {
    r := Overlay(current, wanted);
    r := Prune(r, wanted.Keys + {CATALOG_NAME_LABEL});
    assert r == MergedLabels(current, wanted);
  }

  /** Where the spec goes: the object that has its version already, or a new one. */
  function PlaceOf(known: map<string, Found>, template: string, spec: VersionSpec): string {
    if spec.version in known then known[spec.version].name else VersionName(template, spec.version)
  }

  /** The objects that end up with the given specs. */
  function Placed(known: map<string, Found>, template: string, specs: seq<VersionSpec>): Versions {
    if specs == [] then map[]
    else
      var last := specs[|specs| - 1];
      Placed(known, template, specs[..|specs| - 1])[PlaceOf(known, template, last) := TemplateVersion(template, last)]
  }

  /** `known` lists the template's stored versions by version string. */
  ghost predicate Indexes(known: map<string, Found>, vs: Versions, template: string) {
    && (forall v :: v in known ==>
        IsOf(vs, known[v].name, template) && vs[known[v].name] == known[v].stored && known[v].stored.spec.version == v)
    && (forall n :: IsOf(vs, n, template) ==> vs[n].spec.version in known)
  }

  lemma {:induction false} PlacedFrom(known: map<string, Found>, template: string, specs: seq<VersionSpec>, n: string)
      returns (i: nat)
    requires n in Placed(known, template, specs)
    ensures i < |specs| && n == PlaceOf(known, template, specs[i])
    ensures Placed(known, template, specs)[n] == TemplateVersion(template, specs[i])
    decreases |specs|
  {
    i := |specs| - 1;
    if n != PlaceOf(known, template, specs[i]) {
      i := PlacedFrom(known, template, specs[..i], n);
    }
  }

  lemma {:induction false} PlacedHas(known: map<string, Found>, template: string, specs: seq<VersionSpec>, i: nat)
    requires i < |specs|
    ensures PlaceOf(known, template, specs[i]) in Placed(known, template, specs)
    decreases |specs|
  {
    if i < |specs| - 1 {
      PlacedHas(known, template, specs[..|specs| - 1], i);
    }
  }

  lemma PlacedIs(known: map<string, Found>, template: string, specs: seq<VersionSpec>)
    ensures forall n :: n in Placed(known, template, specs) ==>
              exists i :: 0 <= i < |specs| && n == PlaceOf(known, template, specs[i]) &&
                          Placed(known, template, specs)[n] == TemplateVersion(template, specs[i])
    ensures forall i :: 0 <= i < |specs| ==> PlaceOf(known, template, specs[i]) in Placed(known, template, specs)
  {
    forall n | n in Placed(known, template, specs)
      ensures exists i :: 0 <= i < |specs| && n == PlaceOf(known, template, specs[i]) &&
                          Placed(known, template, specs)[n] == TemplateVersion(template, specs[i])
    {
      var i := PlacedFrom(known, template, specs, n);
    }
    forall i | 0 <= i < |specs| ensures PlaceOf(known, template, specs[i]) in Placed(known, template, specs) {
      PlacedHas(known, template, specs, i);
    }
  }

  /** Two specs of different versions go to different places. */
  lemma PlacesDiffer(known: map<string, Found>, vs: Versions, template: string, a: VersionSpec, b: VersionSpec)
    requires Indexes(known, vs, template) && a.version != b.version
    requires a.version !in known ==> VersionName(template, a.version) !in vs
    requires b.version !in known ==> VersionName(template, b.version) !in vs
    ensures PlaceOf(known, template, a) != PlaceOf(known, template, b)
  {
    VersionNameInjective(template, a.version, b.version);
  }

  /** New places are free. */
  ghost predicate Free(known: map<string, Found>, vs: Versions, template: string, specs: seq<VersionSpec>) {
    forall i :: 0 <= i < |specs| && specs[i].version !in known ==> VersionName(template, specs[i].version) !in vs
  }

  /** The template's stored versions the index no longer has. */
  ghost predicate Stale(vs: Versions, n: string, template: string, specs: seq<VersionSpec>) {
    IsOf(vs, n, template) && forall i :: 0 <= i < |specs| ==> specs[i].version != vs[n].spec.version
  }

  /** The store after a successful update of the template's versions. */
  ghost function Replaced(vs: Versions, known: map<string, Found>, template: string, specs: seq<VersionSpec>): Versions
  {
    (map n | n in vs && !Stale(vs, n, template, specs) :: vs[n]) + Placed(known, template, specs)
  }

  lemma PlacedAt(known: map<string, Found>, vs: Versions, template: string, specs: seq<VersionSpec>, i: nat)
    requires Indexes(known, vs, template) && DistinctSpecs(specs) && Free(known, vs, template, specs) && i < |specs|
    ensures PlaceOf(known, template, specs[i]) in Placed(known, template, specs)
    ensures Placed(known, template, specs)[PlaceOf(known, template, specs[i])] == TemplateVersion(template, specs[i])
  {
    PlacedIs(known, template, specs);
    var n := PlaceOf(known, template, specs[i]);
    var j :| 0 <= j < |specs| && n == PlaceOf(known, template, specs[j]) &&
      Placed(known, template, specs)[n] == TemplateVersion(template, specs[j]);
    if specs[i].version != specs[j].version {
      PlacesDiffer(known, vs, template, specs[i], specs[j]);
      assert false;
    }
  }

  /** The object with that name was given the spec at that place of the list. */
  ghost predicate CameFrom(next: Versions, known: map<string, Found>, n: string, template: string,
                           specs: seq<VersionSpec>, i: int)
  {
    0 <= i < |specs| && n == PlaceOf(known, template, specs[i]) && n in next &&
    next[n] == TemplateVersion(template, specs[i])
  }

  /** Every object the template has afterwards was placed: one that is neither stale nor placed would be a second
      one with its version. */
  lemma AllPlaced(vs: Versions, known: map<string, Found>, template: string, specs: seq<VersionSpec>, n: string)
      returns (i: int)
    requires UniqueVersions(vs, template) && Indexes(known, vs, template)
    requires IsOf(Replaced(vs, known, template, specs), n, template)
    ensures CameFrom(Replaced(vs, known, template, specs), known, n, template, specs, i)
  {
    PlacedIs(known, template, specs);
    assert n in Placed(known, template, specs);
    i :| 0 <= i < |specs| && n == PlaceOf(known, template, specs[i]) &&
         Placed(known, template, specs)[n] == TemplateVersion(template, specs[i]);
  }

  lemma ReplacedUnique(vs: Versions, known: map<string, Found>, template: string, specs: seq<VersionSpec>)
    requires UniqueVersions(vs, template) && Indexes(known, vs, template) && DistinctSpecs(specs)
    ensures UniqueVersions(Replaced(vs, known, template, specs), template)
  {
    var next := Replaced(vs, known, template, specs);
    forall a, b | IsOf(next, a, template) && IsOf(next, b, template) && next[a].spec.version == next[b].spec.version
      ensures a == b
    {
      var i := AllPlaced(vs, known, template, specs, a);
      var j := AllPlaced(vs, known, template, specs, b);
    }
  }

  lemma ReplacedOthersSame(vs: Versions, known: map<string, Found>, template: string, specs: seq<VersionSpec>)
    requires Indexes(known, vs, template) && Free(known, vs, template, specs)
    ensures OthersSame(vs, Replaced(vs, known, template, specs), template)
  {
    PlacedIs(known, template, specs);
    var next, placed := Replaced(vs, known, template, specs), Placed(known, template, specs);
    forall n | n in placed ensures placed[n].templateName == template && (n in vs ==> IsOf(vs, n, template)) {
      var i :| 0 <= i < |specs| && n == PlaceOf(known, template, specs[i]) &&
        placed[n] == TemplateVersion(template, specs[i]);
    }
  }

  /** The template's versions are then exactly the requested specs, and no other template's versions changed. */
  lemma ReplacedHolds(vs: Versions, known: map<string, Found>, template: string, specs: seq<VersionSpec>)
    requires UniqueVersions(vs, template) && Indexes(known, vs, template) && DistinctSpecs(specs) &&
             Free(known, vs, template, specs)
    ensures Holds(Replaced(vs, known, template, specs), template, specs)
    ensures OthersSame(vs, Replaced(vs, known, template, specs), template)
  {
    var next := Replaced(vs, known, template, specs);
    ReplacedUnique(vs, known, template, specs);
    ReplacedOthersSame(vs, known, template, specs);
    forall n | IsOf(next, n, template) ensures next[n].spec in specs {
      var i := AllPlaced(vs, known, template, specs, n);
    }
    forall i | 0 <= i < |specs| ensures HasSpec(next, template, specs[i]) {
      PlacedAt(known, vs, template, specs, i);
      assert IsOf(next, PlaceOf(known, template, specs[i]), template);
    }
  }

  /** The effect of putting one spec in its place. */
  ghost predicate Put(before: Versions, after: Versions, known: map<string, Found>, template: string, spec: VersionSpec)
  {
    if spec.version in known then
      var Found(name, stored) := known[spec.version];
      if stored.spec == spec then after == before else after == before[name := stored.(spec := spec)]
    else
      VersionName(template, spec.version) !in before &&
      after == before[VersionName(template, spec.version) := TemplateVersion(template, spec)]
  }

  lemma PutOthersSame(vs: Versions, before: Versions, after: Versions, known: map<string, Found>, template: string,
                      spec: VersionSpec)
    requires Indexes(known, vs, template) && OthersSame(vs, before, template) &&
             Put(before, after, known, template, spec)
    ensures OthersSame(vs, after, template)
  {
    if spec.version in known {
      assert IsOf(vs, known[spec.version].name, template);
    }
  }

  lemma PlaceIsFresh(vs: Versions, known: map<string, Found>, template: string, specs: seq<VersionSpec>, i: nat)
    requires Indexes(known, vs, template) && DistinctSpecs(specs) && i < |specs| &&
             Free(known, vs, template, specs[..i])
    requires specs[i].version in known
    ensures PlaceOf(known, template, specs[i]) !in Placed(known, template, specs[..i])
  {
    PlacedIs(known, template, specs[..i]);
    forall j | 0 <= j < i ensures PlaceOf(known, template, specs[j]) != PlaceOf(known, template, specs[i]) {
      assert specs[..i][j] == specs[j];
      PlacesDiffer(known, vs, template, specs[j], specs[i]);
    }
  }

  lemma PutPlaces(vs: Versions, after: Versions, known: map<string, Found>, template: string, specs: seq<VersionSpec>,
                  i: nat)
    requires Indexes(known, vs, template) && DistinctSpecs(specs) && i < |specs| &&
             Free(known, vs, template, specs[..i])
    requires Put(vs + Placed(known, template, specs[..i]), after, known, template, specs[i])
    ensures Free(known, vs, template, specs[..i + 1])
    ensures after == vs + Placed(known, template, specs[..i + 1])
  {
    var done, spec := specs[..i], specs[i];
    var place, placed := PlaceOf(known, template, spec), Placed(known, template, done);
    assert specs[..i + 1][..i] == done && specs[..i + 1][i] == spec;
    assert Placed(known, template, specs[..i + 1]) == placed[place := TemplateVersion(template, spec)];
    if spec.version in known {
      assert vs[place] == known[spec.version].stored && vs[place].templateName == template;
      PlaceIsFresh(vs, known, template, specs, i);
    }
  }

  /** The names of the listed versions that are not wanted any more. */
  ghost function DropNames(known: map<string, Found>, specs: seq<VersionSpec>): set<string> {
    set v | v in known && (forall i :: 0 <= i < |specs| ==> specs[i].version != v) :: known[v].name
  }

  lemma DropIsStale(vs: Versions, known: map<string, Found>, template: string, specs: seq<VersionSpec>, n: string)
    requires UniqueVersions(vs, template) && Indexes(known, vs, template)
    ensures n in DropNames(known, specs) <==> Stale(vs, n, template, specs)
  {
    if n in DropNames(known, specs) {
      var v :| v in known && (forall i :: 0 <= i < |specs| ==> specs[i].version != v) && known[v].name == n;
    }
    if Stale(vs, n, template, specs) {
      var v := vs[n].spec.version;
      assert IsOf(vs, known[v].name, template) && known[v].name == n;
    }
  }

  /** Dropping what is not wanted after placing what is gives the replaced store. */
  lemma DropAfterPut(vs: Versions, known: map<string, Found>, template: string, specs: seq<VersionSpec>)
    requires UniqueVersions(vs, template) && Indexes(known, vs, template) && Free(known, vs, template, specs)
    ensures vs + Placed(known, template, specs) - DropNames(known, specs) == Replaced(vs, known, template, specs)
  {
    var placed, drop := Placed(known, template, specs), DropNames(known, specs);
    forall n ensures n in drop <==> Stale(vs, n, template, specs) {
      DropIsStale(vs, known, template, specs, n);
    }
    PlacedIs(known, template, specs);
    forall n | n in placed ensures n !in drop {
      var i :| 0 <= i < |specs| && n == PlaceOf(known, template, specs[i]) &&
        placed[n] == TemplateVersion(template, specs[i]);
    }
    RemoveUnder(vs, placed, drop);
    assert vs - drop == map n | n in vs && !Stale(vs, n, template, specs) :: vs[n];
  }

  lemma DropOthersSame(vs: Versions, cur: Versions, known: map<string, Found>, template: string,
                       specs: seq<VersionSpec>, gone: set<string>)
    requires Indexes(known, vs, template) && OthersSame(vs, cur, template) && gone <= DropNames(known, specs)
    ensures OthersSame(vs, cur - gone, template)
  {
    forall n | n in gone ensures IsOf(vs, n, template) {
      var v :| v in known && (forall i :: 0 <= i < |specs| ==> specs[i].version != v) && known[v].name == n;
    }
  }

  /** Objects that are new have names made from the template's name and one of the versions, and an object keeps a name
      that was made for it. */
  ghost predicate OnlyNew(before: Versions, after: Versions, template: string, specs: seq<VersionSpec>) {
    && (forall n :: n in after && n !in before ==>
        exists i :: 0 <= i < |specs| && n == VersionName(template, specs[i].version))
    && (Named(before) ==> Named(after))
  }

  lemma PutOnlyNew(vs: Versions, before: Versions, after: Versions, known: map<string, Found>, template: string,
                   specs: seq<VersionSpec>, i: nat)
    requires Indexes(known, vs, template) && i < |specs| && Put(before, after, known, template, specs[i])
    requires OnlyNew(vs, before, template, specs)
    ensures OnlyNew(vs, after, template, specs)
  {
    if specs[i].version in known {
      assert IsOf(vs, known[specs[i].version].name, template);
    }
  }

  lemma NewPlace(template: string, specs: seq<VersionSpec>, i: nat)
    requires i < |specs| && DistinctSpecs(specs)
    ensures VersionName(template, specs[i].version) !in Placed(map[], template, specs[..i])
  {
    PlacedIs(map[], template, specs[..i]);
    forall j | 0 <= j < i ensures PlaceOf(map[], template, specs[j]) != VersionName(template, specs[i].version) {
      assert specs[..i][j] == specs[j];
      VersionNameInjective(template, specs[j].version, specs[i].version);
    }
  }

  /** The effect of creating one object, or of leaving alone the one that has its name. */
  ghost predicate Created(before: Versions, after: Versions, template: string, spec: VersionSpec) {
    var name := VersionName(template, spec.version);
    after == if name in before then before else before[name := TemplateVersion(template, spec)]
  }

  lemma CreateKeeps(vs: Versions, before: Versions, after: Versions, template: string, specs: seq<VersionSpec>, i: nat)
    requires i < |specs| && Created(before, after, template, specs[i])
    requires OthersSame(vs, before, template) && OnlyNew(vs, before, template, specs)
    ensures OthersSame(vs, after, template) && OnlyNew(vs, after, template, specs)
  {
  }

  lemma CreateStep(vs: Versions, before: Versions, after: Versions, template: string, specs: seq<VersionSpec>, i: nat)
    requires i < |specs| && DistinctSpecs(specs) && before == Placed(map[], template, specs[..i]) + vs
    requires Created(before, after, template, specs[i])
    ensures after == Placed(map[], template, specs[..i + 1]) + vs
  {
    assert specs[..i + 1][..i] == specs[..i] && specs[..i + 1][i] == specs[i];
    var name := VersionName(template, specs[i].version);
    assert PlaceOf(map[], template, specs[i]) == name;
    NewPlace(template, specs, i);
    AddUnder(Placed(map[], template, specs[..i]), vs, name, TemplateVersion(template, specs[i]));
  }

  /** What is there already is right: no version twice and none but the wanted ones, and a name is taken exactly where
      its spec is there. */
  ghost predicate Adopts(vs: Versions, template: string, specs: seq<VersionSpec>) {
    && UniqueVersions(vs, template)
    && (forall n :: IsOf(vs, n, template) ==> vs[n].spec in specs)
    && (forall i :: 0 <= i < |specs| ==>
        (VersionName(template, specs[i].version) in vs <==> HasSpec(vs, template, specs[i])))
  }

  /** What creating the versions leaves under a name. */
  lemma CreatedAt(vs: Versions, template: string, specs: seq<VersionSpec>, i: nat)
    requires DistinctSpecs(specs) && i < |specs|
    ensures var name, after := VersionName(template, specs[i].version), Placed(map[], template, specs) + vs;
            name in after && after[name] == if name in vs then vs[name] else TemplateVersion(template, specs[i])
  {
    PlacedAt(map[], map[], template, specs, i);
  }

  lemma CreatedFrom(vs: Versions, template: string, specs: seq<VersionSpec>, n: string) returns (i: nat)
    requires n in Placed(map[], template, specs) + vs && n !in vs
    ensures i < |specs| && n == VersionName(template, specs[i].version)
    ensures (Placed(map[], template, specs) + vs)[n] == TemplateVersion(template, specs[i])
  {
    i := PlacedFrom(map[], template, specs, n);
  }

  lemma AdoptsIfHeld(vs: Versions, template: string, specs: seq<VersionSpec>)
    requires DistinctSpecs(specs) && Holds(Placed(map[], template, specs) + vs, template, specs)
    ensures Adopts(vs, template, specs)
  {
    var after := Placed(map[], template, specs) + vs;
    assert forall n :: IsOf(vs, n, template) ==> IsOf(after, n, template) && after[n] == vs[n];
    forall i | 0 <= i < |specs|
      ensures VersionName(template, specs[i].version) in vs <==> HasSpec(vs, template, specs[i])
    {
      var name := VersionName(template, specs[i].version);
      CreatedAt(vs, template, specs, i);
      assert HasSpec(after, template, specs[i]);
      var n :| IsOf(after, n, template) && after[n].spec == specs[i];
      if n !in vs {
        var j := CreatedFrom(vs, template, specs, n);
      }
    }
  }

  /** An object the template has then has a wanted spec, and was there exactly if an object with its spec was. */
  lemma AdoptedAt(vs: Versions, template: string, specs: seq<VersionSpec>, n: string)
    requires Adopts(vs, template, specs) && IsOf(Placed(map[], template, specs) + vs, n, template)
    ensures var spec := (Placed(map[], template, specs) + vs)[n].spec;
            spec in specs && (n in vs <==> HasSpec(vs, template, spec)) &&
            (n !in vs ==> n == VersionName(template, spec.version))
  {
    if n in vs {
      assert IsOf(vs, n, template);
    } else {
      var i := CreatedFrom(vs, template, specs, n);
    }
  }

  lemma AdoptsUnique(vs: Versions, template: string, specs: seq<VersionSpec>, a: string, b: string)
    requires DistinctSpecs(specs) && Adopts(vs, template, specs)
    requires var after := Placed(map[], template, specs) + vs;
             IsOf(after, a, template) && IsOf(after, b, template) && after[a].spec.version == after[b].spec.version
    ensures a == b
  {
    AdoptedAt(vs, template, specs, a);
    AdoptedAt(vs, template, specs, b);
    var after := Placed(map[], template, specs) + vs;
    assert after[a].spec == after[b].spec;
    if a in vs {
      assert IsOf(vs, a, template) && IsOf(vs, b, template);
    }
  }

  lemma HeldIfAdopts(vs: Versions, template: string, specs: seq<VersionSpec>)
    requires DistinctSpecs(specs) && Adopts(vs, template, specs)
    ensures Holds(Placed(map[], template, specs) + vs, template, specs)
  {
    var after := Placed(map[], template, specs) + vs;
    forall n | IsOf(after, n, template) ensures after[n].spec in specs {
      AdoptedAt(vs, template, specs, n);
    }
    forall a, b | IsOf(after, a, template) && IsOf(after, b, template) && after[a].spec.version == after[b].spec.version
      ensures a == b
    {
      AdoptsUnique(vs, template, specs, a, b);
    }
    forall i | 0 <= i < |specs| ensures HasSpec(after, template, specs[i]) {
      CreatedAt(vs, template, specs, i);
      if HasSpec(vs, template, specs[i]) {
        var n :| IsOf(vs, n, template) && vs[n].spec == specs[i];
        assert IsOf(after, n, template);
      } else {
        assert IsOf(after, VersionName(template, specs[i].version), template);
      }
    }
  }

  /** Exactly when a template whose versions were created has them, although a name that is taken is not reported. */
  lemma CreatedHoldsExactly(vs: Versions, template: string, specs: seq<VersionSpec>)
    requires DistinctSpecs(specs)
    ensures Holds(Placed(map[], template, specs) + vs, template, specs) <==> Adopts(vs, template, specs)
  {
    if Adopts(vs, template, specs) {
      HeldIfAdopts(vs, template, specs);
    } else if Holds(Placed(map[], template, specs) + vs, template, specs) {
      AdoptsIfHeld(vs, template, specs);
    }
  }

  /** A template that has no versions yet gets all of its own exactly when their names are free. */
  lemma NewAdoptsExactly(vs: Versions, template: string, specs: seq<VersionSpec>)
    requires forall n :: n in vs ==> vs[n].templateName != template
    ensures Adopts(vs, template, specs) <==>
            forall i :: 0 <= i < |specs| ==> VersionName(template, specs[i].version) !in vs
  {
    forall i | 0 <= i < |specs| ensures !HasSpec(vs, template, specs[i]) {
    }
  }

  // ---------- The API and the operations ----------

  class Store {
    var templates: Templates
    var versions: Versions
    /** Whether something a sync asked for was not granted. */
    ghost var refused: bool

    constructor ()
      ensures templates == map[] && versions == map[] && !refused
    {
      templates, versions, refused := map[], map[], false;
    }

    method CreateTemplateObject(name: string, t: Template) returns (r: Outcome)
      modifies this`templates, this`refused
      ensures refused <==> old(refused) || !r.Ok?
      ensures r.Ok? ==> name !in old(templates) && templates == old(templates)[name := t]
      ensures !r.Ok? ==> templates == old(templates)
    {
      var fault := *;
      if fault {
        refused := true;
        return Fault;
      } else if name in templates {
        refused := true;
        return AlreadyExists;
      }
      templates := templates[name := t];
      return Ok;
    }

    method UpdateTemplateObject(name: string, t: Template) returns (r: Outcome)
      modifies this`templates, this`refused
      ensures refused <==> old(refused) || !r.Ok?
      ensures r.Ok? ==> name in old(templates) && templates == old(templates)[name := t]
      ensures !r.Ok? ==> templates == old(templates)
    {
      var fault := *;
      if fault {
        refused := true;
        return Fault;
      } else if name !in templates {
        refused := true;
        return NotFound;
      }
      templates := templates[name := t];
      return Ok;
    }

    method DeleteTemplateObject(name: string) returns (r: Outcome)
      modifies this`templates, this`refused
      ensures refused <==> old(refused) || !r.Ok?
      ensures r.Ok? ==> templates == old(templates) - {name}
      ensures r.NotFound? ==> name !in templates
      ensures !r.Ok? ==> templates == old(templates)
    {
      var fault := *;
      if fault {
        refused := true;
        return Fault;
      } else if name !in templates {
        refused := true;
        return NotFound;
      }
      templates := templates - {name};
      return Ok;
    }

    method CreateVersionObject(name: string, v: TemplateVersion) returns (r: Outcome)
      modifies this`versions, this`refused
      ensures refused <==> old(refused) || !r.Ok?
      ensures r.Ok? ==> name !in old(versions) && versions == old(versions)[name := v]
      ensures r.AlreadyExists? ==> name in versions
      ensures !r.Ok? ==> versions == old(versions)
    {
      var fault := *;
      if fault {
        refused := true;
        return Fault;
      } else if name in versions {
        refused := true;
        return AlreadyExists;
      }
      versions := versions[name := v];
      return Ok;
    }

    method UpdateVersionObject(name: string, v: TemplateVersion) returns (r: Outcome)
      modifies this`versions, this`refused
      ensures refused <==> old(refused) || !r.Ok?
      ensures r.Ok? ==> name in old(versions) && versions == old(versions)[name := v]
      ensures !r.Ok? ==> versions == old(versions)
    {
      var fault := *;
      if fault {
        refused := true;
        return Fault;
      } else if name !in versions {
        refused := true;
        return NotFound;
      }
      versions := versions[name := v];
      return Ok;
    }

    method DeleteVersionObject(name: string) returns (r: Outcome)
      modifies this`versions, this`refused
      ensures refused <==> old(refused) || !r.Ok?
      ensures r.Ok? ==> versions == old(versions) - {name}
      ensures r.NotFound? ==> name !in versions
      ensures !r.Ok? ==> versions == old(versions)
    {
      var fault := *;
      if fault {
        refused := true;
        return Fault;
      } else if name !in versions {
        refused := true;
        return NotFound;
      }
      versions := versions - {name};
      return Ok;
    }

    // ---------- Updating a template ----------

    /** The template's versions by version string; if two share one, either may be listed. */
    method ListVersions(template: string) returns (known: map<string, Found>)
      ensures Indexes(known, versions, template)
    {
      known := map[];
      var rest := versions.Keys;
      while rest != {}
        invariant rest <= versions.Keys
        invariant forall v :: v in known ==>
                    IsOf(versions, known[v].name, template) && versions[known[v].name] == known[v].stored &&
                    known[v].stored.spec.version == v
        invariant forall n :: IsOf(versions, n, template) && n !in rest ==> versions[n].spec.version in known
        decreases rest
      {
        var n :| n in rest;
        if versions[n].templateName == template {
          known := known[versions[n].spec.version := Found(n, versions[n])];
        }
        rest := rest - {n};
      }
    }

    /** Bring one requested spec into the store: an object that has its version already is updated if it differs. */
    method PutVersion(template: string, known: map<string, Found>, spec: VersionSpec) returns (ok: bool)
      modifies this`versions, this`refused
      ensures (old(refused) ==> refused) && (!ok ==> refused)
      ensures if ok then Put(old(versions), versions, known, template, spec) else versions == old(versions)
    {
      var r := Ok;
      if spec.version in known {
        if known[spec.version].stored.spec != spec {
          r := UpdateVersionObject(known[spec.version].name, known[spec.version].stored.(spec := spec));
        }
      } else {
        r := CreateVersionObject(VersionName(template, spec.version), TemplateVersion(template, spec));
      }
      return r.Ok?;
    }

    /** Bring the requested specs into the store, each in its place. */
    method PutVersions(template: string, known: map<string, Found>, specs: seq<VersionSpec>) returns (ok: bool)
      requires Indexes(known, versions, template)
      modifies this`versions, this`refused
      ensures (old(refused) ==> refused) && (!ok ==> refused)
      ensures OthersSame(old(versions), versions, template)
      ensures ok && DistinctSpecs(specs) ==> Free(known, old(versions), template, specs)
      ensures ok && DistinctSpecs(specs) ==> versions == old(versions) + Placed(known, template, specs)
      ensures OnlyNew(old(versions), versions, template, specs)
    {
      ok := true;
      for i := 0 to |specs|
        invariant old(refused) ==> refused
        invariant OthersSame(old(versions), versions, template)
        invariant OnlyNew(old(versions), versions, template, specs)
        invariant DistinctSpecs(specs) ==>
                    Free(known, old(versions), template, specs[..i]) &&
                    versions == old(versions) + Placed(known, template, specs[..i])
      {
        ghost var before := versions;
        ok := PutVersion(template, known, specs[i]);
        if !ok {
          return;
        }
        PutOthersSame(old(versions), before, versions, known, template, specs[i]);
        PutOnlyNew(old(versions), before, versions, known, template, specs, i);
        if DistinctSpecs(specs) {
          PutPlaces(old(versions), versions, known, template, specs, i);
        }
      }
      assert specs[..|specs|] == specs;
    }

    /** Delete the listed versions the specs do not have. */
    method DropVersions(template: string, known: map<string, Found>, specs: seq<VersionSpec>) returns (ok: bool)
      modifies this`versions, this`refused
      ensures (old(refused) ==> refused) && (!ok ==> refused)
      ensures ok ==> versions == old(versions) - DropNames(known, specs)
      ensures !ok ==> exists gone :: gone <= DropNames(known, specs) && versions == old(versions) - gone
    {
      ok := true;
      var wanted := set i | 0 <= i < |specs| :: specs[i].version;
      var rest := known.Keys;
      ghost var gone: set<string> := {};
      while rest != {}
        invariant old(refused) ==> refused
        invariant rest <= known.Keys
        invariant gone == set v | v in known && v !in wanted && v !in rest :: known[v].name
        invariant gone <= DropNames(known, specs)
        invariant versions == old(versions) - gone
        decreases rest
      {
        var v :| v in rest;
        if v !in wanted {
          var r := DeleteVersionObject(known[v].name);
          if !r.Ok? && !r.NotFound? {
            return false;
          }
          gone := gone + {known[v].name};
        }
        rest := rest - {v};
      }
    }

    /** The part of `updateTemplate` that changes template versions. */
    method UpdateVersions(template: string, specs: seq<VersionSpec>) returns (ok: bool)
      modifies this`versions, this`refused
      ensures (old(refused) ==> refused) && (!ok ==> refused)
      ensures OthersSame(old(versions), versions, template)
      ensures ok && UniqueVersions(old(versions), template) && DistinctSpecs(specs) ==> Holds(versions, template, specs)
      ensures OnlyNew(old(versions), versions, template, specs)
    {
      var known := ListVersions(template);
      ok := PutVersions(template, known, specs);
      if !ok {
        return;
      }
      ghost var put := versions;
      ok := DropVersions(template, known, specs);
      if !ok {
        ghost var gone :| gone <= DropNames(known, specs) && versions == put - gone;
        DropOthersSame(old(versions), put, known, template, specs, gone);
        return;
      }
      DropOthersSame(old(versions), put, known, template, specs, DropNames(known, specs));
      if UniqueVersions(old(versions), template) && DistinctSpecs(specs) {
        DropAfterPut(old(versions), known, template, specs);
        ReplacedHolds(old(versions), known, template, specs);
      }
    }

    /** `updateTemplate`: the template's versions first, then the template with the merged labels. */
    method UpdateTemplate(name: string, current: Template, wanted: Template) returns (ok: bool)
      modifies this
      ensures (old(refused) ==> refused) && (!ok ==> refused)
      ensures OthersSame(old(versions), versions, name)
      ensures templates == old(templates) || (ok && name in old(templates))
      ensures ok ==> templates == old(templates)[name := wanted.(labels := MergedLabels(current.labels, wanted.labels))]
      ensures ok && UniqueVersions(old(versions), name) && DistinctSpecs(wanted.versions) ==>
                Holds(versions, name, wanted.versions)
      ensures OnlyNew(old(versions), versions, name, wanted.versions)
    {
      ok := UpdateVersions(name, wanted.versions);
      if !ok {
        return;
      }
      var merged := MergeLabels(current.labels, wanted.labels);
      var r := UpdateTemplateObject(name, wanted.(labels := merged));
      ok := r.Ok?;
    }

    // ---------- Creating and deleting a template ----------

    /** `createTemplateVersions`: an object that is there already is left alone and not reported. */
    method CreateVersions(template: string, specs: seq<VersionSpec>) returns (ok: bool)
      modifies this`versions, this`refused
      ensures (old(refused) ==> refused) && (!ok ==> refused)
      ensures OthersSame(old(versions), versions, template)
      ensures ok && DistinctSpecs(specs) ==> versions == Placed(map[], template, specs) + old(versions)
      ensures OnlyNew(old(versions), versions, template, specs)
    {
      ok := true;
      for i := 0 to |specs|
        invariant old(refused) ==> refused
        invariant OthersSame(old(versions), versions, template)
        invariant DistinctSpecs(specs) ==> versions == Placed(map[], template, specs[..i]) + old(versions)
        invariant OnlyNew(old(versions), versions, template, specs)
      {
        var spec := specs[i];
        ghost var before := versions;
        var r := CreateVersionObject(VersionName(template, spec.version), TemplateVersion(template, spec));
        if !r.Ok? && !r.AlreadyExists? {
          return false;
        }
        CreateKeeps(old(versions), before, versions, template, specs, i);
        if DistinctSpecs(specs) {
          CreateStep(old(versions), before, versions, template, specs, i);
        }
      }
      assert specs[..|specs|] == specs;
    }

    /** `createTemplate`: the template gets the catalog label, then its versions are made. */
    method CreateTemplate(catalog: string, name: string, wanted: Template) returns (ok: bool)
      modifies this
      ensures (old(refused) ==> refused) && (!ok ==> refused)
      ensures OthersSame(old(versions), versions, name)
      ensures ok ==> name !in old(templates)
      ensures ok ==>
                templates == old(templates)[name := wanted.(labels := wanted.labels[CATALOG_NAME_LABEL := catalog])]
      ensures !ok ==> templates - {name} == old(templates) - {name}
      ensures ok && DistinctSpecs(wanted.versions) ==>
                (Holds(versions, name, wanted.versions) <==> Adopts(old(versions), name, wanted.versions))
      ensures OnlyNew(old(versions), versions, name, wanted.versions)
    {
      var r := CreateTemplateObject(name, wanted.(labels := wanted.labels[CATALOG_NAME_LABEL := catalog]));
      if !r.Ok? {
        return false;
      }
      ok := CreateVersions(name, wanted.versions);
      if ok && DistinctSpecs(wanted.versions) {
        CreatedHoldsExactly(old(versions), name, wanted.versions);
      }
    }

    /** `deleteChart`: the template's versions, found by label, and the template itself. */
    method DeleteChart(name: string) returns (ok: bool)
      modifies this
      ensures (old(refused) ==> refused) && (!ok ==> refused)
      ensures OthersSame(old(versions), versions, name)
      ensures templates - {name} == old(templates) - {name}
      ensures ok ==> templates == old(templates) - {name}
      ensures ok ==> forall n :: n in versions ==> versions[n].templateName != name
      ensures Named(old(versions)) ==> Named(versions)
    {
      var rest := set n | n in versions && versions[n].templateName == name;
      while rest != {}
        invariant old(refused) ==> refused
        invariant OthersSame(old(versions), versions, name)
        invariant templates == old(templates)
        invariant forall n :: n in versions && versions[n].templateName == name ==> n in rest
        invariant forall n :: n in rest && n in versions ==> versions[n].templateName == name
        invariant Named(old(versions)) ==> Named(versions)
        decreases rest
      {
        var n :| n in rest;
        var r := DeleteVersionObject(n);
        if !r.Ok? && !r.NotFound? {
          return false;
        }
        rest := rest - {n};
      }
      var r := DeleteTemplateObject(name);
      ok := r.Ok? || r.NotFound?;
    }
  }
}
