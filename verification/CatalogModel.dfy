/** What a catalog sync stores, as values: the templates and template versions built from a Helm index
    (pkg/catalog/manager/traverse.go) and how they are recognised in the store (pkg/catalog/manager/crd.go). */
module CatalogModel {
  import opened Maps
  import opened Sets

  const CATALOG_NAME_LABEL: string := "catalog.cattle.io/name"

  type Labels = map<string, string>

  /** One chart version of the index. `details` stands for everything a version spec copies besides version and
      digest, and `labels` for the labels of its catalog file. */
  datatype Entry = Entry(version: string, digest: string, details: string, labels: Labels)

  /** The index: every chart with its versions, newest first. */
  type Index = map<string, seq<Entry>>

  datatype VersionSpec = VersionSpec(version: string, digest: string, details: string, externalID: string)

  datatype Template = Template(labels: Labels, folderName: string, defaultVersion: string, versions: seq<VersionSpec>)

  /** `templateName` is the value of the template-name label. */
  datatype TemplateVersion = TemplateVersion(templateName: string, spec: VersionSpec)

  type Templates = map<string, Template>
  type Versions = map<string, TemplateVersion>

  /** The digests recorded for one chart. */
  type Commits = map<string, string>

  function TemplateName(catalog: string, chart: string): string {
    catalog + "-" + chart
  }

  function VersionName(template: string, version: string): string {
    template + "-" + version
  }

  lemma TemplateNameInjective(catalog: string, a: string, b: string)
    ensures TemplateName(catalog, a) == TemplateName(catalog, b) <==> a == b
  {
    assert TemplateName(catalog, a)[|catalog| + 1..] == a;
    assert TemplateName(catalog, b)[|catalog| + 1..] == b;
  }

  lemma VersionNameInjective(template: string, a: string, b: string)
    ensures VersionName(template, a) == VersionName(template, b) <==> a == b
  {
    assert VersionName(template, a)[|template| + 1..] == a;
    assert VersionName(template, b)[|template| + 1..] == b;
  }

  function Spec(catalog: string, chart: string, e: Entry): VersionSpec {
    VersionSpec(e.version, e.digest, e.details,
                "catalog://?catalog=" + catalog + "&template=" + chart + "&version=" + e.version)
  }

  function Specs(catalog: string, chart: string, entries: seq<Entry>): (r: seq<VersionSpec>)
    ensures |r| == |entries| && forall i :: 0 <= i < |r| ==> r[i] == Spec(catalog, chart, entries[i])
  {
    seq(|entries|, i requires 0 <= i < |entries| => Spec(catalog, chart, entries[i]))
  }

  /** The labels of all versions; a later version wins. */
  function AllLabels(entries: seq<Entry>): Labels {
    if entries == [] then map[] else AllLabels(entries[..|entries| - 1]) + entries[|entries| - 1].labels
  }

  function Build(catalog: string, chart: string, entries: seq<Entry>): Template
    requires entries != []
  {
    Template(AllLabels(entries), chart, entries[0].version, Specs(catalog, chart, entries))
  }

  // ---------- Digests ----------

  /** The version-to-digest map of a chart; a later entry wins. */
  function Digests(entries: seq<Entry>): Commits {
    if entries == [] then map[]
    else Digests(entries[..|entries| - 1])[entries[|entries| - 1].version := entries[|entries| - 1].digest]
  }

  ghost predicate DistinctVersions(entries: seq<Entry>) {
    forall i, j :: 0 <= i < j < |entries| ==> entries[i].version != entries[j].version
  }

  /** How many entries have a version that is already recorded. */
  function Known(entries: seq<Entry>, existing: Commits): nat {
    if entries == [] then 0
    else Known(entries[..|entries| - 1], existing) + (if entries[|entries| - 1].version in existing then 1 else 0)
  }

  predicate SomeDiffer(entries: seq<Entry>, existing: Commits) {
    exists i :: 0 <= i < |entries| &&
      (entries[i].version !in existing || existing[entries[i].version] != entries[i].digest)
  }

  /** The test that decides whether a chart is rebuilt. */
  predicate HasChanged(entries: seq<Entry>, existing: Commits) {
    SomeDiffer(entries, existing) || Known(entries, existing) != |existing|
  }

  lemma {:induction false} DigestsHas(entries: seq<Entry>, i: nat)
    requires i < |entries|
    ensures entries[i].version in Digests(entries)
    ensures DistinctVersions(entries) ==> Digests(entries)[entries[i].version] == entries[i].digest
  {
    if i < |entries| - 1 {
      DigestsHas(entries[..|entries| - 1], i);
    }
  }

  lemma {:induction false} DigestsFrom(entries: seq<Entry>, v: string) returns (i: nat)
    requires v in Digests(entries)
    ensures i < |entries| && entries[i].version == v
  {
    var k := |entries| - 1;
    if entries[k].version == v {
      return k;
    }
    i := DigestsFrom(entries[..k], v);
  }

  lemma DigestsKeys(entries: seq<Entry>)
    ensures forall v :: v in Digests(entries) <==> exists i :: 0 <= i < |entries| && entries[i].version == v
    ensures DistinctVersions(entries) ==>
              forall i :: 0 <= i < |entries| ==>
                  entries[i].version in Digests(entries) && Digests(entries)[entries[i].version] == entries[i].digest
  {
    forall i: nat | i < |entries|
      ensures entries[i].version in Digests(entries)
      ensures DistinctVersions(entries) ==> Digests(entries)[entries[i].version] == entries[i].digest
    {
      DigestsHas(entries, i);
    }
    forall v | v in Digests(entries) ensures exists i :: 0 <= i < |entries| && entries[i].version == v {
      var i := DigestsFrom(entries, v);
    }
  }

  lemma {:induction false} DigestsSize(entries: seq<Entry>)
    requires DistinctVersions(entries)
    ensures |Digests(entries)| == |entries|
  {
    if entries != [] {
      var k := |entries| - 1;
      DigestsSize(entries[..k]);
      DigestsKeys(entries[..k]);
      assert entries[k].version !in Digests(entries[..k]);
    }
  }

  lemma {:induction false} KnownAll(entries: seq<Entry>, existing: Commits)
    requires forall i :: 0 <= i < |entries| ==> entries[i].version in existing
    ensures Known(entries, existing) == |entries|
  {
    if entries != [] {
      KnownAll(entries[..|entries| - 1], existing);
    }
  }

  /** When a chart lists every version once, the test finds exactly the charts whose digests are not the recorded
      ones: new, changed and removed versions alike. */
  lemma ChangeDetection(entries: seq<Entry>, existing: Commits)
    requires DistinctVersions(entries)
    ensures HasChanged(entries, existing) <==> Digests(entries) != existing
  {
    DigestsKeys(entries);
    DigestsSize(entries);
    if !SomeDiffer(entries, existing) {
      forall i | 0 <= i < |entries|
        ensures entries[i].version in existing && existing[entries[i].version] == entries[i].digest
      {
      }
      KnownAll(entries, existing);
      assert Digests(entries).Keys <= existing.Keys;
      if |entries| == |existing| {
        assert |Digests(entries).Keys| == |existing.Keys|;
        SubsetSameSize(Digests(entries).Keys, existing.Keys);
        assert Digests(entries) == existing;
      }
    }
  }

  lemma {:induction false} RepeatsShrinkDigests(entries: seq<Entry>)
    ensures |Digests(entries)| <= |entries|
    ensures !DistinctVersions(entries) ==> |Digests(entries)| < |entries|
  {
    if entries != [] {
      var k := |entries| - 1;
      var rest := entries[..k];
      RepeatsShrinkDigests(rest);
      UpdateSize(Digests(rest), entries[k].version, entries[k].digest);
      if !DistinctVersions(entries) && DistinctVersions(rest) {
        var i, j :| 0 <= i < j < |entries| && entries[i].version == entries[j].version;
        assert i < k && rest[i] == entries[i] && j == k by {
          assert forall m :: 0 <= m < k ==> rest[m] == entries[m];
        }
        DigestsHas(rest, i);
      }
    }
  }

  /** In general a chart whose digests are no longer the recorded ones is passed over exactly when its entries all
      agree with the record, are as many as the recorded versions, and repeat a version. */
  lemma ChangeMissedExactly(entries: seq<Entry>, existing: Commits)
    ensures !HasChanged(entries, existing) && Digests(entries) != existing <==>
            !SomeDiffer(entries, existing) && |entries| == |existing| && !DistinctVersions(entries)
  {
    if DistinctVersions(entries) {
      ChangeDetection(entries, existing);
    } else if !SomeDiffer(entries, existing) {
      forall i | 0 <= i < |entries| ensures entries[i].version in existing {
      }
      KnownAll(entries, existing);
      RepeatsShrinkDigests(entries);
    }
  }

  /** Without that, a removed version can go unnoticed: a chart that lists one version twice passes for one
      that has two. */
  lemma RepeatedVersionHidesRemoval()
    ensures var once := Entry("1.0", "d", "", map[]);
            !HasChanged([once, once], map["1.0" := "d", "2.0" := "e"]) &&
            "2.0" !in Digests([once, once])
  {
    var once := Entry("1.0", "d", "", map[]);
    var existing: Commits := map["1.0" := "d", "2.0" := "e"];
    assert [once, once][..1] == [once] && [once][..0] == [];
    assert Known([once], existing) == 1 && Known([once, once], existing) == 2;
    assert existing.Keys == {"1.0", "2.0"} && |existing| == |existing.Keys|;
    DigestsKeys([once, once]);
  }

  // ---------- What the store holds for a template ----------

  predicate IsOf(vs: Versions, n: string, template: string) {
    n in vs && vs[n].templateName == template
  }

  ghost predicate UniqueVersions(vs: Versions, template: string) {
    forall a, b :: IsOf(vs, a, template) && IsOf(vs, b, template) && vs[a].spec.version == vs[b].spec.version ==> a == b
  }

  ghost predicate HasSpec(vs: Versions, template: string, spec: VersionSpec) {
    exists n :: IsOf(vs, n, template) && vs[n].spec == spec
  }

  /** The template versions labelled for the template are the given specs, each once. */
  ghost predicate Holds(vs: Versions, template: string, specs: seq<VersionSpec>) {
    && UniqueVersions(vs, template)
    && (forall n :: IsOf(vs, n, template) ==> vs[n].spec in specs)
    && (forall i :: 0 <= i < |specs| ==> HasSpec(vs, template, specs[i]))
  }

  /** Every object has the name that is made for it. */
  ghost predicate Named(vs: Versions) {
    forall n :: n in vs ==> n == VersionName(vs[n].templateName, vs[n].spec.version)
  }

  /** Template versions of other templates are the same in both. */
  ghost predicate OthersSame(a: Versions, b: Versions, template: string) {
    forall n :: (n in a && a[n].templateName != template) || (n in b && b[n].templateName != template) ==>
      n in a && n in b && a[n] == b[n]
  }

  ghost predicate DistinctSpecs(specs: seq<VersionSpec>) {
    forall i, j :: 0 <= i < j < |specs| ==> specs[i].version != specs[j].version
  }

  lemma HoldsElsewhere(a: Versions, b: Versions, template: string, other: string, specs: seq<VersionSpec>)
    requires OthersSame(a, b, template) && other != template && Holds(a, other, specs)
    ensures Holds(b, other, specs)
  {
    forall n ensures IsOf(a, n, other) <==> IsOf(b, n, other) {
    }
    forall i | 0 <= i < |specs| ensures HasSpec(b, other, specs[i]) {
      assert HasSpec(a, other, specs[i]);
      var n :| IsOf(a, n, other) && a[n].spec == specs[i];
      assert IsOf(b, n, other) && b[n].spec == specs[i];
    }
  }
}
