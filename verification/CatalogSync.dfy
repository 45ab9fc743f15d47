/** The incremental sync of one catalog: traverseAndUpdate of pkg/catalog/manager/traverse.go and its caller in
    pkg/catalog/manager/catalog_sync.go. */
module CatalogSync {
  import opened CatalogModel
  import opened CatalogStore

  /** The status of the catalog object. */
  datatype Status = Status(commits: map<string, Commits>, commit: string, upgraded: bool, diskCached: bool)

  predicate HasAllUpdates(s: Status) {
    s.upgraded && s.diskCached
  }

  predicate IsUpToDate(commit: string, s: Status) {
    commit == s.commit && HasAllUpdates(s)
  }

  // ---------- What the store should hold ----------

  /** The stored template is the built one, up to the catalog label it carries besides. */
  ghost predicate TemplateFits(stored: Template, built: Template) {
    && CATALOG_NAME_LABEL in stored.labels
    && stored.labels - {CATALOG_NAME_LABEL} == built.labels - {CATALOG_NAME_LABEL}
    && stored == built.(labels := stored.labels)
  }

  /** The store holds the chart as built from these entries. */
  ghost predicate Fits(templates: Templates, versions: Versions, catalog: string, chart: string, entries: seq<Entry>) {
    var name := TemplateName(catalog, chart);
    && entries != []
    && DistinctVersions(entries)
    && name in templates
    && TemplateFits(templates[name], Build(catalog, chart, entries))
    && Holds(versions, name, Specs(catalog, chart, entries))
  }

  /** The store holds nothing of this catalog but these charts. */
  ghost predicate NothingBut(templates: Templates, versions: Versions, catalog: string, charts: set<string>) {
    && (forall chart :: TemplateName(catalog, chart) in templates ==> chart in charts)
    && (forall n, chart :: n in versions && versions[n].templateName == TemplateName(catalog, chart) ==>
        chart in charts)
  }

  ghost predicate AllFit(templates: Templates, versions: Versions, catalog: string, source: Index) {
    forall chart :: chart in source ==> Fits(templates, versions, catalog, chart, source[chart])
  }

  /** The store holds exactly the charts of `source`, each as built from its entries there. */
  ghost predicate InStore(templates: Templates, versions: Versions, catalog: string, source: Index) {
    AllFit(templates, versions, catalog, source) && NothingBut(templates, versions, catalog, source.Keys)
  }

  /** The digests of every chart. */
  ghost function DigestsOf(index: Index): map<string, Commits> {
    map chart | chart in index :: Digests(index[chart])
  }

  lemma NothingButStep(templates: Templates, versions: Versions, templates': Templates, versions': Versions,
                       catalog: string, charts: set<string>, chart: string)
    requires NothingBut(templates, versions, catalog, charts)
    requires OthersSame(versions, versions', TemplateName(catalog, chart))
    requires templates' - {TemplateName(catalog, chart)} == templates - {TemplateName(catalog, chart)}
    ensures NothingBut(templates', versions', catalog, charts + {chart})
  {
    var mine := TemplateName(catalog, chart);
    forall other | TemplateName(catalog, other) in templates' ensures other in charts + {chart} {
      TemplateNameInjective(catalog, chart, other);
      if other != chart {
        assert TemplateName(catalog, other) in templates' - {mine};
      }
    }
    forall n, other | n in versions' && versions'[n].templateName == TemplateName(catalog, other)
      ensures other in charts + {chart}
    {
      TemplateNameInjective(catalog, chart, other);
    }
  }

  lemma ElsewhereFits(templates: Templates, versions: Versions, templates': Templates, versions': Versions,
                      catalog: string, chart: string, other: string, entries: seq<Entry>)
    requires chart != other && Fits(templates, versions, catalog, other, entries)
    requires OthersSame(versions, versions', TemplateName(catalog, chart))
    requires templates' - {TemplateName(catalog, chart)} == templates - {TemplateName(catalog, chart)}
    ensures Fits(templates', versions', catalog, other, entries)
  {
    var mine, name := TemplateName(catalog, chart), TemplateName(catalog, other);
    TemplateNameInjective(catalog, chart, other);
    HoldsElsewhere(versions, versions', mine, name, Specs(catalog, other, entries));
    assert name in templates - {mine} && (templates - {mine})[name] == templates[name];
    assert name in templates' - {mine} && (templates' - {mine})[name] == templates'[name];
  }

  lemma AllFitStep(templates: Templates, versions: Versions, templates': Templates, versions': Versions,
                   catalog: string, source: Index, chart: string)
    requires AllFit(templates, versions, catalog, source)
    requires OthersSame(versions, versions', TemplateName(catalog, chart))
    requires templates' - {TemplateName(catalog, chart)} == templates - {TemplateName(catalog, chart)}
    ensures AllFit(templates', versions', catalog, source - {chart})
  {
    forall other | other in source && other != chart
      ensures Fits(templates', versions', catalog, other, source[other])
    {
      ElsewhereFits(templates, versions, templates', versions', catalog, chart, other, source[other]);
    }
  }

  lemma AddFit(templates: Templates, versions: Versions, catalog: string, source: Index, chart: string,
               entries: seq<Entry>)
    requires AllFit(templates, versions, catalog, source - {chart})
    requires Fits(templates, versions, catalog, chart, entries)
    ensures AllFit(templates, versions, catalog, source[chart := entries])
  {
    var next := source[chart := entries];
    forall other | other in next ensures Fits(templates, versions, catalog, other, next[other]) {
      if other != chart {
        assert other in source - {chart} && (source - {chart})[other] == next[other];
      }
    }
  }

  lemma AllFitNext(templates: Templates, versions: Versions, templates': Templates, versions': Versions,
                   catalog: string, source: Index, chart: string, entries: seq<Entry>)
    requires AllFit(templates, versions, catalog, source)
    requires OthersSame(versions, versions', TemplateName(catalog, chart))
    requires templates' - {TemplateName(catalog, chart)} == templates - {TemplateName(catalog, chart)}
    requires Fits(templates', versions', catalog, chart, entries)
    ensures AllFit(templates', versions', catalog, source[chart := entries])
  {
    AllFitStep(templates, versions, templates', versions', catalog, source, chart);
    AddFit(templates', versions', catalog, source, chart, entries);
  }

  lemma NothingButNext(templates: Templates, versions: Versions, templates': Templates, versions': Versions,
                       catalog: string, source: Index, chart: string, entries: seq<Entry>)
    requires NothingBut(templates, versions, catalog, source.Keys)
    requires OthersSame(versions, versions', TemplateName(catalog, chart))
    requires templates' - {TemplateName(catalog, chart)} == templates - {TemplateName(catalog, chart)}
    ensures NothingBut(templates', versions', catalog, source[chart := entries].Keys)
  {
    NothingButStep(templates, versions, templates', versions', catalog, source.Keys, chart);
    assert source[chart := entries].Keys == source.Keys + {chart};
  }

  lemma BuildStep(templates: Templates, versions: Versions, templates': Templates, versions': Versions,
                  catalog: string, source: Index, chart: string, entries: seq<Entry>)
    requires InStore(templates, versions, catalog, source)
    requires OthersSame(versions, versions', TemplateName(catalog, chart))
    requires templates' - {TemplateName(catalog, chart)} == templates - {TemplateName(catalog, chart)}
    requires Fits(templates', versions', catalog, chart, entries)
    ensures InStore(templates', versions', catalog, source[chart := entries])
  {
    AllFitNext(templates, versions, templates', versions', catalog, source, chart, entries);
    NothingButNext(templates, versions, templates', versions', catalog, source, chart, entries);
  }

  lemma NothingLeft(templates: Templates, versions: Versions, catalog: string, charts: set<string>, chart: string)
    requires NothingBut(templates, versions, catalog, charts + {chart})
    requires TemplateName(catalog, chart) !in templates
    requires forall n :: n in versions ==> versions[n].templateName != TemplateName(catalog, chart)
    ensures NothingBut(templates, versions, catalog, charts - {chart})
  {
  }

  lemma DeleteStep(templates: Templates, versions: Versions, versions': Versions, catalog: string, source: Index,
                   chart: string)
    requires InStore(templates, versions, catalog, source)
    requires OthersSame(versions, versions', TemplateName(catalog, chart))
    requires forall n :: n in versions' ==> versions'[n].templateName != TemplateName(catalog, chart)
    ensures InStore(templates - {TemplateName(catalog, chart)}, versions', catalog, source - {chart})
  {
    var mine := TemplateName(catalog, chart);
    var templates', next := templates - {mine}, source - {chart};
    AllFitStep(templates, versions, templates', versions', catalog, source, chart);
    NothingButStep(templates, versions, templates', versions', catalog, source.Keys, chart);
    NothingLeft(templates', versions', catalog, source.Keys, chart);
  }

  lemma DistinctSpecsOf(catalog: string, chart: string, entries: seq<Entry>)
    requires DistinctVersions(entries)
    ensures DistinctSpecs(Specs(catalog, chart, entries))
  {
  }

  // ---------- Conditions on an index ----------

  /** Every chart has versions and lists each once. */
  ghost predicate WellFormed(index: Index) {
    forall chart :: chart in index ==> index[chart] != [] && DistinctVersions(index[chart])
  }

  /** The name the sync gives the version at that place. */
  function NameAt(catalog: string, index: Index, chart: string, i: nat): string
    requires chart in index && i < |index[chart]|
  {
    VersionName(TemplateName(catalog, chart), index[chart][i].version)
  }

  /** The versions of a chart that is new have names nobody has: no stored object and no version of another chart. */
  ghost predicate NoCollisions(catalog: string, index: Index, commits: map<string, Commits>, versions: Versions) {
    forall chart, i :: chart in index && chart !in commits && 0 <= i < |index[chart]| ==>
      && NameAt(catalog, index, chart, i) !in versions
      && (forall other, j :: other in index && other != chart && 0 <= j < |index[other]| ==>
            NameAt(catalog, index, chart, i) != NameAt(catalog, index, other, j))
  }

  /** Every new object was made for one of these charts. */
  ghost predicate MadeFor(before: Versions, after: Versions, catalog: string, index: Index, charts: set<string>)
    requires charts <= index.Keys
  {
    forall n :: n in after && n !in before ==>
      exists chart, i :: chart in charts && 0 <= i < |index[chart]| && n == NameAt(catalog, index, chart, i)
  }

  lemma MadeForStep(before: Versions, mid: Versions, after: Versions, catalog: string, index: Index,
                    charts: set<string>, chart: string)
    requires charts <= index.Keys && chart in index && MadeFor(before, mid, catalog, index, charts)
    requires OnlyNew(mid, after, TemplateName(catalog, chart), Specs(catalog, chart, index[chart]))
    ensures MadeFor(before, after, catalog, index, charts + {chart})
  {
    forall n | n in after && n !in before
      ensures exists c, i :: c in charts + {chart} && 0 <= i < |index[c]| && n == NameAt(catalog, index, c, i)
    {
      if n in mid {
        var c, i :| c in charts && 0 <= i < |index[c]| && n == NameAt(catalog, index, c, i);
      } else {
        var i :| 0 <= i < |index[chart]| &&
          n == VersionName(TemplateName(catalog, chart), Specs(catalog, chart, index[chart])[i].version);
        assert n == NameAt(catalog, index, chart, i);
      }
    }
  }

  lemma NewChartAdopts(before: Versions, mid: Versions, catalog: string, index: Index, commits: map<string, Commits>,
                       templates: Templates, source: Index, charts: set<string>, chart: string)
    requires charts <= index.Keys && chart in index && chart !in charts && chart !in source && chart !in commits
    requires MadeFor(before, mid, catalog, index, charts) && NoCollisions(catalog, index, commits, before)
    requires InStore(templates, mid, catalog, source)
    ensures Adopts(mid, TemplateName(catalog, chart), Specs(catalog, chart, index[chart]))
  {
    var specs := Specs(catalog, chart, index[chart]);
    forall i | 0 <= i < |specs| ensures VersionName(TemplateName(catalog, chart), specs[i].version) !in mid {
      assert NameAt(catalog, index, chart, i) !in mid;
    }
    NewAdoptsExactly(mid, TemplateName(catalog, chart), specs);
  }

  function Recorded(s: Status, chart: string): Commits {
    if chart in s.commits then s.commits[chart] else map[]
  }

  /** What the chart is built from after a sync: the new entries if they are not the recorded ones or the catalog
      needs a full pass, otherwise what it was built from before. */
  ghost function NextEntries(source: Index, s: Status, chart: string, entries: seq<Entry>): seq<Entry> {
    if HasChanged(entries, Recorded(s, chart)) || !HasAllUpdates(s) || chart !in source then entries else source[chart]
  }

  ghost function NextSource(source: Index, s: Status, index: Index): Index {
    map chart | chart in index :: NextEntries(source, s, chart, index[chart])
  }

  /** The part of a run after some charts have been dealt with. */
  ghost function Progress(source: Index, s: Status, index: Index, done: set<string>): Index {
    source + map chart | chart in index && chart in done :: NextEntries(source, s, chart, index[chart])
  }

  /** The digests of the charts that have been dealt with. */
  ghost function DigestsFor(index: Index, done: set<string>): map<string, Commits> {
    map chart | chart in index && chart in done :: Digests(index[chart])
  }

  lemma DigestsForStep(index: Index, done: set<string>, chart: string)
    requires chart in index
    ensures DigestsFor(index, done + {chart}) == DigestsFor(index, done)[chart := Digests(index[chart])]
  {
  }

  lemma NotYet(source: Index, s: Status, index: Index, done: set<string>, chart: string)
    requires chart !in done && s.commits == DigestsOf(source)
    ensures chart in Progress(source, s, index, done) <==> chart in s.commits
  {
  }

  lemma ProgressStep(source: Index, s: Status, index: Index, done: set<string>, chart: string)
    requires chart in index && chart !in done
    ensures Progress(source, s, index, done + {chart}) ==
            Progress(source, s, index, done)[chart := NextEntries(source, s, chart, index[chart])]
  {
  }

  /** A chart that passes for unchanged is stored, built from entries with the same digests. */
  lemma SkippedIsCurrent(source: Index, s: Status, chart: string, entries: seq<Entry>)
    requires entries != [] && DistinctVersions(entries) && s.commits == DigestsOf(source)
    requires !HasChanged(entries, Recorded(s, chart))
    ensures chart in source && Digests(source[chart]) == Digests(entries)
  {
    ChangeDetection(entries, Recorded(s, chart));
    DigestsKeys(entries);
    assert entries[0].version in Digests(entries);
    assert chart in DigestsOf(source);
  }

  lemma SkipStep(source: Index, s: Status, index: Index, done: set<string>, chart: string)
    requires chart in index && chart !in done && chart in source
    requires !HasChanged(index[chart], Recorded(s, chart)) && HasAllUpdates(s)
    ensures Progress(source, s, index, done + {chart}) == Progress(source, s, index, done)
  {
    ProgressStep(source, s, index, done, chart);
    var p := Progress(source, s, index, done);
    assert chart in p && p[chart] == source[chart];
    assert p[chart := source[chart]] == p;
  }

  /** Objects outside these template names are the same in both stores. */
  ghost predicate ForeignSame(templates: Templates, versions: Versions, templates': Templates, versions': Versions,
                              names: set<string>)
  {
    && templates - names == templates' - names
    && (forall n ::
        (n in versions && versions[n].templateName !in names) ||
        (n in versions' && versions'[n].templateName !in names) ==>
          n in versions && n in versions' && versions[n] == versions'[n])
  }

  lemma ForeignStep(t0: Templates, v0: Versions, t1: Templates, v1: Versions, t2: Templates, v2: Versions,
                    names: set<string>, name: string)
    requires ForeignSame(t0, v0, t1, v1, names) && name in names
    requires OthersSame(v1, v2, name) && t2 - {name} == t1 - {name}
    ensures ForeignSame(t0, v0, t2, v2, names)
  {
    assert t2 - names == (t2 - {name}) - names == (t1 - {name}) - names == t1 - names;
  }

  ghost function NamesOf(catalog: string, charts: set<string>): set<string> {
    set chart | chart in charts :: TemplateName(catalog, chart)
  }

  /** The loop that compares a chart with its recorded digests. */
  method DetectChange(entries: seq<Entry>, existing: Commits) returns (digests: Commits, changed: bool)
    ensures digests == Digests(entries)
    ensures changed <==> HasChanged(entries, existing)
  {
    digests, changed := map[], false;
    var versionNumber := 0;
    for i := 0 to |entries|
      invariant digests == Digests(entries[..i])
      invariant changed <==> SomeDiffer(entries[..i], existing)
      invariant versionNumber == Known(entries[..i], existing)
    {
      assert entries[..i + 1][..i] == entries[..i];
      var version := entries[i];
      digests := digests[version.version := version.digest];
      ghost var before := changed;
      if version.version !in existing || existing[version.version] != version.digest {
        changed := true;
        assert entries[..i + 1][i] == version;
      } else if before {
        var j :| 0 <= j < i && (entries[..i][j].version !in existing ||
                                existing[entries[..i][j].version] != entries[..i][j].digest);
        assert entries[..i + 1][j] == entries[..i][j];
      }
      if version.version in existing {
        versionNumber := versionNumber + 1;
      }
    }
    assert entries[..|entries|] == entries;
    if versionNumber != |existing| {
      changed := true;
    }
  }

  /** How a sync ends: everything went well; some chart was refused by the API or had unreadable files, and the sync
      went on without it; an error broke it off; or it stopped early because the catalog is up to date already. */
  datatype Result = Completed | Refused | Broken | Stopped

  ghost predicate EmptyChart(index: Index) {
    exists chart :: chart in index && index[chart] == []
  }

  /** The values a sync starts from. */
  datatype Start = Start(catalog: string, index: Index, status: Status, source: Index, templates: Templates,
                         versions: Versions)

  /** The templates a sync may touch: those of the index's charts and of the recorded ones. */
  ghost function TouchedNames(b: Start): set<string> {
    NamesOf(b.catalog, b.index.Keys + b.status.commits.Keys)
  }

  lemma ForeignMore(t: Templates, v: Versions, t': Templates, v': Versions, names: set<string>, more: set<string>)
    requires ForeignSame(t, v, t', v', names) && names <= more
    ensures ForeignSame(t, v, t', v', more)
  {
    assert t - more == (t - names) - more && t' - more == (t' - names) - more;
  }

  lemma FinalSource(b: Start)
    requires b.status.commits == DigestsOf(b.source)
    ensures Progress(b.source, b.status, b.index, b.index.Keys) - (b.status.commits.Keys - b.index.Keys) ==
            NextSource(b.source, b.status, b.index)
  {
  }

  lemma NextDigestsAt(source: Index, s: Status, chart: string, entries: seq<Entry>)
    requires entries != [] && DistinctVersions(entries) && s.commits == DigestsOf(source)
    ensures Digests(NextEntries(source, s, chart, entries)) == Digests(entries)
  {
    if NextEntries(source, s, chart, entries) != entries {
      SkippedIsCurrent(source, s, chart, entries);
    }
  }

  /** Whatever was skipped, the charts are built from entries with the index's digests. */
  lemma NextDigests(source: Index, s: Status, index: Index)
    requires WellFormed(index) && s.commits == DigestsOf(source)
    ensures DigestsOf(NextSource(source, s, index)) == DigestsOf(index)
  {
    forall chart | chart in index
      ensures Digests(NextEntries(source, s, chart, index[chart])) == Digests(index[chart])
    {
      NextDigestsAt(source, s, chart, index[chart]);
    }
  }

  /** What the result of a sync relies on: a well-formed index without name collisions. */
  ghost predicate Sane(b: Start) {
    && WellFormed(b.index)
    && NoCollisions(b.catalog, b.index, b.status.commits, b.versions)
    && b.status.commits == DigestsOf(b.source)
  }

  lemma Finish(b: Start, commits: map<string, Commits>, source: Index)
    requires Sane(b) && commits == DigestsFor(b.index, b.index.Keys)
    requires source == Progress(b.source, b.status, b.index, b.index.Keys) - (b.status.commits.Keys - b.index.Keys)
    ensures commits == DigestsOf(b.index) == DigestsOf(source)
    ensures source == NextSource(b.source, b.status, b.index)
  {
    FinalSource(b);
    NextDigests(b.source, b.status, b.index);
  }

  /** Whatever happens, only objects of the index's charts change, and new ones have names made for them. */
  ghost predicate Tidy(b: Start, templates: Templates, versions: Versions, done: set<string>) {
    && done <= b.index.Keys
    && ForeignSame(b.templates, b.versions, templates, versions, NamesOf(b.catalog, b.index.Keys))
    && MadeFor(b.versions, versions, b.catalog, b.index, done)
    && (Named(b.versions) ==> Named(versions))
  }

  /** The state of a sync that went well so far, with these charts done. */
  ghost predicate Midway(b: Start, templates: Templates, versions: Versions, source: Index, done: set<string>) {
    && done <= b.index.Keys
    && source == Progress(b.source, b.status, b.index, done)
    && InStore(templates, versions, b.catalog, source)
  }

  lemma TidyMore(b: Start, templates: Templates, versions: Versions, done: set<string>, chart: string)
    requires Tidy(b, templates, versions, done) && chart in b.index
    ensures Tidy(b, templates, versions, done + {chart})
  {
    forall n | n in versions && n !in b.versions
      ensures exists c, i :: c in done + {chart} && 0 <= i < |b.index[c]| && n == NameAt(b.catalog, b.index, c, i)
    {
      var c, i :| c in done && 0 <= i < |b.index[c]| && n == NameAt(b.catalog, b.index, c, i);
      assert c in done + {chart};
    }
  }

  lemma TidyAll(b: Start, templates: Templates, versions: Versions, done: set<string>)
    requires Tidy(b, templates, versions, done)
    ensures Tidy(b, templates, versions, b.index.Keys)
  {
    forall n | n in versions && n !in b.versions
      ensures exists c, i :: c in b.index.Keys && 0 <= i < |b.index[c]| && n == NameAt(b.catalog, b.index, c, i)
    {
      var c, i :| c in done && 0 <= i < |b.index[c]| && n == NameAt(b.catalog, b.index, c, i);
      assert c in b.index.Keys;
    }
  }

  lemma BeginMidway(b: Start)
    ensures Tidy(b, b.templates, b.versions, {})
    ensures InStore(b.templates, b.versions, b.catalog, b.source) ==> Midway(b, b.templates, b.versions, b.source, {})
  {
    assert Progress(b.source, b.status, b.index, {}) == b.source;
  }

  lemma SkipProgress(b: Start, done: set<string>, chart: string)
    requires chart in b.index && chart !in done && WellFormed(b.index) && b.status.commits == DigestsOf(b.source)
    requires !HasChanged(b.index[chart], Recorded(b.status, chart)) && HasAllUpdates(b.status)
    ensures Progress(b.source, b.status, b.index, done + {chart}) == Progress(b.source, b.status, b.index, done)
  {
    SkippedIsCurrent(b.source, b.status, chart, b.index[chart]);
    SkipStep(b.source, b.status, b.index, done, chart);
  }

  lemma PutTidy(b: Start, t: Templates, v: Versions, t': Templates, v': Versions, done: set<string>, chart: string)
    requires Tidy(b, t, v, done) && chart in b.index
    requires OthersSame(v, v', TemplateName(b.catalog, chart))
    requires t' - {TemplateName(b.catalog, chart)} == t - {TemplateName(b.catalog, chart)}
    requires OnlyNew(v, v', TemplateName(b.catalog, chart), Specs(b.catalog, chart, b.index[chart]))
    ensures Tidy(b, t', v', done + {chart})
  {
    ForeignStep(b.templates, b.versions, t, v, t', v', NamesOf(b.catalog, b.index.Keys),
                TemplateName(b.catalog, chart));
    MadeForStep(b.versions, v, v', b.catalog, b.index, done, chart);
  }

  /** What is needed for the chart to end up as built: an existing template has its catalog label and one object per
      version; a new one finds its names free, or nothing but its own objects. */
  ghost predicate Ready(templates: Templates, versions: Versions, catalog: string, chart: string, entries: seq<Entry>) {
    var name := TemplateName(catalog, chart);
    if name in templates then CATALOG_NAME_LABEL in templates[name].labels && UniqueVersions(versions, name)
    else Adopts(versions, name, Specs(catalog, chart, entries))
  }

  lemma ReadyChart(before: Versions, templates: Templates, versions: Versions, catalog: string, index: Index,
                   commits: map<string, Commits>,
                   source: Index, done: set<string>, chart: string)
    requires done <= index.Keys && chart in index && chart !in done && (chart in source <==> chart in commits)
    requires MadeFor(before, versions, catalog, index, done) && NoCollisions(catalog, index, commits, before)
    requires InStore(templates, versions, catalog, source)
    ensures Ready(templates, versions, catalog, chart, index[chart])
  {
    if chart in source {
      assert Fits(templates, versions, catalog, chart, source[chart]);
    } else {
      NewChartAdopts(before, versions, catalog, index, commits, templates, source, done, chart);
    }
  }

  lemma PutReady(b: Start, t: Templates, v: Versions, source: Index, done: set<string>, chart: string)
    requires Sane(b) && Tidy(b, t, v, done) && chart in b.index && chart !in done
    requires source == Progress(b.source, b.status, b.index, done) && InStore(t, v, b.catalog, source)
    ensures Ready(t, v, b.catalog, chart, b.index[chart])
  {
    NotYet(b.source, b.status, b.index, done, chart);
    ReadyChart(b.versions, t, v, b.catalog, b.index, b.status.commits, source, done, chart);
  }

  lemma PutProgress(b: Start, source: Index, done: set<string>, chart: string)
    requires chart in b.index && chart !in done
    requires HasChanged(b.index[chart], Recorded(b.status, chart)) || !HasAllUpdates(b.status)
    requires source == Progress(b.source, b.status, b.index, done)
    ensures source[chart := b.index[chart]] == Progress(b.source, b.status, b.index, done + {chart})
  {
    ProgressStep(b.source, b.status, b.index, done, chart);
  }

  // ---------- Runs of syncs ----------

  /** The store and the catalog object between two syncs. */
  datatype Snapshot = Snapshot(templates: Templates, versions: Versions, status: Status, source: Index)

  ghost predicate InSync(catalog: string, a: Snapshot) {
    a.status.commits == DigestsOf(a.source) && InStore(a.templates, a.versions, catalog, a.source)
  }

  /** What `Sync` guarantees of a sync that completes, as a relation between the snapshots around it. */
  ghost predicate SyncStep(catalog: string, a: Snapshot, b: Snapshot, index: Index, commit: string) {
    && Sane(Start(catalog, index, a.status, a.source, a.templates, a.versions))
    && !IsUpToDate(commit, a.status)
    && (InSync(catalog, a) ==>
          InSync(catalog, b) && b.status == Status(DigestsOf(index), commit, true, true) &&
          b.source == NextSource(a.source, a.status, index))
  }

  /** One completed sync of a run: the index and commit it was given, and what it left. */
  datatype Synced = Synced(index: Index, commit: string, after: Snapshot)

  ghost function Final(start: Snapshot, run: seq<Synced>): Snapshot {
    if run == [] then start else run[|run| - 1].after
  }

  /** A run of completed syncs of one catalog, with no other writer in between. */
  ghost predicate IsRun(catalog: string, start: Snapshot, run: seq<Synced>) {
    run == [] ||
    var k := |run| - 1;
    IsRun(catalog, start, run[..k]) &&
    SyncStep(catalog, Final(start, run[..k]), run[k].after, run[k].index, run[k].commit)
  }

  /** The template's stored version-to-digest map is this one. */
  ghost predicate StoredDigests(versions: Versions, template: string, digests: Commits) {
    && UniqueVersions(versions, template)
    && (forall n :: IsOf(versions, n, template) ==>
          versions[n].spec.version in digests && digests[versions[n].spec.version] == versions[n].spec.digest)
    && (forall v :: v in digests ==> exists n :: IsOf(versions, n, template) && versions[n].spec.version == v)
  }

  lemma FitsDigests(templates: Templates, versions: Versions, catalog: string, chart: string, entries: seq<Entry>)
    requires Fits(templates, versions, catalog, chart, entries)
    ensures StoredDigests(versions, TemplateName(catalog, chart), Digests(entries))
  {
    var name, specs, digests := TemplateName(catalog, chart), Specs(catalog, chart, entries), Digests(entries);
    DigestsKeys(entries);
    forall n | IsOf(versions, n, name)
      ensures versions[n].spec.version in digests && digests[versions[n].spec.version] == versions[n].spec.digest
    {
      var i :| 0 <= i < |specs| && versions[n].spec == specs[i];
    }
    forall v | v in digests ensures exists n :: IsOf(versions, n, name) && versions[n].spec.version == v {
      var i :| 0 <= i < |entries| && entries[i].version == v;
      assert HasSpec(versions, name, specs[i]);
      var n :| IsOf(versions, n, name) && versions[n].spec == specs[i];
    }
  }

  lemma StepInSync(catalog: string, a: Snapshot, b: Snapshot, index: Index, commit: string)
    requires SyncStep(catalog, a, b, index, commit) && InSync(catalog, a)
    ensures InSync(catalog, b)
    ensures b.status == Status(DigestsOf(index), commit, true, true) &&
            b.source == NextSource(a.source, a.status, index)
    ensures WellFormed(index)
  {
  }

  lemma {:induction false} RunInSync(catalog: string, start: Snapshot, run: seq<Synced>)
    requires IsRun(catalog, start, run) && InSync(catalog, start)
    ensures InSync(catalog, Final(start, run))
    decreases |run|
  {
    if run != [] {
      var k := |run| - 1;
      RunInSync(catalog, start, run[..k]);
      StepInSync(catalog, Final(start, run[..k]), run[k].after, run[k].index, run[k].commit);
    }
  }

  /** The stored templates are exactly the index's charts, and the version-to-digest map of each is the index's. */
  ghost predicate Mirrors(catalog: string, s: Snapshot, index: Index) {
    && (forall chart :: chart in index ==> TemplateName(catalog, chart) in s.templates)
    && NothingBut(s.templates, s.versions, catalog, index.Keys)
    && (forall chart :: chart in index ==>
        StoredDigests(s.versions, TemplateName(catalog, chart), Digests(index[chart])))
  }

  lemma SameCharts(source: Index, index: Index)
    requires DigestsOf(source) == DigestsOf(index)
    ensures source.Keys == index.Keys
    ensures forall chart :: chart in index ==> Digests(source[chart]) == Digests(index[chart])
  {
    assert source.Keys == DigestsOf(source).Keys && index.Keys == DigestsOf(index).Keys;
    forall chart | chart in index ensures Digests(source[chart]) == Digests(index[chart]) {
      assert DigestsOf(source)[chart] == DigestsOf(index)[chart];
    }
  }

  lemma InSyncMirrors(catalog: string, s: Snapshot, index: Index)
    requires InSync(catalog, s) && s.status.commits == DigestsOf(index)
    ensures Mirrors(catalog, s, index)
  {
    SameCharts(s.source, index);
    forall chart | chart in index
      ensures TemplateName(catalog, chart) in s.templates
      ensures StoredDigests(s.versions, TemplateName(catalog, chart), Digests(index[chart]))
    {
      FitsDigests(s.templates, s.versions, catalog, chart, s.source[chart]);
    }
  }

  /** No two charts of the index have versions whose objects get the same name. */
  ghost predicate NoSharedNames(catalog: string, index: Index) {
    forall a, i, b, j :: a in index && b in index && a != b && 0 <= i < |index[a]| && 0 <= j < |index[b]| ==>
      NameAt(catalog, index, a, i) != NameAt(catalog, index, b, j)
  }

  /** The object of a version that is stored has its name. */
  lemma StoredUnderName(versions: Versions, catalog: string, index: Index, chart: string, i: nat)
    requires Named(versions) && chart in index && i < |index[chart]|
    requires StoredDigests(versions, TemplateName(catalog, chart), Digests(index[chart]))
    ensures IsOf(versions, NameAt(catalog, index, chart, i), TemplateName(catalog, chart))
  {
    DigestsHas(index[chart], i);
    var n :| IsOf(versions, n, TemplateName(catalog, chart)) && versions[n].spec.version == index[chart][i].version;
  }

  /** Where objects have the names that are made for them, an index in which two charts share one is never mirrored,
      however often it is synced. */
  lemma SharedNamesNeverMirror(catalog: string, s: Snapshot, index: Index)
    requires Named(s.versions) && !NoSharedNames(catalog, index)
    ensures !Mirrors(catalog, s, index)
  {
    var a, i, b, j :| a in index && b in index && a != b && 0 <= i < |index[a]| && 0 <= j < |index[b]| &&
                      NameAt(catalog, index, a, i) == NameAt(catalog, index, b, j);
    if Mirrors(catalog, s, index) {
      StoredUnderName(s.versions, catalog, index, a, i);
      StoredUnderName(s.versions, catalog, index, b, j);
      TemplateNameInjective(catalog, a, b);
      assert false;
    }
  }

  /** No stored object has a name that the index will ask for. */
  ghost predicate NamesFree(catalog: string, index: Index, versions: Versions) {
    forall chart, i :: chart in index && 0 <= i < |index[chart]| ==> NameAt(catalog, index, chart, i) !in versions
  }

  /** What a catalog that has nothing starts its first sync from. */
  ghost function FirstStart(catalog: string, a: Snapshot, index: Index): Start {
    Start(catalog, index, a.status, a.source, a.templates, a.versions)
  }

  lemma FirstIsSane(catalog: string, a: Snapshot, index: Index)
    requires a.source == map[] && a.status.commits == map[] && WellFormed(index)
    requires NamesFree(catalog, index, a.versions) && NoSharedNames(catalog, index)
    ensures Sane(FirstStart(catalog, a, index))
  {
    assert DigestsOf(a.source) == map[];
  }

  lemma FirstMirrors(catalog: string, a: Snapshot, b: Snapshot, index: Index, commit: string)
    requires a.source == map[] && a.status.commits == map[] && InSync(catalog, a)
    requires WellFormed(index) && NamesFree(catalog, index, a.versions) && Named(b.versions)
    requires Sane(FirstStart(catalog, a, index)) ==> SyncStep(catalog, a, b, index, commit)
    ensures Mirrors(catalog, b, index) <==> NoSharedNames(catalog, index)
  {
    if NoSharedNames(catalog, index) {
      FirstIsSane(catalog, a, index);
      InSyncMirrors(catalog, b, index);
    } else {
      SharedNamesNeverMirror(catalog, b, index);
    }
  }

  /** For instance, version 1.0-2.0 of a chart and version 2.0 of another. */
  lemma ChartsThatShareAName(catalog: string)
    ensures !NoSharedNames(catalog,
              map["foo" := [Entry("1.0-2.0", "d", "", map[])], "foo-1.0" := [Entry("2.0", "e", "", map[])]])
  {
    var index: Index := map["foo" := [Entry("1.0-2.0", "d", "", map[])], "foo-1.0" := [Entry("2.0", "e", "", map[])]];
    assert NameAt(catalog, index, "foo", 0) == catalog + "-" + "foo-1.0-2.0" == NameAt(catalog, index, "foo-1.0", 0);
  }

  /** After every sync of every run the stored templates are exactly the index's charts, the version-to-digest map of
      each is the index's, and so is the record, although charts with unchanged digests were skipped. */
  lemma MirrorsAfterEverySync(catalog: string, start: Snapshot, run: seq<Synced>)
    requires IsRun(catalog, start, run) && InSync(catalog, start) && run != []
    ensures var last := run[|run| - 1];
            last.after.status == Status(DigestsOf(last.index), last.commit, true, true) &&
            Mirrors(catalog, last.after, last.index)
  {
    var k := |run| - 1;
    RunInSync(catalog, start, run[..k]);
    StepInSync(catalog, Final(start, run[..k]), run[k].after, run[k].index, run[k].commit);
    InSyncMirrors(catalog, run[k].after, run[k].index);
  }

  /** Charts with the same digests in both indexes have the same entries. */
  ghost predicate DigestsIdentify(a: Index, b: Index) {
    forall chart :: chart in a && chart in b && Digests(a[chart]) == Digests(b[chart]) ==> a[chart] == b[chart]
  }

  /** In every sync of the run, digests tell whether a chart changed since the sync before. */
  ghost predicate Faithful(run: seq<Synced>) {
    forall i :: 0 < i < |run| ==> DigestsIdentify(run[i - 1].index, run[i].index)
  }

  lemma NothingStale(source: Index, s: Status, index: Index)
    requires WellFormed(index) && s.commits == DigestsOf(source) && DigestsIdentify(source, index)
    ensures NextSource(source, s, index) == index
  {
    forall chart | chart in index ensures NextEntries(source, s, chart, index[chart]) == index[chart] {
      if NextEntries(source, s, chart, index[chart]) != index[chart] {
        SkippedIsCurrent(source, s, chart, index[chart]);
      }
    }
  }

  lemma StepBuildsLatest(catalog: string, a: Snapshot, b: Snapshot, index: Index, commit: string)
    requires SyncStep(catalog, a, b, index, commit) && InSync(catalog, a) && DigestsIdentify(a.source, index)
    ensures b.source == index
  {
    NothingStale(a.source, a.status, index);
  }

  lemma FaithfulPrefix(run: seq<Synced>, k: nat)
    requires Faithful(run) && k <= |run|
    ensures Faithful(run[..k])
  {
  }

  lemma {:induction false} BuiltFromLatest(catalog: string, start: Snapshot, run: seq<Synced>)
    requires IsRun(catalog, start, run) && InSync(catalog, start) && start.source == map[] && Faithful(run) && run != []
    ensures Final(start, run).source == run[|run| - 1].index
    decreases |run|
  {
    var k := |run| - 1;
    RunInSync(catalog, start, run[..k]);
    if k > 0 {
      FaithfulPrefix(run, k);
      BuiltFromLatest(catalog, start, run[..k]);
      assert DigestsIdentify(run[k - 1].index, run[k].index);
    }
    StepBuildsLatest(catalog, Final(start, run[..k]), run[k].after, run[k].index, run[k].commit);
  }

  /** The incremental sync is as good as a full rebuild: when digests identify contents from one sync to the next, every
      sync leaves exactly its own index's charts in the store, each as built from that index, details, labels and
      all. */
  lemma IncrementalIsRebuild(catalog: string, start: Snapshot, run: seq<Synced>)
    requires IsRun(catalog, start, run) && InSync(catalog, start) && start.source == map[] && Faithful(run) && run != []
    ensures var last := run[|run| - 1]; InStore(last.after.templates, last.after.versions, catalog, last.index)
  {
    BuiltFromLatest(catalog, start, run);
    RunInSync(catalog, start, run);
  }

  lemma CreatedFits(built: Template, catalog: string)
    ensures TemplateFits(built.(labels := built.labels[CATALOG_NAME_LABEL := catalog]), built)
  {
  }

  lemma UpdatedFits(current: Template, built: Template)
    ensures CATALOG_NAME_LABEL in current.labels ==>
              TemplateFits(built.(labels := MergedLabels(current.labels, built.labels)), built)
  {
  }

  class Manager {
    const catalog: string
    const store: Store
    var status: Status
    /** The entries each stored chart was last built from. */
    ghost var source: Index

    /** The recorded digests are those of what the charts were built from, and the store holds just that. */
    ghost predicate Valid()
      reads this, store
    {
      status.commits == DigestsOf(source) && InStore(store.templates, store.versions, catalog, source)
    }

    constructor (catalog: string, store: Store)
      requires NothingBut(store.templates, store.versions, catalog, {})
      ensures this.catalog == catalog && this.store == store && source == map[]
      ensures status == Status(map[], "", false, false)
      ensures Valid()
    {
      this.catalog, this.store := catalog, store;
      status := Status(map[], "", false, false);
      source := map[];
    }

    /** Create or update one chart's template and template versions. */
    method PutChart(chart: string, entries: seq<Entry>) returns (ok: bool)
      requires entries != []
      modifies store
      ensures (old(store.refused) ==> store.refused) && (!ok ==> store.refused)
      ensures OthersSame(old(store.versions), store.versions, TemplateName(catalog, chart))
      ensures store.templates - {TemplateName(catalog, chart)} == old(store.templates) - {TemplateName(catalog, chart)}
      ensures OnlyNew(old(store.versions), store.versions, TemplateName(catalog, chart), Specs(catalog, chart, entries))
      ensures ok && DistinctVersions(entries) &&
              Ready(old(store.templates), old(store.versions), catalog, chart, entries) ==>
                Fits(store.templates, store.versions, catalog, chart, entries)
    {
      var name, wanted := TemplateName(catalog, chart), Build(catalog, chart, entries);
      var fault := *;
      if fault {
        store.refused := true;
        return false;
      }
      ghost var t := store.templates;
      if DistinctVersions(entries) {
        DistinctSpecsOf(catalog, chart, entries);
      }
      if name !in store.templates {
        ok := store.CreateTemplate(catalog, name, wanted);
        CreatedFits(wanted, catalog);
      } else {
        ok := store.UpdateTemplate(name, store.templates[name], wanted);
        UpdatedFits(t[name], wanted);
      }
    }

    /** The values a sync starts from. */
    ghost function Before(index: Index): Start
      reads this, store
    {
      Start(catalog, index, status, source, store.templates, store.versions)
    }

    /** Build the chart's template anew and bring the store in line with it. */
    method RebuildChart(ghost b: Start, ghost done: set<string>, index: Index, chart: string, commit: string)
        returns (result: Result)
      requires b.catalog == catalog && b.index == index && b.status == status
      requires chart in index && chart !in done && Tidy(b, store.templates, store.versions, done)
      requires HasChanged(index[chart], Recorded(status, chart)) || !HasAllUpdates(status)
      modifies store, this`source
      ensures (old(store.refused) ==> store.refused) &&
              (result.Refused? || result.Broken? ==> store.refused || index[chart] == [])
      ensures result.Stopped? ==> IsUpToDate(commit, status)
      ensures Tidy(b, store.templates, store.versions, done + {chart})
      ensures result.Completed? && Sane(b) && old(Midway(b, store.templates, store.versions, source, done)) ==>
                Midway(b, store.templates, store.versions, source, done + {chart})
    {
      TidyMore(b, store.templates, store.versions, done, chart);
      // An empty list of versions, a missing icon or file, or a catalog that is gone ends the sync.
      var fault := *;
      if index[chart] == [] || fault {
        store.refused := store.refused || fault;
        return Broken;
      }
      if IsUpToDate(commit, status) {
        return Stopped;
      }
      ghost var t, v := store.templates, store.versions;
      var ok := PutChart(chart, index[chart]);
      PutTidy(b, t, v, store.templates, store.versions, done, chart);
      if ok && Sane(b) && Midway(b, t, v, source, done) {
        PutReady(b, t, v, source, done, chart);
        PutProgress(b, source, done, chart);
        BuildStep(t, v, store.templates, store.versions, catalog, source, chart, index[chart]);
      }
      source := source[chart := index[chart]];
      return if ok then Completed else Refused;
    }

    /** One chart of the loop: skipped if it passes for unchanged, unless the catalog needs a full pass. */
    method VisitChart(ghost b: Start, ghost done: set<string>, index: Index, chart: string, commit: string)
        returns (result: Result, digests: Commits)
      requires b.catalog == catalog && b.index == index && b.status == status
      requires chart in index && chart !in done && Tidy(b, store.templates, store.versions, done)
      modifies store, this`source
      ensures (old(store.refused) ==> store.refused) &&
              (result.Refused? || result.Broken? ==> store.refused || index[chart] == [])
      ensures result.Stopped? ==> IsUpToDate(commit, status)
      ensures Tidy(b, store.templates, store.versions, done + {chart})
      ensures digests == Digests(index[chart])
      ensures result.Completed? && Sane(b) && old(Midway(b, store.templates, store.versions, source, done)) ==>
                Midway(b, store.templates, store.versions, source, done + {chart})
    {
      var changed: bool;
      digests, changed := DetectChange(index[chart], Recorded(status, chart));
      if !changed && HasAllUpdates(status) {
        TidyMore(b, store.templates, store.versions, done, chart);
        if Sane(b) && Midway(b, store.templates, store.versions, source, done) {
          SkipProgress(b, done, chart);
        }
        return Completed, digests;
      }
      result := RebuildChart(b, done, index, chart, commit);
    }

    /** The loop over the index. A chart whose template fails is left out of the new record, and the loop goes on. */
    method UpdateCharts(ghost b: Start, index: Index, commit: string)
        returns (result: Result, newCommits: map<string, Commits>)
      requires b == Before(index)
      modifies store, this`source
      ensures (old(store.refused) ==> store.refused) &&
              (result.Refused? || result.Broken? ==> store.refused || EmptyChart(index))
      ensures result.Stopped? ==> IsUpToDate(commit, status)
      ensures Tidy(b, store.templates, store.versions, index.Keys)
      ensures result.Completed? && Sane(b) && InStore(b.templates, b.versions, catalog, b.source) ==>
                Midway(b, store.templates, store.versions, source, index.Keys)
      ensures result.Completed? ==> newCommits == DigestsFor(index, index.Keys)
    {
      newCommits := map[];
      var rest, refused := index.Keys, false;
      ghost var done: set<string> := {};
      ghost var good := Sane(b) && InStore(b.templates, b.versions, catalog, b.source);
      BeginMidway(b);
      while rest != {}
        invariant rest !! done && rest + done == index.Keys
        invariant (old(store.refused) ==> store.refused) && (refused ==> store.refused || EmptyChart(index))
        invariant Tidy(b, store.templates, store.versions, done)
        invariant good && !refused ==> Midway(b, store.templates, store.versions, source, done)
        invariant !refused ==> newCommits == DigestsFor(index, done)
        decreases rest
      {
        var chart :| chart in rest;
        var one, digests := VisitChart(b, done, index, chart, commit);
        DigestsForStep(index, done, chart);
        newCommits := newCommits[chart := digests];
        rest := rest - {chart};
        done := done + {chart};
        if one.Stopped? || one.Broken? {
          TidyAll(b, store.templates, store.versions, done);
          return one, newCommits;
        } else if one.Refused? {
          newCommits := newCommits - {chart};
          refused := true;
        }
      }
      assert done == index.Keys;
      result := if refused then Refused else Completed;
    }

    /** Delete one chart's template and template versions. */
    method DropChart(ghost b: Start, ghost names: set<string>, chart: string) returns (ok: bool)
      requires b.catalog == catalog && TemplateName(catalog, chart) in names
      requires ForeignSame(b.templates, b.versions, store.templates, store.versions, names)
      modifies store, this`source
      ensures (old(store.refused) ==> store.refused) && (!ok ==> store.refused)
      ensures ForeignSame(b.templates, b.versions, store.templates, store.versions, names)
      ensures Named(old(store.versions)) ==> Named(store.versions)
      ensures source == old(source) - {chart}
      ensures ok && old(InStore(store.templates, store.versions, catalog, source)) ==>
                InStore(store.templates, store.versions, catalog, source)
    {
      ghost var t, v := store.templates, store.versions;
      ok := store.DeleteChart(TemplateName(catalog, chart));
      ForeignStep(b.templates, b.versions, t, v, store.templates, store.versions, names, TemplateName(catalog, chart));
      if ok && InStore(t, v, catalog, source) {
        DeleteStep(t, v, store.versions, catalog, source, chart);
      }
      source := source - {chart};
    }

    /** Delete these charts, in any order. */
    method DropCharts(ghost b: Start, ghost names: set<string>, gone: set<string>) returns (ok: bool)
      requires b.catalog == catalog && NamesOf(catalog, gone) <= names
      requires ForeignSame(b.templates, b.versions, store.templates, store.versions, names)
      modifies store, this`source
      ensures (old(store.refused) ==> store.refused) && (!ok ==> store.refused)
      ensures ForeignSame(b.templates, b.versions, store.templates, store.versions, names)
      ensures Named(old(store.versions)) ==> Named(store.versions)
      ensures ok ==> source == old(source) - gone
      ensures ok && old(InStore(store.templates, store.versions, catalog, source)) ==>
                InStore(store.templates, store.versions, catalog, source)
    {
      ok := true;
      var rest := gone;
      ghost var was, stored := source, InStore(store.templates, store.versions, catalog, source);
      while rest != {}
        invariant rest <= gone
        invariant old(store.refused) ==> store.refused
        invariant ForeignSame(b.templates, b.versions, store.templates, store.versions, names)
        invariant Named(old(store.versions)) ==> Named(store.versions)
        invariant source - rest == was - gone
        invariant stored ==> InStore(store.templates, store.versions, catalog, source)
        decreases rest
      {
        var chart :| chart in rest;
        ok := DropChart(b, names, chart);
        if !ok {
          return;
        }
        rest := rest - {chart};
      }
      assert source - {} == source;
    }

    /** Both loops: the charts of the index, then the recorded charts that it no longer has. */
    method UpdateAndDrop(ghost b: Start, index: Index, commit: string)
        returns (result: Result, newCommits: map<string, Commits>)
      requires b == Before(index)
      modifies store, this`source
      ensures (old(store.refused) ==> store.refused) &&
              (result.Refused? || result.Broken? ==> store.refused || EmptyChart(index))
      ensures result.Stopped? ==> IsUpToDate(commit, status)
      ensures ForeignSame(b.templates, b.versions, store.templates, store.versions, TouchedNames(b))
      ensures Named(old(store.versions)) ==> Named(store.versions)
      ensures result.Completed? ==> newCommits == DigestsOf(index)
      ensures result.Completed? && Sane(b) && InStore(b.templates, b.versions, catalog, b.source) ==>
                InStore(store.templates, store.versions, catalog, source) &&
                source == NextSource(b.source, b.status, index) && newCommits == DigestsOf(source)
    {
      result, newCommits := UpdateCharts(b, index, commit);
      ForeignMore(b.templates, b.versions, store.templates, store.versions, NamesOf(catalog, index.Keys),
                  TouchedNames(b));
      if result.Broken? || result.Stopped? {
        return;
      }
      var ok := DropCharts(b, TouchedNames(b), status.commits.Keys - index.Keys);
      if !ok {
        return Broken, newCommits;
      }
      assert DigestsFor(index, index.Keys) == DigestsOf(index);
      if result.Completed? && Sane(b) && InStore(b.templates, b.versions, catalog, b.source) {
        Finish(b, newCommits, source);
      }
    }

    /** `traverseAndUpdate`. After a sync that completes, the recorded digests are the index's whatever is stored. If
        the index is sane, the store holds exactly its charts: the changed ones as built from the index, the others as
        they were. */
    method TraverseAndUpdate(index: Index, commit: string) returns (result: Result)
      modifies this, store
      ensures result.Refused? || result.Broken? ==> store.refused || EmptyChart(index)
      ensures ForeignSame(old(store.templates), old(store.versions), store.templates, store.versions,
                          TouchedNames(old(Before(index))))
      ensures result.Stopped? ==> IsUpToDate(commit, old(status)) && status == old(status)
      ensures Named(old(store.versions)) ==> Named(store.versions)
      ensures result.Completed? ==> status == Status(DigestsOf(index), commit, true, true)
      ensures result.Completed? && old(Valid()) && Sane(old(Before(index))) ==>
                Valid() && source == NextSource(old(source), old(status), index)
    {
      ghost var b := Before(index);
      store.refused := false;
      var newCommits: map<string, Commits>;
      result, newCommits := UpdateAndDrop(b, index, commit);
      if result.Broken? || result.Stopped? {
        return;
      }
      // Files that cannot be read are reported at the end, and the commit is then not recorded.
      var saved, unreadable := *, *;
      store.refused := store.refused || !saved || unreadable;
      if !saved {
        return Broken;
      }
      if result.Refused? {
        status := status.(commits := newCommits);
        return;
      }
      status := Status(newCommits, if unreadable then "" else commit, true, true);
      if unreadable {
        return Refused;
      }
    }

    /** The store and the catalog object as they are now. */
    ghost function Now(): Snapshot
      reads this, store
    {
      Snapshot(store.templates, store.versions, status, source)
    }

    /** `Sync`: nothing is done when the catalog is up to date; otherwise a sync that completes is a step of a run. One
        that does not complete was refused something, or the index has a chart without versions. */
    method Sync(index: Index, commit: string) returns (result: Result)
      modifies this, store
      ensures result.Refused? || result.Broken? ==> store.refused || EmptyChart(index)
      ensures ForeignSame(old(store.templates), old(store.versions), store.templates, store.versions,
                          TouchedNames(old(Before(index))))
      ensures result.Stopped? <==> IsUpToDate(commit, old(status))
      ensures result.Stopped? ==> unchanged(this) && unchanged(store)
      ensures Named(old(store.versions)) ==> Named(store.versions)
      ensures result.Completed? ==> status == Status(DigestsOf(index), commit, true, true)
      ensures result.Completed? && Sane(old(Before(index))) ==> SyncStep(catalog, old(Now()), Now(), index, commit)
    {
      if IsUpToDate(commit, status) {
        return Stopped;
      }
      result := TraverseAndUpdate(index, commit);
    }

    /** The first sync of a catalog whose names nobody has taken. If it completes, the digests are recorded, and the
        store mirrors the index exactly when no two of its charts share a name. */
    static method FirstSync(catalog: string, store: Store, index: Index, commit: string)
        returns (m: Manager, result: Result)
      requires NothingBut(store.templates, store.versions, catalog, {}) && Named(store.versions) && WellFormed(index)
      requires NamesFree(catalog, index, store.versions)
      modifies store
      ensures fresh(m) && m.store == store && m.catalog == catalog
      ensures result.Completed? ==> m.status == Status(DigestsOf(index), commit, true, true)
      ensures result.Completed? ==> (Mirrors(catalog, m.Now(), index) <==> NoSharedNames(catalog, index))
    {
      m := new Manager(catalog, store);
      ghost var before := m.Now();
      result := m.Sync(index, commit);
      if result.Completed? {
        FirstMirrors(catalog, before, m.Now(), index, commit);
      }
    }
  }
}
