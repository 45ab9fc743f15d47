/** Bringing a node's containers in line with its plan: runProcess of pkg/rkeworker/docker_unix.go and doExecutePlan of
    pkg/rkeworker/execute_unix.go. */
module Containers {
  import opened Basics
  import opened Maps
  import opened Seqs
  import opened Text

  datatype Process = Process(image: string, command: seq<string>)

  /** A container with its two name labels, the current one and the one older versions used, and what it was made
      from. */
  datatype Container = Container(rkeName: Option<string>, cattleName: Option<string>, process: Process)

  type ContainerID = nat

  type State = map<ContainerID, Container>

  /** Whether a container no longer matches the process: the comparison of inspected container and process. */
  type Changed = (Process, Container) -> bool

  predicate IsFor(c: Container, name: string) {
    c.rkeName == Some(name) || c.cattleName == Some(name)
  }

  ghost function Labelled(s: State, name: string): set<ContainerID> {
    set id | id in s && IsFor(s[id], name)
  }

  /** No container carries both labels. */
  ghost predicate SingleLabels(s: State) {
    forall id :: id in s ==> s[id].rkeName.None? || s[id].cattleName.None?
  }

  /** Containers for other names are the same in both. */
  ghost predicate OthersSame(a: State, b: State, name: string) {
    forall id :: (id in a && !IsFor(a[id], name)) || (id in b && !IsFor(b[id], name)) ==>
        id in a && id in b && a[id] == b[id]
  }

  function Made(name: string, p: Process): Container {
    Container(Some(name), None, p)
  }

  ghost predicate Settled(start: State, limit: nat, now: State, name: string, p: Process, changed: Changed,
                          id: ContainerID)
  {
    && Labelled(now, name) == {id}
    && (if id < limit then id in start && now[id] == start[id] && !changed(p, start[id]) else now[id] == Made(name, p))
  }

  /** The process has exactly one container: one that was there, numbered below `limit`, and matches, or a new one. */
  ghost predicate InPlace(start: State, limit: nat, now: State, name: string, p: Process, changed: Changed) {
    exists id :: Settled(start, limit, now, name, p, changed, id)
  }

  predicate IsSidekick(name: string) {
    Contains(name, "sidekick")
  }

  ghost function Sidekicks(processes: map<string, Process>): set<string> {
    set name | name in processes && IsSidekick(name)
  }

  /** The processes of the first pass. */
  function First(processes: map<string, Process>): set<string> {
    set name | name in processes && (IsSidekick(name) || Contains(name, "share-mnt"))
  }

  predicate ForSome(c: Container, names: set<string>) {
    (c.rkeName.Some? && c.rkeName.value in names) || (c.cattleName.Some? && c.cattleName.value in names)
  }

  /** Containers for none of the names are the same in both. */
  ghost predicate OthersSameAs(a: State, b: State, names: set<string>) {
    forall id :: (id in a && !ForSome(a[id], names)) || (id in b && !ForSome(b[id], names)) ==>
        id in a && id in b && a[id] == b[id]
  }

  ghost predicate AllInPlace(start: State, limit: nat, now: State, processes: map<string, Process>, names: set<string>,
                             changed: Changed)
    requires names <= processes.Keys
  {
    forall name :: name in names ==> InPlace(start, limit, now, name, processes[name], changed)
  }

  /** Every container was there at the start or was made for a process of the plan. */
  ghost predicate Traced(start: State, limit: nat, now: State, processes: map<string, Process>) {
    forall id :: id in now ==>
      if id < limit then id in start && now[id] == start[id]
      else
        && now[id].rkeName.Some? && now[id].rkeName.value in processes
        && now[id] == Made(now[id].rkeName.value, processes[now[id].rkeName.value])
  }

  lemma TracedIsSingle(start: State, limit: nat, now: State, processes: map<string, Process>)
    requires SingleLabels(start) && Traced(start, limit, now, processes)
    ensures SingleLabels(now)
  {
  }

  lemma SameThrough(a: State, b: State, c: State, names: set<string>, name: string)
    requires OthersSameAs(a, b, names) && OthersSame(b, c, name) && name in names
    ensures OthersSameAs(a, c, names)
  {
  }

  /** Nothing appears but containers of this process. */
  ghost predicate OnlyAdds(start: State, limit: nat, now: State, name: string, p: Process) {
    forall id :: id in now ==> if id < limit then id in start && now[id] == start[id] else now[id] == Made(name, p)
  }

  lemma StaysTraced(start: State, limit: nat, before: State, base: nat, now: State, processes: map<string, Process>,
                    name: string)
    requires Traced(start, limit, before, processes) && name in processes && limit <= base
    requires forall id :: id in before ==> id < base
    requires OnlyAdds(before, base, now, name, processes[name])
    ensures Traced(start, limit, now, processes)
  {
  }

  /** Containers for the name are the same in both. */
  ghost predicate SameFor(a: State, b: State, name: string) {
    forall id :: (id in a && IsFor(a[id], name)) || (id in b && IsFor(b[id], name)) ==>
        id in a && id in b && a[id] == b[id]
  }

  lemma StaysInPlace(start: State, limit: nat, before: State, now: State, name: string, p: Process, changed: Changed)
    requires SameFor(before, now, name) && InPlace(start, limit, before, name, p, changed)
    ensures InPlace(start, limit, now, name, p, changed)
  {
    var id: ContainerID :| Settled(start, limit, before, name, p, changed, id);
    assert id in Labelled(before, name);
    assert Labelled(now, name) == Labelled(before, name);
    assert Settled(start, limit, now, name, p, changed, id);
  }

  /** Running one process puts it in place with respect to the start of the plan, and keeps the others in place. */
  lemma OneMoreInPlace(start: State, limit: nat, before: State, base: nat, now: State, processes: map<string, Process>,
                       names: set<string>, name: string, changed: Changed)
    requires names <= processes.Keys && name in processes && limit <= base
    requires Traced(start, limit, before, processes) && SingleLabels(before) && SingleLabels(now)
    requires AllInPlace(start, limit, before, processes, names, changed)
    requires OthersSame(before, now, name)
    requires InPlace(before, base, now, name, processes[name], changed)
    ensures AllInPlace(start, limit, now, processes, names + {name}, changed)
  {
    var id: ContainerID :| Settled(before, base, now, name, processes[name], changed, id);
    assert id in Labelled(now, name);
    assert Settled(start, limit, now, name, processes[name], changed, id);
    forall other | other in names && other != name
      ensures InPlace(start, limit, now, other, processes[other], changed)
    {
      StaysInPlace(start, limit, before, now, other, processes[other], changed);
    }
  }

  lemma SameForOthers(a: State, b: State, names: set<string>, name: string)
    requires SingleLabels(a) && SingleLabels(b) && OthersSameAs(a, b, names) && name !in names
    ensures SameFor(a, b, name)
  {
    forall id | (id in a && IsFor(a[id], name)) || (id in b && IsFor(b[id], name))
      ensures id in a && id in b && a[id] == b[id]
    {
      assert (id in a && !ForSome(a[id], names)) || (id in b && !ForSome(b[id], names));
    }
  }

  /** What the first pass alone put in place is in place after the second. */
  lemma StillInPlace(start: State, limit: nat, mid: State, now: State, processes: map<string, Process>,
                     changed: Changed, second: set<string>)
    requires SingleLabels(mid) && SingleLabels(now)
    requires AllInPlace(start, limit, mid, processes, First(processes), changed)
    requires second == (set name | name in processes && !IsSidekick(name))
    requires AllInPlace(start, limit, now, processes, second, changed)
    requires OthersSameAs(mid, now, second)
    ensures AllInPlace(start, limit, now, processes, processes.Keys, changed)
  {
    forall name | name in processes && IsSidekick(name)
      ensures InPlace(start, limit, now, name, processes[name], changed)
    {
      assert name in First(processes);
      SameForOthers(mid, now, second, name);
      StaysInPlace(start, limit, mid, now, name, processes[name], changed);
    }
  }

  predicate HasBoth(c: Container, name: string) {
    c.rkeName == Some(name) && c.cattleName == Some(name)
  }

  ghost predicate SomeHasBoth(s: State, name: string) {
    exists id :: id in s && HasBoth(s[id], name)
  }

  ghost function Stale(s: State, name: string, p: Process, changed: Changed): set<ContainerID> {
    set id | id in s && IsFor(s[id], name) && changed(p, s[id])
  }

  ghost predicate OtherMatches(s: State, name: string, p: Process, changed: Changed, id: ContainerID) {
    exists other :: other in s && other != id && IsFor(s[other], name) && !changed(p, s[other])
  }

  /** A container with both labels may make the run fail if it no longer matches, if the process shares mounts, or if
      another container could be kept. */
  ghost predicate Trips(s: State, name: string, p: Process, changed: Changed) {
    exists id :: id in s && HasBoth(s[id], name) &&
      (changed(p, s[id]) || Contains(name, "share-mnt") || OtherMatches(s, name, p, changed, id))
  }

  /** The two lists of a process' containers. */
  ghost predicate Lists(s: State, name: string, ids: seq<ContainerID>, legacy: seq<ContainerID>) {
    && Distinct(ids) && Distinct(legacy)
    && (forall id :: id in ids <==> id in s && s[id].rkeName == Some(name))
    && (forall id :: id in legacy <==> id in s && s[id].cattleName == Some(name))
    && (forall id :: id in ids + legacy ==> id in s)
  }

  /** What is removed when tidying succeeds; only the container to keep may have both labels. */
  ghost predicate Sifted(s: State, name: string, p: Process, changed: Changed, matched: seq<ContainerID>,
                         gone: set<ContainerID>)
  {
    && (forall id :: id in matched <==> id in s && IsFor(s[id], name) && !changed(p, s[id]))
    && gone == Stale(s, name, p, changed) + (if matched == [] then {} else set id | id in matched[1..])
    && (matched != [] ==> matched[0] in s && (matched[0] in matched[1..] <==> HasBoth(s[matched[0]], name)))
    && (forall id :: id in s && HasBoth(s[id], name) ==> matched != [] && id == matched[0])
  }

  lemma AtTwoPlaces(ids: seq<ContainerID>, legacy: seq<ContainerID>, id: ContainerID) returns (i: nat, j: nat)
    requires id in ids && id in legacy
    ensures i < j < |ids + legacy| && (ids + legacy)[i] == id == (ids + legacy)[j]
  {
    i :| i < |ids| && ids[i] == id;
    var k: nat :| k < |legacy| && legacy[k] == id;
    j := |ids| + k;
  }

  lemma TailDiffers(m: seq<ContainerID>)
    requires m != [] && Distinct(m[1..])
    ensures forall i, j :: 1 <= i < j < |m| ==> m[i] != m[j]
  {
    forall i, j | 1 <= i < j < |m| ensures m[i] != m[j] {
      assert m[1..][i - 1] == m[i] && m[1..][j - 1] == m[j];
    }
  }

  /** The listed containers that still match the process. */
  function Matching(ids: seq<ContainerID>, p: Process, changed: Changed, s: State): seq<ContainerID>
    requires forall id :: id in ids ==> id in s
  {
    if ids == [] then []
    else
      var last := ids[|ids| - 1];
      Matching(ids[..|ids| - 1], p, changed, s) + (if changed(p, s[last]) then [] else [last])
  }

  lemma {:induction false} MatchingIs(ids: seq<ContainerID>, p: Process, changed: Changed, s: State)
    requires forall id :: id in ids ==> id in s
    ensures forall id :: id in Matching(ids, p, changed, s) <==> id in ids && !changed(p, s[id])
  {
    if ids != [] {
      var k := |ids| - 1;
      MatchingIs(ids[..k], p, changed, s);
      assert ids == ids[..k] + [ids[k]];
    }
  }

  /** No container that no longer matches is listed twice. */
  ghost predicate ChangedOnce(ids: seq<ContainerID>, p: Process, changed: Changed, s: State)
    requires forall id :: id in ids ==> id in s
  {
    forall i, j :: 0 <= i < j < |ids| && ids[i] == ids[j] ==> !changed(p, s[ids[i]])
  }

  lemma {:induction false} MatchingConcat(a: seq<ContainerID>, b: seq<ContainerID>, p: Process, changed: Changed,
                                          s: State)
    requires forall id :: id in a + b ==> id in s
    ensures forall id :: id in a || id in b ==> id in s
    ensures Matching(a + b, p, changed, s) == Matching(a, p, changed, s) + Matching(b, p, changed, s)
    decreases |b|
  {
    forall id | id in a || id in b ensures id in s {
      assert id in a + b;
    }
    if b == [] {
      assert a + b == a;
    } else {
      var k := |b| - 1;
      assert (a + b)[..|a + b| - 1] == a + b[..k];
      forall id | id in a + b[..k] ensures id in s {
        assert id in a || id in b;
      }
      MatchingConcat(a, b[..k], p, changed, s);
    }
  }

  /** When both loops succeed, only the container to keep may have both labels. */
  lemma OnlyKeptHasBoth(s: State, name: string, p: Process, changed: Changed, ids: seq<ContainerID>,
                        legacy: seq<ContainerID>, id: ContainerID)
    requires Lists(s, name, ids, legacy) && id in s && HasBoth(s[id], name)
    requires ChangedOnce(ids + legacy, p, changed, s)
    requires var m := Matching(ids + legacy, p, changed, s); m != [] ==> Distinct(m[1..])
    ensures var m := Matching(ids + legacy, p, changed, s); m != [] && id == m[0]
  {
    var i, j := AtTwoPlaces(ids, legacy, id);
    assert !changed(p, s[id]);
    MatchingConcat(ids, legacy, p, changed, s);
    MatchingIs(ids, p, changed, s);
    MatchingIs(legacy, p, changed, s);
    var m := Matching(ids + legacy, p, changed, s);
    var u, v := AtTwoPlaces(Matching(ids, p, changed, s), Matching(legacy, p, changed, s), id);
    TailDiffers(m);
  }

  lemma TailOfTwo(s: State, name: string, p: Process, changed: Changed, a: seq<ContainerID>, b: seq<ContainerID>)
    requires Distinct(a) && Distinct(b) && !Trips(s, name, p, changed)
    requires forall id :: id in a ==> id in s && s[id].rkeName == Some(name) && !changed(p, s[id])
    requires forall id :: id in b ==> id in s && s[id].cattleName == Some(name) && !changed(p, s[id])
    requires a + b != []
    ensures Distinct((a + b)[1..])
  {
    var m := a + b;
    forall i, j | 1 <= i < j < |m| ensures m[i] != m[j] {
      if m[i] == m[j] {
        assert m[i] in a && m[j] in b;
        assert HasBoth(s[m[i]], name);
        assert m[0] in a && m[0] != m[i];
        assert OtherMatches(s, name, p, changed, m[i]);
      }
    }
    forall i, j | 0 <= i < j < |m[1..]| ensures m[1..][i] != m[1..][j] {
      assert m[1..][i] == m[i + 1] && m[1..][j] == m[j + 1];
    }
  }

  lemma {:induction false} MatchingNoRepeats(ids: seq<ContainerID>, p: Process, changed: Changed, s: State)
    requires Distinct(ids) && forall id :: id in ids ==> id in s
    ensures Distinct(Matching(ids, p, changed, s))
  {
    if ids != [] {
      var k := |ids| - 1;
      MatchingNoRepeats(ids[..k], p, changed, s);
      MatchingIs(ids[..k], p, changed, s);
      assert ids[k] !in ids[..k];
    }
  }

  /** Where nothing trips the run, no list holds a container twice that it must not. */
  lemma ListedWell(s: State, name: string, p: Process, changed: Changed, ids: seq<ContainerID>,
                   legacy: seq<ContainerID>)
    requires Lists(s, name, ids, legacy) && !Trips(s, name, p, changed)
    ensures ChangedOnce(ids + legacy, p, changed, s)
    ensures var m := Matching(ids + legacy, p, changed, s); m != [] ==> Distinct(m[1..])
  {
    var all := ids + legacy;
    forall i, j | 0 <= i < j < |all| && all[i] == all[j] ensures !changed(p, s[all[i]]) {
      assert all[i] in ids && all[j] in legacy;
      assert HasBoth(s[all[i]], name);
    }
    MatchingConcat(ids, legacy, p, changed, s);
    MatchingNoRepeats(ids, p, changed, s);
    MatchingNoRepeats(legacy, p, changed, s);
    MatchingIs(ids, p, changed, s);
    MatchingIs(legacy, p, changed, s);
    if Matching(all, p, changed, s) != [] {
      TailOfTwo(s, name, p, changed, Matching(ids, p, changed, s), Matching(legacy, p, changed, s));
    }
  }

  lemma FirstIsNotRepeated(ids: seq<ContainerID>)
    requires Distinct(ids) && ids != []
    ensures ids[0] !in ids[1..]
  {
    forall i | 1 <= i < |ids| ensures ids[0] != ids[i] {}
  }

  lemma FirstOfTwo(x: seq<ContainerID>, y: seq<ContainerID>)
    requires Distinct(x) && Distinct(y) && x + y != []
    ensures (x + y)[0] in (x + y)[1..] <==> x != [] && x[0] in y
  {
    if x == [] {
      assert x + y == y;
      FirstIsNotRepeated(y);
    } else {
      assert (x + y)[1..] == x[1..] + y;
      FirstIsNotRepeated(x);
    }
  }

  /** The container that is kept is listed a second time exactly when both lists have it. */
  lemma FirstRepeats(a: seq<ContainerID>, b: seq<ContainerID>, p: Process, changed: Changed, s: State)
    requires Distinct(a) && Distinct(b) && forall id :: id in a + b ==> id in s
    requires Matching(a + b, p, changed, s) != []
    ensures var m := Matching(a + b, p, changed, s); m[0] in m[1..] <==> m[0] in a && m[0] in b
  {
    MatchingConcat(a, b, p, changed, s);
    MatchingNoRepeats(a, p, changed, s);
    MatchingNoRepeats(b, p, changed, s);
    var x, y := Matching(a, p, changed, s), Matching(b, p, changed, s);
    FirstOfTwo(x, y);
    MatchingIs(a, p, changed, s);
    MatchingIs(b, p, changed, s);
    if x == [] {
      assert (x + y)[0] in y;
    } else {
      assert (x + y)[0] in x;
    }
  }

  lemma SiftKeeps(s: State, name: string, p: Process, changed: Changed, ids: seq<ContainerID>, legacy: seq<ContainerID>)
    requires Lists(s, name, ids, legacy)
    ensures var m := Matching(ids + legacy, p, changed, s);
            && (forall id :: id in m <==> id in s && IsFor(s[id], name) && !changed(p, s[id]))
            && (m != [] ==> m[0] in s && (m[0] in m[1..] <==> HasBoth(s[m[0]], name)))
  {
    MatchingIs(ids + legacy, p, changed, s);
    if Matching(ids + legacy, p, changed, s) != [] {
      FirstRepeats(ids, legacy, p, changed, s);
      assert Matching(ids + legacy, p, changed, s)[0] in ids + legacy;
    }
  }

  ghost function Outdated(ids: seq<ContainerID>, p: Process, changed: Changed, s: State): set<ContainerID>
    requires forall id :: id in ids ==> id in s
  {
    set id | id in ids && changed(p, s[id])
  }

  lemma OutdatedIsStale(s: State, name: string, p: Process, changed: Changed, ids: seq<ContainerID>,
                        legacy: seq<ContainerID>)
    requires Lists(s, name, ids, legacy)
    ensures Outdated(ids + legacy, p, changed, s) == Stale(s, name, p, changed)
    ensures (set id | id in ids + legacy) == Labelled(s, name)
    ensures forall id :: id in Matching(ids + legacy, p, changed, s) ==> id in s - Stale(s, name, p, changed)
  {
    SiftKeeps(s, name, p, changed, ids, legacy);
  }

  /** When both loops succeed, what they leave is as it should be. */
  lemma SiftedWell(s: State, name: string, p: Process, changed: Changed, ids: seq<ContainerID>,
                   legacy: seq<ContainerID>)
    requires Lists(s, name, ids, legacy) && ChangedOnce(ids + legacy, p, changed, s)
    requires var m := Matching(ids + legacy, p, changed, s); m != [] ==> Distinct(m[1..])
    ensures var m := Matching(ids + legacy, p, changed, s);
            Sifted(s, name, p, changed, m, Stale(s, name, p, changed) + (if m == [] then {} else set id | id in m[1..]))
  {
    SiftKeeps(s, name, p, changed, ids, legacy);
    forall id | id in s && HasBoth(s[id], name)
      ensures var m := Matching(ids + legacy, p, changed, s); m != [] && id == m[0]
    {
      OnlyKeptHasBoth(s, name, p, changed, ids, legacy, id);
    }
  }

  /** With some container kept, the process is in place unless the kept one was dropped as its own repeat. */
  lemma KeptOrLost(start: State, limit: nat, now: State, name: string, p: Process, changed: Changed,
                   matched: seq<ContainerID>, gone: set<ContainerID>)
    requires forall id :: id in start ==> id < limit
    requires matched != [] && Sifted(start, name, p, changed, matched, gone) && now == start - gone
    ensures HasBoth(start[matched[0]], name) <==> SomeHasBoth(start, name)
    ensures InPlace(start, limit, now, name, p, changed) <==> !SomeHasBoth(start, name)
    ensures SomeHasBoth(start, name) ==> Labelled(now, name) == {}
    ensures matched[0] !in now ==> SomeHasBoth(start, name)
  {
    var kept := matched[0];
    assert kept in matched;
    forall id | id in Labelled(now, name) ensures id == kept && kept !in matched[1..] {
      assert id in matched;
    }
    if kept !in matched[1..] {
      assert Labelled(now, name) == {kept};
      assert Settled(start, limit, now, name, p, changed, kept);
    }
  }

  lemma NewIsInPlace(start: State, limit: nat, now: State, name: string, p: Process, changed: Changed,
                     gone: set<ContainerID>)
    requires forall id :: id in start ==> id < limit
    requires Sifted(start, name, p, changed, [], gone) && now == (start - gone)[limit := Made(name, p)]
    ensures InPlace(start, limit, now, name, p, changed)
  {
    assert Labelled(now, name) == {limit};
    assert Settled(start, limit, now, name, p, changed, limit);
  }

  /** One listed container more. */
  lemma SiftStep(ids: seq<ContainerID>, i: nat, p: Process, changed: Changed, s: State)
    requires i < |ids| && forall id :: id in ids ==> id in s
    ensures forall id :: id in ids[..i] || id in ids[..i + 1] ==> id in s
    ensures var before, after, id := ids[..i], ids[..i + 1], ids[i];
            && Outdated(after, p, changed, s) ==
              Outdated(before, p, changed, s) + (if changed(p, s[id]) then {id} else {})
            && Matching(after, p, changed, s) ==
              Matching(before, p, changed, s) + (if changed(p, s[id]) then [] else [id])
            && (ChangedOnce(before, p, changed, s) && id !in Outdated(before, p, changed, s) ==>
                ChangedOnce(after, p, changed, s))
            && (ChangedOnce(ids, p, changed, s) ==> id !in Outdated(before, p, changed, s))
  {
    assert ids[..i + 1] == ids[..i] + [ids[i]] && ids[..i + 1][..i] == ids[..i];
  }

  class Docker {
    var containers: State
    /** Numbers from here on are unused. */
    var next: nat
    /** Whether a request of the current plan failed although nothing stood in its way. */
    ghost var faulted: bool

    ghost predicate Valid()
      reads this
    {
      forall id :: id in containers ==> id < next
    }

    constructor (containers: State, next: nat)
      requires forall id :: id in containers ==> id < next
      ensures this.containers == containers && this.next == next && !faulted && Valid()
    {
      this.containers, this.next, faulted := containers, next, false;
    }

    /** The containers with a label, in any order. */
    method List(name: string, legacy: bool) returns (ids: seq<ContainerID>)
      ensures forall id :: id in ids <==>
              id in containers && (if legacy then containers[id].cattleName else containers[id].rkeName) == Some(name)
      ensures Distinct(ids)
    {
      ids := [];
      var rest := containers.Keys;
      while rest != {}
        invariant rest <= containers.Keys
        invariant forall id :: id in ids <==>
                    id in containers && id !in rest &&
                    (if legacy then containers[id].cattleName else containers[id].rkeName) == Some(name)
        invariant Distinct(ids)
        decreases rest
      {
        var id :| id in rest;
        if (if legacy then containers[id].cattleName else containers[id].rkeName) == Some(name) {
          ids := ids + [id];
        }
        rest := rest - {id};
      }
    }

    /** Removing fails for a container that is not there. */
    method Remove(id: ContainerID) returns (ok: bool)
      requires Valid()
      modifies this`containers, this`faulted
      ensures Valid() && (old(faulted) ==> faulted)
      ensures !ok ==> faulted || id !in old(containers)
      ensures ok ==> id in old(containers)
      ensures containers == if ok then old(containers) - {id} else old(containers)
    {
      var fault := *;
      faulted := faulted || fault;
      if fault || id !in containers {
        return false;
      }
      containers := containers - {id};
      return true;
    }

    method Create(c: Container) returns (ok: bool, id: ContainerID)
      requires Valid()
      modifies this
      ensures Valid() && (old(faulted) ==> faulted)
      ensures !ok ==> faulted
      ensures ok ==> id == old(next) && next == id + 1 && containers == old(containers)[id := c]
      ensures !ok ==> containers == old(containers) && next == old(next)
    {
      var fault := *;
      id := next;
      faulted := faulted || fault;
      if fault {
        return false, id;
      }
      containers := containers[id := c];
      next := next + 1;
      return true, id;
    }

    /** The loop over the listed containers: those that no longer match are removed, the others are kept in order. */
    method Sift(ids: seq<ContainerID>, p: Process, changed: Changed, forceRestart: bool)
        returns (ok: bool, matched: seq<ContainerID>, ghost gone: set<ContainerID>)
      requires Valid() && forall id :: id in ids ==> id in containers
      modifies this`containers, this`faulted
      ensures Valid() && (old(faulted) ==> faulted)
      ensures !ok ==> faulted || !ChangedOnce(ids, p, changed, old(containers))
      ensures ok ==> ChangedOnce(ids, p, changed, old(containers))
      ensures gone <= (set id | id in ids) && containers == old(containers) - gone
      ensures ok ==> gone == Outdated(ids, p, changed, old(containers))
      ensures ok ==> matched == Matching(ids, p, changed, old(containers))
    {
      ok, matched, gone := true, [], {};
      ghost var start := containers;
      for i := 0 to |ids|
        invariant Valid() && (old(faulted) ==> faulted)
        invariant gone == Outdated(ids[..i], p, changed, start) && containers == start - gone
        invariant matched == Matching(ids[..i], p, changed, start)
        invariant ChangedOnce(ids[..i], p, changed, start)
      {
        SiftStep(ids, i, p, changed, start);
        var id := ids[i];
        var inspected := *;
        if !inspected || id !in containers {
          ok, faulted := false, faulted || !inspected;
          return;
        }
        if changed(p, containers[id]) {
          RemoveTwice(start, gone, {id});
          ok := Remove(id);
          if !ok {
            return;
          }
          gone := gone + {id};
        } else {
          matched := matched + [id];
          if forceRestart {
            var restarted := *;
            if !restarted {
              ok, faulted := false, true;
              return;
            }
          }
        }
      }
      assert ids[..|ids|] == ids;
    }

    /** Only the first of the kept containers stays. */
    method DropRepeats(matched: seq<ContainerID>) returns (ok: bool, ghost gone: set<ContainerID>)
      requires Valid() && forall id :: id in matched ==> id in containers
      modifies this`containers, this`faulted
      ensures Valid() && (old(faulted) ==> faulted)
      ensures matched != [] && !ok ==> faulted || !Distinct(matched[1..])
      ensures matched != [] && ok ==> Distinct(matched[1..])
      ensures gone <= (set id | id in matched) && containers == old(containers) - gone
      ensures ok && matched != [] ==> gone == set id | id in matched[1..]
      ensures matched == [] ==> ok && gone == {}
    {
      ok, gone := true, {};
      if matched == [] {
        return;
      }
      for i := 1 to |matched|
        invariant Valid() && (old(faulted) ==> faulted)
        invariant gone == set id | id in matched[1..i]
        invariant Distinct(matched[1..i])
        invariant containers == old(containers) - gone
      {
        assert matched[1..i + 1] == matched[1..i] + [matched[i]];
        assert matched[i] == matched[1..][i - 1];
        assert Distinct(matched[1..]) ==> matched[i] in containers by {
          assert matched[1..i] == matched[1..][..i - 1];
        }
        ok := Remove(matched[i]);
        if !ok {
          return;
        }
        gone := gone + {matched[i]};
      }
      assert matched[1..|matched|] == matched[1..];
    }

    /** All but one of the containers that still match are removed, and all that no longer match. */
    method Tidy(name: string, p: Process, changed: Changed, forceRestart: bool)
        returns (ok: bool, matched: seq<ContainerID>, ghost gone: set<ContainerID>)
      requires Valid()
      modifies this`containers, this`faulted
      ensures Valid() && (old(faulted) ==> faulted)
      ensures !ok ==> faulted || Trips(old(containers), name, p, changed)
      ensures gone <= Labelled(old(containers), name) && containers == old(containers) - gone
      ensures ok ==> Sifted(old(containers), name, p, changed, matched, gone)
    {
      matched, gone := [], {};
      var ids := List(name, false);
      var legacy := List(name, true);
      ok := *;
      if !ok {
        faulted := true;
        return;
      }
      ghost var start := containers;
      assert forall id :: id in ids + legacy <==> id in start && IsFor(start[id], name);
      if !Trips(start, name, p, changed) {
        ListedWell(start, name, p, changed, ids, legacy);
      }
      ok, matched, gone := Sift(ids + legacy, p, changed, forceRestart);
      if !ok {
        return;
      }
      SiftKeeps(start, name, p, changed, ids, legacy);
      OutdatedIsStale(start, name, p, changed, ids, legacy);
      ghost var stale := gone;
      ghost var repeats;
      ok, repeats := DropRepeats(matched);
      gone := stale + repeats;
      RemoveTwice(start, stale, repeats);
      if ok {
        SiftedWell(start, name, p, changed, ids, legacy);
      }
    }

    /** One process is brought in line. A container that carries both labels is listed twice. If it is the one to keep,
        it is removed as its own repeat, and then the process is left without a container although no error is reported;
        otherwise its second removal fails. So a run that succeeds leaves the process in place exactly if no container
        had both. */
    method RunProcess(name: string, p: Process, changed: Changed, start: bool, forceRestart: bool) returns (ok: bool)
      requires Valid()
      modifies this
      ensures Valid() && old(next) <= next && (old(faulted) ==> faulted)
      ensures !ok ==> faulted || Trips(old(containers), name, p, changed)
      ensures OthersSame(old(containers), containers, name)
      ensures OnlyAdds(old(containers), old(next), containers, name, p)
      ensures ok ==>
                (InPlace(old(containers), old(next), containers, name, p, changed) <==>
                 !SomeHasBoth(old(containers), name))
      ensures ok && SomeHasBoth(old(containers), name) ==> Labelled(containers, name) == {}
    {
      var matched: seq<ContainerID>;
      ghost var gone: set<ContainerID>;
      ok, matched, gone := Tidy(name, p, changed, forceRestart);
      if !ok {
        return;
      }
      if matched != [] {
        KeptOrLost(old(containers), next, containers, name, p, changed, matched, gone);
        if Contains(name, "share-mnt") {
          var inspected := *;
          faulted := faulted || !inspected;
          ok := inspected && matched[0] in containers;
        }
        return;
      }
      var id: ContainerID;
      ok, id := Create(Made(name, p));
      if ok {
        NewIsInPlace(old(containers), old(next), containers, name, p, changed, gone);
      }
      if ok && start {
        ok := *;
        faulted := faulted || !ok;
      }
    }

    /** For example, a lone container for etcd that has both labels and still matches is gone after a run, and no error
        is reported unless a request fails. */
    static method BothLabelsLost(p: Process) returns (d: Docker, ok: bool)
      ensures fresh(d) && (!ok ==> d.faulted) && (ok ==> d.containers == map[])
    {
      var lone := map[0 := Container(Some("etcd"), Some("etcd"), p)];
      d := new Docker(lone, 1);
      assert HasBoth(lone[0], "etcd");
      assert !Contains("etcd", "share-mnt");
      ok := d.RunProcess("etcd", p, (q, c) => false, true, false);
      if ok {
        forall id | id in d.containers ensures id in Labelled(d.containers, "etcd") {
          assert d.containers[id] == if id < 1 then lone[id] else Made("etcd", p);
        }
      }
    }

    /** One of the two passes over the processes, in any order. */
    method Pass(processes: map<string, Process>, names: set<string>, changed: Changed, start: bool, forceRestart: bool,
                ghost first: State, ghost limit: nat)
        returns (ok: bool)
      requires Valid() && names <= processes.Keys && limit <= next
      requires SingleLabels(first) ==> Traced(first, limit, containers, processes)
      modifies this
      ensures Valid() && limit <= next && (old(faulted) ==> faulted)
      ensures !ok ==> faulted || !SingleLabels(first)
      ensures OthersSameAs(old(containers), containers, names)
      ensures SingleLabels(first) ==> Traced(first, limit, containers, processes)
      ensures SingleLabels(first) && ok ==> AllInPlace(first, limit, containers, processes, names, changed)
    {
      var rest := names;
      ok := true;
      ghost var begun := containers;
      while rest != {}
        invariant rest <= names
        invariant Valid() && limit <= next && (old(faulted) ==> faulted)
        invariant OthersSameAs(begun, containers, names)
        invariant SingleLabels(first) ==> Traced(first, limit, containers, processes)
        invariant SingleLabels(first) ==> AllInPlace(first, limit, containers, processes, names - rest, changed)
        decreases rest
      {
        var name :| name in rest;
        ghost var before, base := containers, next;
        ok := RunProcess(name, processes[name], changed, start, forceRestart);
        SameThrough(begun, before, containers, names, name);
        if SingleLabels(first) {
          TracedIsSingle(first, limit, before, processes);
          StaysTraced(first, limit, before, base, containers, processes, name);
        }
        if !ok {
          return;
        }
        if SingleLabels(first) {
          OneMoreInPlace(first, limit, before, base, containers, processes, names - rest, name, changed);
          assert names - (rest - {name}) == (names - rest) + {name};
        }
        rest := rest - {name};
      }
      assert names - rest == names;
    }

    /** The whole plan: the sidekicks and share-mnt processes first, then everything that is not a sidekick. */
    method DoExecutePlan(processes: map<string, Process>, changed: Changed, bundleChanged: bool)
        returns (ok: bool, ghost mid: State)
      requires Valid()
      modifies this
      ensures Valid()
      ensures !ok ==> faulted || !SingleLabels(old(containers))
      ensures OthersSameAs(old(containers), containers, processes.Keys)
      ensures SingleLabels(old(containers)) && ok ==>
                AllInPlace(old(containers), old(next), containers, processes, processes.Keys, changed)
      ensures SingleLabels(old(containers)) && ok ==>
                && AllInPlace(old(containers), old(next), mid, processes, First(processes), changed)
                && OthersSameAs(mid, containers, processes.Keys - Sidekicks(processes))
    {
      ghost var first, limit := containers, next;
      faulted := false;
      ok := Pass(processes, First(processes), changed, false, false, first, limit);
      mid := containers;
      if !ok {
        return;
      }
      var second := set name | name in processes && !IsSidekick(name);
      assert second == processes.Keys - Sidekicks(processes);
      ok := Pass(processes, second, changed, true, bundleChanged, first, limit);
      if ok && SingleLabels(first) {
        TracedIsSingle(first, limit, containers, processes);
        TracedIsSingle(first, limit, mid, processes);
        StillInPlace(first, limit, mid, containers, processes, changed, second);
      }
    }
  }
}
