/** Reconciling the stored default roles with the built ones: app/rolebuilder.go. */
module RoleReconcile {
  import opened Maps
  import opened Sets
  import opened RoleBuilding

  datatype GlobalRole = GlobalRole(labelled: bool, displayName: string, rules: seq<PolicyRule>, rest: string)

  datatype RoleTemplate = RoleTemplate(labelled: bool, displayName: string, rules: seq<PolicyRule>,
                                       templateNames: seq<string>,
                                       builtin: bool, ext: bool, hidden: bool, context: string, administrative: bool,
                                         rest: string)

  /** What reconcile is given for a kind of role: how to build one, whether a stored one is a default role, and the two
      results of compareAndModify. */
  datatype Kind<!R> = Kind(build: RoleSpec -> R, labelled: R -> bool, equal: (R, R) -> bool, merge: (R, R) -> R)

  type Roles<R> = map<string, R>

  /** The roles of a chain by name; a later one replaces an earlier one of the same name. */
  function Built<R>(specs: seq<RoleSpec>, kind: Kind<R>): Roles<R> {
    if specs == [] then map[]
    else
      var last := specs[|specs| - 1];
      Built(specs[..|specs| - 1], kind)[last.name := kind.build(last)]
  }

  predicate Ours<R>(s: Roles<R>, kind: Kind<R>, name: string) {
    name in s && kind.labelled(s[name])
  }

  ghost function Existing<R>(s: Roles<R>, kind: Kind<R>): Roles<R> {
    map name | name in s && kind.labelled(s[name]) :: s[name]
  }

  ghost predicate NeedsWrite<R>(s: Roles<R>, built: Roles<R>, kind: Kind<R>, name: string) {
    if name in built then !Ours(s, kind, name) || !kind.equal(s[name], built[name]) else Ours(s, kind, name)
  }

  /** The names for which reconciling has something to write. */
  ghost function Needs<R>(s: Roles<R>, built: Roles<R>, kind: Kind<R>): set<string> {
    set name | name in s.Keys + built.Keys && NeedsWrite(s, built, kind, name)
  }

  /** The stored roles once the given names have been written. */
  ghost function After<R>(s: Roles<R>, built: Roles<R>, kind: Kind<R>, written: set<string>): Roles<R> {
    map name | name in s.Keys + built.Keys && name in (if name in written then built else s) ::
      if name !in written then s[name] else if Ours(s, kind, name) then kind.merge(s[name], built[name])
        else built[name]
  }

  lemma GatheredIs<R>(existing: Roles<R>, s: Roles<R>, kind: Kind<R>)
    requires existing.Keys <= s.Keys && (forall name :: name in existing ==> existing[name] == s[name])
    requires forall name :: name in s ==> (name in existing <==> kind.labelled(s[name]))
    ensures existing == Existing(s, kind)
  {
  }

  /** No role that is not a default role has the name of a built one. */
  ghost predicate NoClash<R>(s: Roles<R>, built: Roles<R>, kind: Kind<R>) {
    forall name :: name in built && name in s ==> kind.labelled(s[name])
  }

  /** The walk along the chain, from its head. */
  method Build<R>(builder: RoleBuilder, kind: Kind<R>, ghost chain: seq<RoleBuilder>, ghost k: nat)
      returns (built: Roles<R>)
    requires Linked(chain) && k < |chain| && chain[k] == builder
    ensures built == Built(Specs(chain), kind)
  {
    built := map[];
    ghost var i := 0;
    var head := builder.First(chain, k);
    var current: RoleBuilder? := head;
    while current != null
      invariant 0 <= i <= |chain| && current == (if i < |chain| then chain[i] else null)
      invariant built == Built(Specs(chain)[..i], kind)
      decreases |chain| - i
    {
      assert LinkedAt(chain, i);
      assert Specs(chain)[..i + 1][..i] == Specs(chain)[..i];
      built := built[current.spec.name := kind.build(current.spec)];
      current := current.next;
      i := i + 1;
    }
    assert Specs(chain)[..|chain|] == Specs(chain);
  }

  lemma UnbuiltNeeds<R>(s: Roles<R>, built: Roles<R>, kind: Kind<R>)
    ensures Existing(s, kind).Keys - built.Keys <= Needs(s, built, kind)
  {
  }

  ghost predicate Pruned<R>(s: Roles<R>, existing: Roles<R>, built: Roles<R>, kind: Kind<R>, roles: Roles<R>,
                            left: Roles<R>, done: set<string>)
  {
    roles == After(s, built, kind, done) && left == existing - done
  }

  lemma PruneNone<R>(s: Roles<R>, existing: Roles<R>, built: Roles<R>, kind: Kind<R>)
    ensures Pruned(s, existing, built, kind, s, existing, {})
  {
    assert After(s, built, kind, {}) == s;
    assert existing - {} == existing;
  }

  lemma AfterDelete<R>(s: Roles<R>, built: Roles<R>, kind: Kind<R>, done: set<string>, name: string)
    requires name !in built
    ensures After(s, built, kind, done + {name}) == After(s, built, kind, done) - {name}
  {
  }

  lemma PruneOne<R>(s: Roles<R>, existing: Roles<R>, built: Roles<R>, kind: Kind<R>, roles: Roles<R>, left: Roles<R>,
                    done: set<string>, name: string)
    requires Pruned(s, existing, built, kind, roles, left, done) && name !in built
    ensures Pruned(s, existing, built, kind, roles - {name}, left - {name}, done + {name})
  {
    AfterDelete(s, built, kind, done, name);
    RemoveTwice(existing, done, {name});
  }

  lemma AfterWrite<R>(s: Roles<R>, built: Roles<R>, kind: Kind<R>, done: set<string>, name: string)
    requires name in built && name !in done
    ensures After(s, built, kind, done + {name}) ==
            After(s, built, kind, done)[name := if Ours(s, kind, name) then kind.merge(s[name], built[name])
                                        else built[name]]
  {
  }

  /** What one built role needs, in terms of the roles at the start. */
  lemma WriteOne<R>(s: Roles<R>, built: Roles<R>, kind: Kind<R>, done: set<string>, name: string)
    requires name in built && name !in done
    ensures name in Needs(s, built, kind) <==> !(Ours(s, kind, name) && kind.equal(s[name], built[name]))
    ensures name in After(s, built, kind, done) <==> name in s
    ensures After(s, built, kind, done + {name}) ==
            After(s, built, kind, done)[name := if Ours(s, kind, name) then kind.merge(s[name], built[name])
                                        else built[name]]
  {
    AfterWrite(s, built, kind, done, name);
  }

  /** The kind of reconcileGlobalRoles. */
  function GlobalKind(): (r: Kind<GlobalRole>) {
    Kind((spec: RoleSpec) => GlobalRole(true, spec.displayName, spec.rules, ""),
         (role: GlobalRole) => role.labelled,
         (have: GlobalRole, want: GlobalRole) => have.displayName == want.displayName && have.rules == want.rules,
         (have: GlobalRole, want: GlobalRole) => have.(displayName := want.displayName, rules := want.rules))
  }

  /** All that reconcileRoleTemplates compares, save Builtin. */
  predicate SameButBuiltin(have: RoleTemplate, want: RoleTemplate) {
    && have.displayName == want.displayName && have.rules == want.rules && have.templateNames == want.templateNames
    && have.ext == want.ext && have.hidden == want.hidden && have.context == want.context &&
      have.administrative == want.administrative
  }

  /** The kind of reconcileRoleTemplates; the comparison asks for Builtin to differ. */
  function TemplateKind(): (r: Kind<RoleTemplate>) {
    Kind((spec: RoleSpec) => RoleTemplate(true, spec.displayName, spec.rules, spec.templateNames, spec.builtin,
                                          spec.ext, spec.hidden,
                                          spec.context, spec.administrative, ""),
         (role: RoleTemplate) => role.labelled,
         (have: RoleTemplate, want: RoleTemplate) => SameButBuiltin(have, want) && have.builtin != want.builtin,
         (have: RoleTemplate, want: RoleTemplate) => want.(labelled := have.labelled, rest := have.rest))
  }

  /** The built role of a name comes from the last builder of that name. */
  lemma {:induction false} BuiltIs<R>(specs: seq<RoleSpec>, kind: Kind<R>, name: string) returns (i: int)
    ensures -1 <= i < |specs| && (name in Built(specs, kind) <==> 0 <= i)
    ensures 0 <= i ==> specs[i].name == name && Built(specs, kind)[name] == kind.build(specs[i])
    ensures forall j :: 0 <= j < |specs| && i < j ==> specs[j].name != name
  {
    if specs == [] {
      return -1;
    }
    var k := |specs| - 1;
    if specs[k].name == name {
      return k;
    }
    i := BuiltIs(specs[..k], kind, name);
  }

  /** What a successful run leaves under one name. */
  lemma AfterAll<R>(s: Roles<R>, built: Roles<R>, kind: Kind<R>, name: string)
    requires NoClash(s, built, kind)
    ensures var r := After(s, built, kind, Needs(s, built, kind));
            if name in built then
              name in r && r[name] == (if name !in s then built[name] else if kind.equal(s[name], built[name])
                                       then s[name] else kind.merge(s[name], built[name]))
            else if Ours(s, kind, name) then name !in r
            else (name in r <==> name in s) && (name in s ==> r[name] == s[name])
  {
    assert name in Needs(s, built, kind) <==> name in s.Keys + built.Keys && NeedsWrite(s, built, kind, name);
  }

  lemma BuiltLabelled(specs: seq<RoleSpec>)
    ensures forall name :: name in Built(specs, GlobalKind()) ==> Built(specs, GlobalKind())[name].labelled
    ensures forall name :: name in Built(specs, TemplateKind()) ==> Built(specs, TemplateKind())[name].labelled
  {
    forall name ensures name in Built(specs, GlobalKind()) ==> Built(specs, GlobalKind())[name].labelled {
      var _ := BuiltIs(specs, GlobalKind(), name);
    }
    forall name ensures name in Built(specs, TemplateKind()) ==> Built(specs, TemplateKind())[name].labelled {
      var _ := BuiltIs(specs, TemplateKind(), name);
    }
  }

  /** The default global roles are the built ones, with the built display name and rules; those that were there keep
      their other fields, and roles that are not default roles are as they were. */
  ghost predicate GlobalOutcome(s: Roles<GlobalRole>, built: Roles<GlobalRole>, r: Roles<GlobalRole>, name: string) {
    if name in built then
      && name in r && r[name].labelled && r[name].displayName == built[name].displayName &&
        r[name].rules == built[name].rules
      && (name in s ==> r[name].rest == s[name].rest)
    else if name in s && s[name].labelled then name !in r
    else (name in r <==> name in s) && (name in s ==> r[name] == s[name])
  }

  /** After a successful run the global roles have converged, and the next run has nothing to write. */
  lemma GlobalRolesConverge(s: Roles<GlobalRole>, specs: seq<RoleSpec>)
    requires NoClash(s, Built(specs, GlobalKind()), GlobalKind())
    ensures var built := Built(specs, GlobalKind());
            var r := After(s, built, GlobalKind(), Needs(s, built, GlobalKind()));
            (forall name :: GlobalOutcome(s, built, r, name)) && Needs(r, built, GlobalKind()) == {}
  {
    var built := Built(specs, GlobalKind());
    var r := After(s, built, GlobalKind(), Needs(s, built, GlobalKind()));
    BuiltLabelled(specs);
    forall name ensures GlobalOutcome(s, built, r, name) && !NeedsWrite(r, built, GlobalKind(), name) {
      AfterAll(s, built, GlobalKind(), name);
    }
  }

  /** Every compared field but Builtin converges, and Builtin is left wrong exactly where it was the only thing
      wrong. */
  ghost predicate TemplateOutcome(s: Roles<RoleTemplate>, built: Roles<RoleTemplate>, r: Roles<RoleTemplate>,
                                  name: string)
  {
    if name in built then
      && name in r && r[name].labelled && SameButBuiltin(r[name], built[name])
      && (name in s ==> r[name].rest == s[name].rest)
      && (r[name].builtin != built[name].builtin <==>
          name in s && SameButBuiltin(s[name], built[name]) && s[name].builtin != built[name].builtin)
    else if name in s && s[name].labelled then name !in r
    else (name in r <==> name in s) && (name in s ==> r[name] == s[name])
  }

  /** The default templates are the built ones, save for Builtin. */
  ghost predicate TemplatesSettled(r: Roles<RoleTemplate>, built: Roles<RoleTemplate>) {
    && (forall name :: name in built ==> name in r && r[name].labelled && SameButBuiltin(r[name], built[name]))
    && (forall name :: name in r && r[name].labelled ==> name in built)
  }

  lemma OutcomeSettles(s: Roles<RoleTemplate>, built: Roles<RoleTemplate>, r: Roles<RoleTemplate>)
    requires forall name :: TemplateOutcome(s, built, r, name)
    ensures TemplatesSettled(r, built)
  {
    forall name | name in built ensures name in r && r[name].labelled && SameButBuiltin(r[name], built[name]) {
      assert TemplateOutcome(s, built, r, name);
    }
    forall name | name in r && r[name].labelled ensures name in built {
      assert TemplateOutcome(s, built, r, name);
    }
  }

  /** Once converged, a template is written again on every run exactly when it is right, and writing changes nothing. */
  lemma TemplatesRewritten(r: Roles<RoleTemplate>, built: Roles<RoleTemplate>, written: set<string>)
    requires TemplatesSettled(r, built)
    ensures forall name :: name in Needs(r, built, TemplateKind()) <==>
            name in built && r[name].builtin == built[name].builtin
    ensures written <= Needs(r, built, TemplateKind()) ==> After(r, built, TemplateKind(), written) == r
  {
    forall name
      ensures NeedsWrite(r, built, TemplateKind(), name) <==> name in built && r[name].builtin == built[name].builtin
    {
    }
    if written <= Needs(r, built, TemplateKind()) {
      var again := After(r, built, TemplateKind(), written);
      forall name ensures (name in again <==> name in r) && (name in r ==> again[name] == r[name]) {
        assert name in written ==> NeedsWrite(r, built, TemplateKind(), name);
      }
    }
  }

  /** After a successful run the role templates have converged save for Builtin. The next run writes exactly the
      templates that are already right, and changes none. */
  lemma TemplatesConverge(s: Roles<RoleTemplate>, specs: seq<RoleSpec>)
    requires NoClash(s, Built(specs, TemplateKind()), TemplateKind())
    ensures var built := Built(specs, TemplateKind());
            var r := After(s, built, TemplateKind(), Needs(s, built, TemplateKind()));
            && (forall name :: TemplateOutcome(s, built, r, name))
            && TemplatesSettled(r, built)
            && (forall name :: name in Needs(r, built, TemplateKind()) <==>
                name in built && r[name].builtin == built[name].builtin)
            && After(r, built, TemplateKind(), Needs(r, built, TemplateKind())) == r
  {
    var built := Built(specs, TemplateKind());
    var r := After(s, built, TemplateKind(), Needs(s, built, TemplateKind()));
    BuiltLabelled(specs);
    forall name ensures TemplateOutcome(s, built, r, name) {
      AfterAll(s, built, TemplateKind(), name);
    }
    OutcomeSettles(s, built, r);
    TemplatesRewritten(r, built, Needs(r, built, TemplateKind()));
  }

  /** A stored template that differs from the built one in Builtin only keeps its wrong Builtin. */
  lemma BuiltinStaysWrong(spec: RoleSpec, name: string, have: RoleTemplate)
    requires have == TemplateKind().build(spec).(builtin := !spec.builtin) && spec.name == name
    ensures var built := Built([spec], TemplateKind());
            After(map[name := have], built, TemplateKind(), Needs(map[name := have], built, TemplateKind())) ==
              map[name := have]
  {
    var built := Built([spec], TemplateKind());
    assert Built([], TemplateKind()) == map[] && [spec][..0] == [];
    assert built == map[name := TemplateKind().build(spec)];
    AfterAll(map[name := have], built, TemplateKind(), name);
  }

  class Client<R> {
    var roles: Roles<R>
    /** The names for which the current run made a request to change something. */
    ghost var requests: set<string>
    /** Whether a request of the current run failed although nothing stood in its way. */
    ghost var faulted: bool

    constructor (roles: Roles<R>)
      ensures this.roles == roles && requests == {} && !faulted
    {
      this.roles, requests, faulted := roles, {}, false;
    }

    method Delete(name: string) returns (ok: bool)
      modifies this
      ensures requests == old(requests) + {name}
      ensures !ok ==> faulted || name !in old(roles)
      ensures roles == if ok then old(roles) - {name} else old(roles)
    {
      requests := requests + {name};
      var fault := *;
      faulted := faulted || fault;
      if fault || name !in roles {
        return false;
      }
      roles := roles - {name};
      return true;
    }

    method Update(name: string, role: R) returns (ok: bool)
      modifies this
      ensures requests == old(requests) + {name}
      ensures ok ==> name in old(roles)
      ensures !ok ==> faulted || name !in old(roles)
      ensures roles == if ok then old(roles)[name := role] else old(roles)
    {
      requests := requests + {name};
      var fault := *;
      faulted := faulted || fault;
      if fault || name !in roles {
        return false;
      }
      roles := roles[name := role];
      return true;
    }

    method Create(name: string, role: R) returns (ok: bool)
      modifies this
      ensures requests == old(requests) + {name}
      ensures ok ==> name !in old(roles)
      ensures !ok ==> faulted || name in old(roles)
      ensures roles == if ok then old(roles)[name := role] else old(roles)
    {
      requests := requests + {name};
      var fault := *;
      faulted := faulted || fault;
      if fault || name in roles {
        return false;
      }
      roles := roles[name := role];
      return true;
    }

    /** The loop over the roles that the label selects, in any order: every default role by its name, and no other
        role. */
    method Gather(kind: Kind<R>) returns (existing: Roles<R>)
      ensures existing.Keys <= roles.Keys
      ensures forall name :: name in roles ==> (name in existing <==> kind.labelled(roles[name]))
      ensures forall name :: name in existing ==> existing[name] == roles[name]
    {
      existing := map[];
      var listed := set name | name in roles && kind.labelled(roles[name]);
      var rest := listed;
      while rest != {}
        invariant rest <= listed && existing.Keys == listed - rest
        invariant forall name :: name in existing ==> existing[name] == roles[name]
        decreases rest
      {
        var name :| name in rest;
        existing := existing[name := roles[name]];
        rest := rest - {name};
      }
    }

    /** Default roles that are no longer built are removed, in any order. */
    method Prune(existing: Roles<R>, built: Roles<R>, kind: Kind<R>)
        returns (ok: bool, left: Roles<R>, ghost done: set<string>)
      requires requests == {}
      modifies this
      ensures done <= requests <= existing.Keys - built.Keys && (ok ==> done == existing.Keys - built.Keys)
      ensures !ok ==> faulted || !(existing.Keys <= old(roles).Keys)
      ensures Pruned(old(roles), existing, built, kind, roles, left, done)
    {
      ghost var unbuilt := existing.Keys - built.Keys;
      var rest := existing.Keys;
      ok, left, done := true, existing, {};
      PruneNone(roles, existing, built, kind);
      while rest != {}
        invariant rest <= existing.Keys
        invariant requests == done == unbuilt - rest
        invariant Pruned(old(roles), existing, built, kind, roles, left, done)
        decreases rest
      {
        var name :| name in rest;
        CoverOne(unbuilt, rest, name);
        if name !in built {
          assert name in old(roles) ==> name in roles;
          PruneOne(old(roles), existing, built, kind, roles, left, done, name);
          ok := Delete(name);
          if !ok {
            return;
          }
          left := left - {name};
          done := done + {name};
        }
        rest := rest - {name};
      }
    }

    /** Every built role is created, or compared and written where it differs, in any order. */
    method Write(left: Roles<R>, built: Roles<R>, kind: Kind<R>, ghost start: Roles<R>, ghost before: set<string>)
        returns (ok: bool, ghost done: set<string>)
      requires roles == After(start, built, kind, before) && before !! built.Keys && requests == before
      requires left == Existing(start, kind) - before && Existing(start, kind).Keys - built.Keys == before
      modifies this
      ensures before <= done <= requests <= Needs(start, built, kind)
      ensures roles == After(start, built, kind, done)
      ensures ok ==> done == Needs(start, built, kind) && NoClash(start, built, kind)
      ensures !ok ==> faulted || !NoClash(start, built, kind)
    {
      ghost var needs := Needs(start, built, kind);
      var rest := built.Keys;
      ok, done := true, before;
      assert needs - rest == before;
      while rest != {}
        invariant rest <= built.Keys
        invariant requests == done == needs - rest
        invariant roles == After(start, built, kind, done)
        invariant forall name :: name in built && name !in rest && name in start ==> kind.labelled(start[name])
        decreases rest
      {
        var name :| name in rest;
        CoverOne(needs, rest, name);
        WriteOne(start, built, kind, done, name);
        if name in left {
          if !kind.equal(left[name], built[name]) {
            ok := Update(name, kind.merge(left[name], built[name]));
          }
        } else {
          ok := Create(name, built[name]);
        }
        if !ok {
          return;
        }
        done := requests;
        rest := rest - {name};
      }
      assert needs - rest == needs;
    }

    /** Reconciling, called on the k-th builder of a chain. Exactly the names that need it are written when it succeeds.
        When it fails some of them are, and then a request failed, or a role that is no default role has the name of a
        built one. */
    method Reconcile(builder: RoleBuilder, kind: Kind<R>, ghost chain: seq<RoleBuilder>, ghost k: nat)
        returns (ok: bool, ghost built: Roles<R>, ghost done: set<string>)
      requires Linked(chain) && k < |chain| && chain[k] == builder
      modifies this
      ensures built == Built(Specs(chain), kind)
      ensures done <= requests <= Needs(old(roles), built, kind)
      ensures roles == After(old(roles), built, kind, done)
      ensures ok ==> done == Needs(old(roles), built, kind) && NoClash(old(roles), built, kind)
      ensures !ok ==> faulted || !NoClash(old(roles), built, kind)
    {
      requests, faulted, done := {}, false, {};
      var all := Build(builder, kind, chain, k);
      built := all;
      PruneNone(roles, roles, built, kind);
      ok := *;
      if !ok {
        faulted := true;
        return;
      }
      ghost var start := roles;
      var existing := Gather(kind);
      GatheredIs(existing, start, kind);
      var left;
      ok, left, done := Prune(existing, all, kind);
      UnbuiltNeeds(start, built, kind);
      if !ok {
        return;
      }
      ok, done := Write(left, all, kind, start, done);
    }
  }

  /** `reconcileGlobalRoles`. On success the global roles have converged; where they had before, no request is made. */
  method ReconcileGlobalRoles(client: Client<GlobalRole>, builder: RoleBuilder, ghost chain: seq<RoleBuilder>,
                              ghost k: nat)
      returns (ok: bool, ghost built: Roles<GlobalRole>)
    requires Linked(chain) && k < |chain| && chain[k] == builder
    modifies client
    ensures built == Built(Specs(chain), GlobalKind())
    ensures ok ==> forall name :: GlobalOutcome(old(client.roles), built, client.roles, name)
    ensures ok ==> Needs(client.roles, built, GlobalKind()) == {}
    ensures Needs(old(client.roles), built, GlobalKind()) == {} ==>
              client.requests == {} && client.roles == old(client.roles)
    ensures !ok ==> client.faulted || !NoClash(old(client.roles), built, GlobalKind())
  {
    ghost var done;
    ok, built, done := client.Reconcile(builder, GlobalKind(), chain, k);
    if ok {
      GlobalRolesConverge(old(client.roles), Specs(chain));
    }
    if Needs(old(client.roles), built, GlobalKind()) == {} {
      PruneNone(old(client.roles), old(client.roles), built, GlobalKind());
    }
  }

  /** `reconcileRoleTemplates`. On success the role templates have converged save for Builtin; where they had before,
      exactly those that are right are written, and none changes. */
  method ReconcileRoleTemplates(client: Client<RoleTemplate>, builder: RoleBuilder, ghost chain: seq<RoleBuilder>,
                                ghost k: nat)
      returns (ok: bool, ghost built: Roles<RoleTemplate>)
    requires Linked(chain) && k < |chain| && chain[k] == builder
    modifies client
    ensures built == Built(Specs(chain), TemplateKind())
    ensures ok ==> forall name :: TemplateOutcome(old(client.roles), built, client.roles, name)
    ensures ok ==> TemplatesSettled(client.roles, built)
    ensures TemplatesSettled(old(client.roles), built) ==> client.roles == old(client.roles)
    ensures ok && TemplatesSettled(old(client.roles), built) ==>
              forall name :: name in client.requests <==>
                name in built && client.roles[name].builtin == built[name].builtin
    ensures !ok ==> client.faulted || !NoClash(old(client.roles), built, TemplateKind())
  {
    ghost var done;
    ok, built, done := client.Reconcile(builder, TemplateKind(), chain, k);
    if ok {
      TemplatesConverge(old(client.roles), Specs(chain));
    }
    if TemplatesSettled(old(client.roles), built) {
      TemplatesRewritten(old(client.roles), built, done);
    }
  }
}
