/** Whether a caller may grant roles in target projects: EnsureRoleInTargets of
    pkg/api/customization/globalnamespaceaccess/access_common.go. */
module RoleTargets {
  import opened Basics
  import opened Sets
  import opened Text

  datatype RoleTemplate = RoleTemplate(name: string, context: string, builtin: bool, projectCreatorDefault: bool,
                                       clusterCreatorDefault: bool)

  /** A project or cluster role template binding. */
  datatype Binding = Binding(userName: string, roleTemplateName: string)

  /** The objects behind the listers. Project bindings live in the project's namespace, cluster bindings in the
      cluster's. */
  datatype World = World(
    roleTemplates: map<string, RoleTemplate>,
    projects: set<(string, string)>,
    clusters: set<string>,
    projectBindings: map<string, seq<Binding>>,
    clusterBindings: map<string, seq<Binding>>)

  datatype Decision = Accepted | Denied | LookupError

  function BindingsIn(m: map<string, seq<Binding>>, namespace: string): seq<Binding> {
    if namespace in m then m[namespace] else []
  }

  /** `strings.SplitN(target, ":", 2)`, as cluster and project; a target without a colon is malformed. */
  function ParseTarget(target: string): Option<(string, string)> {
    match Find(target, ":")
    case None => None
    case Some(i) => Some((target[..i], target[i + 1..]))
  }

  // ---------- The rule ----------

  /** The caller is bound to the role. */
  predicate Holds(bs: seq<Binding>, caller: string, role: string) {
    Binding(caller, role) in bs
  }

  /** Some role the caller is bound to has the property. */
  predicate HoldsSome(w: World, bs: seq<Binding>, caller: string, property: RoleTemplate -> bool) {
    exists i :: 0 <= i < |bs| && bs[i].userName == caller && bs[i].roleTemplateName in w.roleTemplates &&
      property(w.roleTemplates[bs[i].roleTemplateName])
  }

  const IsProjectOwner: RoleTemplate -> bool := (rt: RoleTemplate) => rt.projectCreatorDefault && rt.builtin
  const IsProjectMember: RoleTemplate -> bool := (rt: RoleTemplate) => rt.name == "project-member"
  const IsClusterOwner: RoleTemplate -> bool := (rt: RoleTemplate) => rt.clusterCreatorDefault && rt.builtin

  /** How many of the caller's bindings are to requested roles. */
  function Count(bs: seq<Binding>, caller: string, roles: set<string>): nat {
    if bs == [] then 0
    else
      var last := bs[|bs| - 1];
      Count(bs[..|bs| - 1], caller, roles) +
        (if last.userName == caller && last.roleTemplateName in roles then 1 else 0)
  }

  /** The requested roles the caller is bound to. */
  function HeldOf(bs: seq<Binding>, caller: string, roles: set<string>): set<string> {
    set r | r in roles && Holds(bs, caller, r)
  }

  function MissingOf(bs: seq<Binding>, caller: string, roles: set<string>): set<string> {
    roles - HeldOf(bs, caller, roles)
  }

  predicate AllBuiltin(w: World, roles: set<string>) {
    forall r :: r in roles && r in w.roleTemplates ==> w.roleTemplates[r].builtin
  }

  predicate IncludesOwner(w: World, roles: set<string>) {
    exists r :: r in roles && r in w.roleTemplates && IsProjectOwner(w.roleTemplates[r])
  }

  /** Standing that lets the caller grant built-in roles without holding them. */
  predicate HasStanding(w: World, cluster: string, project: string, caller: string, missing: set<string>) {
    var bs := BindingsIn(w.projectBindings, project);
    || HoldsSome(w, bs, caller, IsProjectOwner)
    || (HoldsSome(w, bs, caller, IsProjectMember) && !IncludesOwner(w, missing))
    || HoldsSome(w, BindingsIn(w.clusterBindings, cluster), caller, IsClusterOwner)
  }

  /** The intended rule for one project: the caller holds every requested role, or the missing ones are built in and the
      caller has standing. */
  predicate MayGrant(w: World, cluster: string, project: string, caller: string, roles: set<string>) {
    var missing := MissingOf(BindingsIn(w.projectBindings, project), caller, roles);
    missing == {} || (AllBuiltin(w, missing) && HasStanding(w, cluster, project, caller, missing))
  }

  /** The rule as the code has it: it compares the number of bindings, not the set of roles. */
  predicate Passes(w: World, cluster: string, project: string, caller: string, roles: set<string>) {
    var bs := BindingsIn(w.projectBindings, project);
    var missing := MissingOf(bs, caller, roles);
    Count(bs, caller, roles) == |roles| || (AllBuiltin(w, missing) && HasStanding(w, cluster, project, caller, missing))
  }

  /** No two of the caller's bindings are to the same requested role. */
  ghost predicate BoundOnce(bs: seq<Binding>, caller: string, roles: set<string>) {
    forall i, j ::
        0 <= i < j < |bs| && bs[i].userName == caller && bs[j].userName == caller && bs[i].roleTemplateName in roles ==>
      bs[i].roleTemplateName != bs[j].roleTemplateName
  }

  lemma BoundOnceSnoc(bs: seq<Binding>, caller: string, roles: set<string>)
    requires bs != []
    ensures var k := |bs| - 1;
            BoundOnce(bs, caller, roles) <==>
            BoundOnce(bs[..k], caller, roles) &&
            (bs[k].userName == caller && bs[k].roleTemplateName in roles ==>
             bs[k].roleTemplateName !in HeldOf(bs[..k], caller, roles))
  {
    var k := |bs| - 1;
    var rest, last := bs[..k], bs[k];
    assert forall i :: 0 <= i < k ==> rest[i] == bs[i];
    if BoundOnce(bs, caller, roles) && last.userName == caller && last.roleTemplateName in roles {
      forall i | 0 <= i < k ensures rest[i] != Binding(caller, last.roleTemplateName) {
        assert bs[i].userName == caller && bs[i].roleTemplateName in roles ==>
                 bs[i].roleTemplateName != bs[k].roleTemplateName;
      }
    }
    if BoundOnce(rest, caller, roles) &&
      (last.userName == caller && last.roleTemplateName in roles ==>
       last.roleTemplateName !in HeldOf(rest, caller, roles)) {
      forall i, j | 0 <= i < j < |bs| && bs[i].userName == caller && bs[j].userName == caller &&
        bs[i].roleTemplateName in roles
        ensures bs[i].roleTemplateName != bs[j].roleTemplateName
      {
        assert rest[i] == Binding(caller, bs[i].roleTemplateName);
      }
    }
  }

  lemma HeldSnoc(bs: seq<Binding>, caller: string, roles: set<string>, i: nat)
    requires i < |bs|
    ensures HeldOf(bs[..i + 1], caller, roles) ==
            HeldOf(bs[..i], caller, roles) +
              (if bs[i].userName == caller && bs[i].roleTemplateName in roles then {bs[i].roleTemplateName} else {})
  {
    assert bs[..i + 1] == bs[..i] + [bs[i]];
    assert bs[i].userName == caller ==> bs[i] == Binding(caller, bs[i].roleTemplateName);
  }

  lemma {:induction false} CountHeld(bs: seq<Binding>, caller: string, roles: set<string>)
    ensures Count(bs, caller, roles) >= |HeldOf(bs, caller, roles)|
    ensures BoundOnce(bs, caller, roles) <==> Count(bs, caller, roles) == |HeldOf(bs, caller, roles)|
  {
    if bs == [] {
      assert HeldOf(bs, caller, roles) == {};
    } else {
      var k := |bs| - 1;
      CountHeld(bs[..k], caller, roles);
      assert bs[..k + 1] == bs;
      HeldSnoc(bs, caller, roles, k);
      BoundOnceSnoc(bs, caller, roles);
    }
  }

  /** The caller holds all roles exactly when it holds as many. */
  lemma HoldsAllExactly(bs: seq<Binding>, caller: string, roles: set<string>)
    ensures MissingOf(bs, caller, roles) == {} <==> |HeldOf(bs, caller, roles)| == |roles|
  {
    var held := HeldOf(bs, caller, roles);
    if |held| == |roles| {
      SubsetSameSize(held, roles);
    }
    if MissingOf(bs, caller, roles) == {} {
      forall r | r in roles ensures r in held {
        assert r !in MissingOf(bs, caller, roles);
      }
      assert held == roles;
    }
  }

  /** With at most one binding per role the code follows the rule. */
  lemma PassesIsRule(w: World, cluster: string, project: string, caller: string, roles: set<string>)
    requires BoundOnce(BindingsIn(w.projectBindings, project), caller, roles)
    ensures Passes(w, cluster, project, caller, roles) <==> MayGrant(w, cluster, project, caller, roles)
  {
    var bs := BindingsIn(w.projectBindings, project);
    CountHeld(bs, caller, roles);
    HoldsAllExactly(bs, caller, roles);
  }

  /** In general the code departs from the rule exactly for a caller without standing for the missing roles who either
      holds every role but one of them twice, and is turned down, or lacks a role but has as many bindings as there are
      roles, and is let through. */
  lemma DepartsFromRule(w: World, cluster: string, project: string, caller: string, roles: set<string>)
    ensures var bs := BindingsIn(w.projectBindings, project);
            var missing := MissingOf(bs, caller, roles);
            (Passes(w, cluster, project, caller, roles) != MayGrant(w, cluster, project, caller, roles)) <==>
            !(AllBuiltin(w, missing) && HasStanding(w, cluster, project, caller, missing)) &&
            (if missing == {} then !BoundOnce(bs, caller, roles) else Count(bs, caller, roles) == |roles|)
  {
    var bs := BindingsIn(w.projectBindings, project);
    CountHeld(bs, caller, roles);
    HoldsAllExactly(bs, caller, roles);
  }

  /** For instance, a caller bound twice to one custom role may grant another one. */
  lemma TwoBindingsPassForTwoRoles()
    ensures var custom := RoleTemplate("a", "project", false, false, false);
            var w := World(map["a" := custom, "b" := custom.(name := "b")], {("c", "p")}, {"c"},
                           map["p" := [Binding("u", "a"), Binding("u", "a")]], map[]);
            Passes(w, "c", "p", "u", {"a", "b"}) && !MayGrant(w, "c", "p", "u", {"a", "b"})
  {
    var custom := RoleTemplate("a", "project", false, false, false);
    var bs := [Binding("u", "a"), Binding("u", "a")];
    var w := World(map["a" := custom, "b" := custom.(name := "b")], {("c", "p")}, {"c"}, map["p" := bs], map[]);
    var roles := {"a", "b"};
    assert bs[..1] == [Binding("u", "a")] && bs[..1][..0] == [];
    assert Count(bs[..1], "u", roles) == 1 && Count(bs, "u", roles) == 2;
    assert HeldOf(bs, "u", roles) == {"a"} && MissingOf(bs, "u", roles) == {"b"};
    assert !AllBuiltin(w, {"b"}) by {
      assert "b" in w.roleTemplates && !w.roleTemplates["b"].builtin;
    }
  }

  // ---------- The decision ----------

  /** Every role the caller is bound to can be looked up. */
  ghost predicate Resolvable(w: World, bs: seq<Binding>, caller: string) {
    forall i :: 0 <= i < |bs| && bs[i].userName == caller ==> bs[i].roleTemplateName in w.roleTemplates
  }

  function RequestedIn(w: World, names: seq<string>, context: string): set<string> {
    set r | r in names && r in w.roleTemplates && w.roleTemplates[r].context == context
  }

  /** The loop over requested roles: project and cluster roles are told apart by context, others are ignored. */
  method ResolveRoles(w: World, names: seq<string>)
      returns (ok: bool, projectRoles: set<string>, clusterRoles: set<string>)
    ensures ok <==> forall i :: 0 <= i < |names| ==> names[i] in w.roleTemplates
    ensures ok ==> projectRoles == RequestedIn(w, names, "project") && clusterRoles == RequestedIn(w, names, "cluster")
  {
    ok, projectRoles, clusterRoles := true, {}, {};
    for i := 0 to |names|
      invariant forall k :: 0 <= k < i ==> names[k] in w.roleTemplates
      invariant projectRoles == RequestedIn(w, names[..i], "project")
      invariant clusterRoles == RequestedIn(w, names[..i], "cluster")
    {
      assert names[..i + 1] == names[..i] + [names[i]];
      if names[i] !in w.roleTemplates {
        ok := false;
        return;
      }
      match w.roleTemplates[names[i]].context {
        case "project" => projectRoles := projectRoles + {names[i]};
        case "cluster" => clusterRoles := clusterRoles + {names[i]};
        case _ =>
      }
    }
    assert names[..|names|] == names;
  }

  /** What a scan of project bindings finds out. */
  datatype Scan = Scan(count: nat, found: set<string>, owner: bool, member: bool)

  ghost function ScanOf(w: World, bs: seq<Binding>, caller: string, roles: set<string>): Scan {
    Scan(Count(bs, caller, roles), HeldOf(bs, caller, roles), HoldsSome(w, bs, caller, IsProjectOwner),
         HoldsSome(w, bs, caller, IsProjectMember))
  }

  lemma HoldsSomeSnoc(w: World, bs: seq<Binding>, caller: string, property: RoleTemplate -> bool, i: nat)
    requires i < |bs|
    ensures HoldsSome(w, bs[..i + 1], caller, property) <==>
            HoldsSome(w, bs[..i], caller, property) ||
            (bs[i].userName == caller && bs[i].roleTemplateName in w.roleTemplates &&
             property(w.roleTemplates[bs[i].roleTemplateName]))
  {
    var before, after := bs[..i], bs[..i + 1];
    assert forall k :: 0 <= k < i ==> before[k] == after[k];
    assert after[i] == bs[i];
  }

  /** The loop over a project's bindings. A role is no longer looked up once the caller is known to be owner and
      member. */
  method ScanProject(w: World, bs: seq<Binding>, caller: string, roles: set<string>) returns (ok: bool, s: Scan)
    ensures Resolvable(w, bs, caller) ==> ok && s == ScanOf(w, bs, caller, roles)
  {
    ok, s := true, Scan(0, {}, false, false);
    for i := 0 to |bs|
      invariant Resolvable(w, bs, caller) ==> s == ScanOf(w, bs[..i], caller, roles)
    {
      assert bs[..i + 1][..i] == bs[..i];
      var b := bs[i];
      ghost var before := s;
      if b.userName == caller {
        if b.roleTemplateName in roles {
          s := s.(found := s.found + {b.roleTemplateName}, count := s.count + 1);
        }
        if !(s.owner && s.member) {
          if b.roleTemplateName !in w.roleTemplates {
            ok := false;
            return;
          }
          var rt := w.roleTemplates[b.roleTemplateName];
          s := s.(owner := s.owner || (rt.projectCreatorDefault && rt.builtin), member := s.member ||
                  rt.name == "project-member");
        }
      }
      HeldSnoc(bs, caller, roles, i);
      HoldsSomeSnoc(w, bs, caller, IsProjectOwner, i);
      HoldsSomeSnoc(w, bs, caller, IsProjectMember, i);
    }
    assert bs[..|bs|] == bs;
  }

  /** The loop that looks for a cluster owner binding, which it leaves at the first one. */
  method ScanClusterOwner(w: World, bs: seq<Binding>, caller: string) returns (ok: bool, owner: bool)
    ensures Resolvable(w, bs, caller) ==> ok && (owner <==> HoldsSome(w, bs, caller, IsClusterOwner))
  {
    ok, owner := true, false;
    for i := 0 to |bs|
      invariant Resolvable(w, bs, caller) ==> !HoldsSome(w, bs[..i], caller, IsClusterOwner)
    {
      HoldsSomeSnoc(w, bs, caller, IsClusterOwner, i);
      if bs[i].userName == caller {
        if bs[i].roleTemplateName !in w.roleTemplates {
          ok := false;
          return;
        }
        var rt := w.roleTemplates[bs[i].roleTemplateName];
        if rt.clusterCreatorDefault && rt.builtin {
          assert IsClusterOwner(w.roleTemplates[bs[i].roleTemplateName]);
          owner := true;
          return;
        }
      }
    }
    assert bs[..|bs|] == bs;
  }

  /** The target names a project that exists. */
  predicate Exists(w: World, target: string) {
    ParseTarget(target).Some? && ParseTarget(target).value in w.projects
  }

  /** Nothing the decision about this target looks up is missing. */
  ghost predicate Lookable(w: World, target: string, caller: string) {
    ParseTarget(target).Some? ==>
      var (cluster, project) := ParseTarget(target).value;
      && cluster in w.clusters
      && Resolvable(w, BindingsIn(w.projectBindings, project), caller)
      && Resolvable(w, BindingsIn(w.clusterBindings, cluster), caller)
  }

  predicate TargetPasses(w: World, target: string, caller: string, roles: set<string>) {
    ParseTarget(target).Some? &&
    var (cluster, project) := ParseTarget(target).value;
    Passes(w, cluster, project, caller, roles)
  }

  function Verdict(w: World, target: string, caller: string, roles: set<string>): Decision {
    if !Exists(w, target) then LookupError else if TargetPasses(w, target, caller, roles) then Accepted else Denied
  }

  ghost predicate AllLookable(w: World, targets: seq<string>, caller: string) {
    forall i :: 0 <= i < |targets| ==> Lookable(w, targets[i], caller)
  }

  /** One target project. */
  method CheckProject(w: World, target: string, caller: string, roles: set<string>) returns (r: Decision)
    ensures Lookable(w, target, caller) ==> r == Verdict(w, target, caller, roles)
    ensures !Exists(w, target) ==> r.LookupError?
  {
    if !Exists(w, target) {
      return LookupError;
    }
    var (cluster, project) := ParseTarget(target).value;
    var bs := BindingsIn(w.projectBindings, project);
    var ok, s := ScanProject(w, bs, caller, roles);
    if !ok {
      return LookupError;
    }
    if s.count == |roles| {
      return Accepted;
    }
    var missing := roles - s.found;
    var customRolesFound := exists r :: r in missing && r in w.roleTemplates && !w.roleTemplates[r].builtin;
    var inputRolesContainProjectOwnerRole :=
      exists r :: r in missing && r in w.roleTemplates && w.roleTemplates[r].projectCreatorDefault &&
        w.roleTemplates[r].builtin;
    if s.owner && !customRolesFound {
      return Accepted;
    }
    if s.member && !customRolesFound && !inputRolesContainProjectOwnerRole {
      return Accepted;
    }
    var found, owner := ScanClusterOwner(w, BindingsIn(w.clusterBindings, cluster), caller);
    if !found {
      return LookupError;
    }
    if owner && !customRolesFound {
      return Accepted;
    }
    return if cluster in w.clusters then Denied else LookupError;
  }

  /** The rule for cluster roles as the code has it: enough bindings, or cluster ownership; whether a missing role is
      custom is looked up among the project roles, where no cluster role is. */
  predicate ClusterPasses(w: World, cluster: string, caller: string, roles: set<string>) {
    var bs := BindingsIn(w.clusterBindings, cluster);
    Count(bs, caller, roles) == |roles| || HoldsSome(w, bs, caller, IsClusterOwner)
  }

  /** The intended rule for cluster roles: the caller holds every requested role, or the missing ones are built in and
      the caller owns the cluster. */
  predicate MayGrantInCluster(w: World, cluster: string, caller: string, roles: set<string>) {
    var bs := BindingsIn(w.clusterBindings, cluster);
    var missing := MissingOf(bs, caller, roles);
    missing == {} || (AllBuiltin(w, missing) && HoldsSome(w, bs, caller, IsClusterOwner))
  }

  /** The code departs from that rule exactly in these cases. A cluster owner is let through although a missing role is
      custom; another caller is turned down who holds every role but one of them twice, or is let through who lacks a
      role but has as many bindings as there are roles. */
  lemma DepartsFromClusterRule(w: World, cluster: string, caller: string, roles: set<string>)
    ensures var bs := BindingsIn(w.clusterBindings, cluster);
            var missing := MissingOf(bs, caller, roles);
            (ClusterPasses(w, cluster, caller, roles) != MayGrantInCluster(w, cluster, caller, roles)) <==>
            if HoldsSome(w, bs, caller, IsClusterOwner) then !AllBuiltin(w, missing)
            else if missing == {} then !BoundOnce(bs, caller, roles)
            else Count(bs, caller, roles) == |roles|
  {
    var bs := BindingsIn(w.clusterBindings, cluster);
    CountHeld(bs, caller, roles);
    HoldsAllExactly(bs, caller, roles);
  }

  /** For instance, the owner of a cluster may grant a custom cluster role without having it. */
  lemma OwnerGrantsCustomRole()
    ensures var owner := RoleTemplate("cluster-owner", "cluster", true, false, true);
            var custom := RoleTemplate("x", "cluster", false, false, false);
            var w := World(map["cluster-owner" := owner, "x" := custom], {("c", "p")}, {"c"}, map[],
                           map["c" := [Binding("u", "cluster-owner")]]);
            ClusterPasses(w, "c", "u", {"x"}) && !MayGrantInCluster(w, "c", "u", {"x"})
  {
    var owner := RoleTemplate("cluster-owner", "cluster", true, false, true);
    var custom := RoleTemplate("x", "cluster", false, false, false);
    var bs := [Binding("u", "cluster-owner")];
    var w := World(map["cluster-owner" := owner, "x" := custom], {("c", "p")}, {"c"}, map[], map["c" := bs]);
    assert bs[0].userName == "u" && IsClusterOwner(w.roleTemplates[bs[0].roleTemplateName]);
    assert MissingOf(bs, "u", {"x"}) == {"x"};
    assert !AllBuiltin(w, {"x"}) by {
      assert "x" in w.roleTemplates && !w.roleTemplates["x"].builtin;
    }
  }

  method ScanCluster(w: World, bs: seq<Binding>, caller: string, roles: set<string>)
      returns (ok: bool, count: nat, found: set<string>, owner: bool)
    ensures Resolvable(w, bs, caller) ==>
              ok && count == Count(bs, caller, roles) && found == HeldOf(bs, caller, roles) &&
              (owner <==> HoldsSome(w, bs, caller, IsClusterOwner))
  {
    ok, count, found, owner := true, 0, {}, false;
    for i := 0 to |bs|
      invariant Resolvable(w, bs, caller) ==>
                  count == Count(bs[..i], caller, roles) && found == HeldOf(bs[..i], caller, roles) &&
                  (owner <==> HoldsSome(w, bs[..i], caller, IsClusterOwner))
    {
      assert bs[..i + 1][..i] == bs[..i];
      HeldSnoc(bs, caller, roles, i);
      HoldsSomeSnoc(w, bs, caller, IsClusterOwner, i);
      if bs[i].userName == caller {
        if bs[i].roleTemplateName in roles {
          found, count := found + {bs[i].roleTemplateName}, count + 1;
        }
        if !owner {
          if bs[i].roleTemplateName !in w.roleTemplates {
            ok := false;
            return;
          }
          var rt := w.roleTemplates[bs[i].roleTemplateName];
          owner := rt.clusterCreatorDefault && rt.builtin;
        }
      }
    }
    assert bs[..|bs|] == bs;
  }

  method CheckCluster(w: World, cluster: string, caller: string, roles: set<string>, projectRoles: set<string>)
      returns (r: Decision)
    ensures roles !! projectRoles && cluster in w.clusters &&
            Resolvable(w, BindingsIn(w.clusterBindings, cluster), caller) ==>
              r == if ClusterPasses(w, cluster, caller, roles) then Accepted else Denied
  {
    var bs := BindingsIn(w.clusterBindings, cluster);
    var ok, count, found, owner := ScanCluster(w, bs, caller, roles);
    if !ok {
      return LookupError;
    }
    if count == |roles| {
      return Accepted;
    }
    var customRolesFound := exists r ::
        r in roles - found && r in projectRoles && r in w.roleTemplates && !w.roleTemplates[r].builtin;
    if owner && !customRolesFound {
      return Accepted;
    }
    return if cluster in w.clusters then Denied else LookupError;
  }

  /** The clusters of the targets. */
  function ClustersOf(targets: seq<string>): set<string> {
    set t | t in targets && ParseTarget(t).Some? :: ParseTarget(t).value.0
  }

  /** What a caller who is no administrator is told. */
  function DecisionFor(w: World, targets: seq<string>, names: seq<string>, caller: string): Decision {
    var projectRoles, clusterRoles := RequestedIn(w, names, "project"), RequestedIn(w, names, "cluster");
    if (exists i :: 0 <= i < |names| && names[i] !in w.roleTemplates) ||
      (exists i :: 0 <= i < |targets| && !Exists(w, targets[i])) then LookupError
    else if (forall i :: 0 <= i < |targets| ==> TargetPasses(w, targets[i], caller, projectRoles)) &&
            (clusterRoles == {} || forall c :: c in ClustersOf(targets) ==> ClusterPasses(w, c, caller, clusterRoles))
              then Accepted
    else Denied
  }

  /** The verdicts about the targets put together: an error wins over a denial, and a denial over the rest. */
  ghost function Overall(verdicts: seq<Decision>): Decision {
    if LookupError in verdicts then LookupError else if Denied in verdicts then Denied else Accepted
  }

  ghost function Verdicts(w: World, targets: seq<string>, caller: string, roles: set<string>): seq<Decision> {
    seq(|targets|, i requires 0 <= i < |targets| => Verdict(w, targets[i], caller, roles))
  }

  /** The loop over target projects. A denial is remembered and the loop goes on; a failed lookup ends it. */
  method CheckProjects(w: World, targets: seq<string>, caller: string, roles: set<string>) returns (r: Decision)
    ensures AllLookable(w, targets, caller) ==> r == Overall(Verdicts(w, targets, caller, roles))
  {
    r := Accepted;
    ghost var verdicts: seq<Decision> := [];
    for i := 0 to |targets|
      invariant |verdicts| == i && r == Overall(verdicts) && !r.LookupError?
      invariant AllLookable(w, targets, caller) ==> verdicts == Verdicts(w, targets, caller, roles)[..i]
    {
      var one := CheckProject(w, targets[i], caller, roles);
      ghost var all := Verdicts(w, targets, caller, roles);
      assert all[i] == Verdict(w, targets[i], caller, roles) && all[..i + 1] == all[..i] + [all[i]];
      if one.LookupError? {
        assert AllLookable(w, targets, caller) ==> all[i] == LookupError;
        return LookupError;
      } else if one.Denied? {
        r := Denied;
      }
      verdicts := verdicts + [one];
    }
  }

  lemma OverallIs(w: World, targets: seq<string>, caller: string, roles: set<string>)
    ensures Overall(Verdicts(w, targets, caller, roles)) ==
            if exists i :: 0 <= i < |targets| && !Exists(w, targets[i]) then LookupError
            else if forall i :: 0 <= i < |targets| ==>
                TargetPasses(w, targets[i], caller, roles) then Accepted else Denied
  {
    var all := Verdicts(w, targets, caller, roles);
    assert forall i :: 0 <= i < |targets| ==> all[i] == Verdict(w, targets[i], caller, roles);
    if i :| 0 <= i < |targets| && !Exists(w, targets[i]) {
      assert all[i] == LookupError;
    } else if i :| 0 <= i < |targets| && !TargetPasses(w, targets[i], caller, roles) {
      assert all[i] == Denied;
    }
  }

  method CheckClusters(w: World, clusters: set<string>, caller: string, roles: set<string>, projectRoles: set<string>)
      returns (r: Decision)
    ensures roles !! projectRoles && (forall c :: c in clusters ==>
                                      c in w.clusters && Resolvable(w, BindingsIn(w.clusterBindings, c), caller)) ==>
              r == if forall c :: c in clusters ==> ClusterPasses(w, c, caller, roles) then Accepted else Denied
  {
    r := Accepted;
    var rest := clusters;
    while rest != {}
      invariant rest <= clusters && !r.LookupError?
      invariant roles !! projectRoles &&
                (forall c :: c in clusters ==>
                 c in w.clusters && Resolvable(w, BindingsIn(w.clusterBindings, c), caller)) ==>
                  (r.Accepted? <==> forall c :: c in clusters - rest ==> ClusterPasses(w, c, caller, roles))
      decreases rest
    {
      var c :| c in rest;
      var one := CheckCluster(w, c, caller, roles, projectRoles);
      if one.LookupError? {
        return LookupError;
      } else if one.Denied? {
        r := Denied;
      }
      rest := rest - {c};
    }
  }

  ghost function ClustersVerdict(w: World, targets: seq<string>, caller: string, roles: set<string>): Decision {
    if forall c :: c in ClustersOf(targets) ==> ClusterPasses(w, c, caller, roles) then Accepted else Denied
  }

  /** The two verdicts put together. */
  lemma DecisionParts(w: World, targets: seq<string>, names: seq<string>, caller: string)
    requires forall i :: 0 <= i < |names| ==> names[i] in w.roleTemplates
    ensures var projectRoles, clusterRoles := RequestedIn(w, names, "project"), RequestedIn(w, names, "cluster");
            var onProjects, onClusters := Overall(Verdicts(w, targets, caller, projectRoles)),
              ClustersVerdict(w, targets, caller, clusterRoles);
            DecisionFor(w, targets, names, caller) ==
            if onProjects.LookupError? || (clusterRoles == {} && onProjects.Accepted?) then onProjects
            else if onProjects.Accepted? then onClusters else Denied
  {
    OverallIs(w, targets, caller, RequestedIn(w, names, "project"));
  }

  lemma ClustersLookable(w: World, targets: seq<string>, caller: string)
    requires AllLookable(w, targets, caller)
    ensures forall c :: c in ClustersOf(targets) ==>
              c in w.clusters && Resolvable(w, BindingsIn(w.clusterBindings, c), caller)
  {
  }

  /** The decision about a caller who is no administrator. */
  method Decide(w: World, targets: seq<string>, names: seq<string>, caller: string) returns (r: Decision)
    ensures AllLookable(w, targets, caller) ==> r == DecisionFor(w, targets, names, caller)
  {
    var ok, projectRoles, clusterRoles := ResolveRoles(w, names);
    if !ok {
      return LookupError;
    }
    DecisionParts(w, targets, names, caller);
    r := CheckProjects(w, targets, caller, projectRoles);
    if r.LookupError? || (clusterRoles == {} && r.Accepted?) {
      return;
    }
    var onClusters := CheckClusters(w, ClustersOf(targets), caller, clusterRoles, projectRoles);
    if AllLookable(w, targets, caller) {
      ClustersLookable(w, targets, caller);
    }
    if onClusters.LookupError? {
      return LookupError;
    }
    return if r.Accepted? then onClusters else Denied;
  }

  method AllExist(w: World, targets: seq<string>) returns (ok: bool)
    ensures ok <==> forall i :: 0 <= i < |targets| ==> Exists(w, targets[i])
  {
    for i := 0 to |targets|
      invariant forall k :: 0 <= k < i ==> Exists(w, targets[k])
    {
      if !Exists(w, targets[i]) {
        return false;
      }
    }
    return true;
  }

  predicate MayGrantIn(w: World, target: string, caller: string, roles: set<string>) {
    ParseTarget(target).Some? && MayGrant(w, ParseTarget(target).value.0, ParseTarget(target).value.1, caller, roles)
  }

  /** All roles and projects exist, and the caller has no binding to a requested role twice. */
  ghost predicate PlainlyBound(w: World, targets: seq<string>, names: seq<string>, caller: string) {
    && (forall i :: 0 <= i < |names| ==> names[i] in w.roleTemplates)
    && (forall i :: 0 <= i < |targets| ==>
          Exists(w, targets[i]) && BoundOnce(BindingsIn(w.projectBindings, ParseTarget(targets[i]).value.1), caller,
                                             RequestedIn(w, names, "project")))
    && (forall c :: c in ClustersOf(targets) ==>
        BoundOnce(BindingsIn(w.clusterBindings, c), caller, RequestedIn(w, names, "cluster")))
  }

  /** The rule for a whole request: it holds in every target project for the project roles, and in every cluster of a
      target for the cluster roles. */
  predicate RequestAllowed(w: World, targets: seq<string>, names: seq<string>, caller: string) {
    && (forall i :: 0 <= i < |targets| ==> MayGrantIn(w, targets[i], caller, RequestedIn(w, names, "project")))
    && (forall c :: c in ClustersOf(targets) ==> MayGrantInCluster(w, c, caller, RequestedIn(w, names, "cluster")))
  }

  /** The caller owns a cluster of a target and lacks a custom cluster role that is asked for. */
  predicate OwnerLacksCustomRole(w: World, targets: seq<string>, names: seq<string>, caller: string) {
    exists c :: c in ClustersOf(targets) &&
                HoldsSome(w, BindingsIn(w.clusterBindings, c), caller, IsClusterOwner) &&
                !AllBuiltin(w, MissingOf(BindingsIn(w.clusterBindings, c), caller, RequestedIn(w, names, "cluster")))
  }

  lemma ClusterRuleHolds(w: World, targets: seq<string>, names: seq<string>, caller: string, c: string)
    requires PlainlyBound(w, targets, names, caller) && c in ClustersOf(targets) &&
             !OwnerLacksCustomRole(w, targets, names, caller)
    ensures ClusterPasses(w, c, caller, RequestedIn(w, names, "cluster")) <==>
            MayGrantInCluster(w, c, caller, RequestedIn(w, names, "cluster"))
  {
    var bs, roles := BindingsIn(w.clusterBindings, c), RequestedIn(w, names, "cluster");
    DepartsFromClusterRule(w, c, caller, roles);
    CountHeld(bs, caller, roles);
    HoldsAllExactly(bs, caller, roles);
  }

  lemma ProjectRuleHolds(w: World, targets: seq<string>, names: seq<string>, caller: string, i: nat)
    requires PlainlyBound(w, targets, names, caller) && i < |targets|
    ensures TargetPasses(w, targets[i], caller, RequestedIn(w, names, "project")) <==>
            MayGrantIn(w, targets[i], caller, RequestedIn(w, names, "project"))
  {
    PassesIsRule(w, ParseTarget(targets[i]).value.0, ParseTarget(targets[i]).value.1, caller,
                 RequestedIn(w, names, "project"));
  }

  /** For a caller who has no binding twice, the decision is the intended rule in every target project and its cluster,
      unless the caller owns a cluster and lacks a custom cluster role that is asked for. */
  lemma DecisionIsRule(w: World, targets: seq<string>, names: seq<string>, caller: string)
    requires PlainlyBound(w, targets, names, caller) && !OwnerLacksCustomRole(w, targets, names, caller)
    ensures DecisionFor(w, targets, names, caller) == if RequestAllowed(w, targets, names, caller) then Accepted
            else Denied
  {
    forall i | 0 <= i < |targets|
      ensures TargetPasses(w, targets[i], caller, RequestedIn(w, names, "project")) <==>
              MayGrantIn(w, targets[i], caller, RequestedIn(w, names, "project"))
    {
      ProjectRuleHolds(w, targets, names, caller, i);
    }
    forall c | c in ClustersOf(targets)
      ensures ClusterPasses(w, c, caller, RequestedIn(w, names, "cluster")) <==>
              MayGrantInCluster(w, c, caller, RequestedIn(w, names, "cluster"))
    {
      ClusterRuleHolds(w, targets, names, caller, c);
    }
    if RequestedIn(w, names, "cluster") == {} {
      forall c | c in ClustersOf(targets) ensures MayGrantInCluster(w, c, caller, {}) {
        assert MissingOf(BindingsIn(w.clusterBindings, c), caller, {}) == {};
      }
    }
  }

  /** `EnsureRoleInTargets`; `admin` is absent when the caller cannot be looked up. An administrator only needs the
      projects to exist. Anybody else gets what the rule says, if nothing that is looked up is missing, the caller has
      no binding twice, and the caller owns no cluster in which it lacks a custom cluster role that is asked for. */
  method EnsureRoleInTargets(w: World, targets: seq<string>, names: seq<string>, caller: string, admin: Option<bool>)
      returns (r: Decision)
    ensures admin.None? ==> r.LookupError?
    ensures admin == Some(true) ==> r == if forall i :: 0 <= i < |targets| ==>
              Exists(w, targets[i]) then Accepted else LookupError
    ensures admin == Some(false) && AllLookable(w, targets, caller) ==> r == DecisionFor(w, targets, names, caller)
    ensures admin == Some(false) && AllLookable(w, targets, caller) && PlainlyBound(w, targets, names, caller) &&
            !OwnerLacksCustomRole(w, targets, names, caller) ==>
              r == if RequestAllowed(w, targets, names, caller) then Accepted else Denied
  {
    if admin.None? {
      return LookupError;
    }
    if admin.value {
      var ok := AllExist(w, targets);
      return if ok then Accepted else LookupError;
    }
    r := Decide(w, targets, names, caller);
    if PlainlyBound(w, targets, names, caller) && !OwnerLacksCustomRole(w, targets, names, caller) {
      DecisionIsRule(w, targets, names, caller);
    }
  }
}
