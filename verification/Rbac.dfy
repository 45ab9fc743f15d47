/** Access decisions from flattened permissions: pkg/rbac/permission_index.go, list_permission_store.go and
    access_control.go. */
module Rbac {
  import opened Basics
  import opened Text

  const RBAC_GROUP: string := "rbac.authorization.k8s.io"

  datatype Rule = Rule(apiGroups: seq<string>, resources: seq<string>, verbs: seq<string>, resourceNames: seq<string>)

  datatype Subject = Subject(kind: string, name: string)

  datatype RoleRef = RoleRef(apiGroup: string, kind: string, name: string)

  datatype RoleBinding = RoleBinding(namespace: string, subjects: seq<Subject>, roleRef: RoleRef)

  datatype ClusterRoleBinding = ClusterRoleBinding(subjects: seq<Subject>, roleRef: RoleRef)

  /** The objects behind the listers and indexers. */
  datatype Objects = Objects(
    clusterRoles: map<string, seq<Rule>>,
    roles: map<(string, string), seq<Rule>>,
    roleBindings: seq<RoleBinding>,
    clusterRoleBindings: seq<ClusterRoleBinding>)

  /** What is asked for, and how names of groups and resources are compared: `strings.EqualFold`. */
  datatype Request = Request(apiGroup: string, resource: string, verb: string)

  type Fold = (string, string) -> bool

  /** Who asks: the impersonated user and groups. */
  datatype Caller = Caller(user: string, groups: seq<string>)

  datatype ListPermission = ListPermission(namespace: string, name: string)

  // ---------- Rules ----------

  predicate Matches(parts: seq<string>, val: string, fold: Fold) {
    exists i :: 0 <= i < |parts| && (parts[i] == "*" || fold(parts[i], val))
  }

  predicate AllowsVerb(rule: Rule, verb: string) {
    "*" in rule.verbs || verb in rule.verbs
  }

  /** A rule with resource names grants listing through the verb get. */
  function VerbFor(rule: Rule, verb: string): string {
    if |rule.resourceNames| > 0 && verb == "list" then "get" else verb
  }

  predicate Applies(rule: Rule, q: Request, fold: Fold) {
    Matches(rule.apiGroups, q.apiGroup, fold) && Matches(rule.resources, q.resource, fold) &&
    AllowsVerb(rule, VerbFor(rule, q.verb))
  }

  function RulesOf(o: Objects, namespace: string, kind: string, name: string): seq<Rule> {
    if kind == "ClusterRole" && name in o.clusterRoles then o.clusterRoles[name]
    else if kind == "Role" && (namespace, name) in o.roles then o.roles[(namespace, name)]
    else []
  }

  // ---------- Direct evaluation: the meaning of bindings ----------

  /** Where a binding reaches: everywhere, or one namespace. */
  datatype Scope = Everywhere | Within(namespace: string)

  function ScopeOf(namespace: string): Scope {
    if namespace == "*" then Everywhere else Within(namespace)
  }

  /** Whether an applicable rule covers the object: without resource names, all objects in scope; with resource names,
      the named objects in the binding's namespace, or, bound everywhere, the named objects without a namespace. */
  predicate Covers(rule: Rule, scope: Scope, namespace: string, name: string) {
    if |rule.resourceNames| == 0 then scope.Everywhere? || scope.namespace == namespace
    else (if scope.Everywhere? then namespace == "" else namespace == scope.namespace) &&
         (name in rule.resourceNames || "*" in rule.resourceNames)
  }

  predicate RoleAllows(o: Objects, namespace: string, ref: RoleRef, q: Request, fold: Fold, objNamespace: string,
                       objName: string)
  {
    var rules := RulesOf(o, namespace, ref.kind, ref.name);
    && ref.apiGroup == RBAC_GROUP
    && exists i ::
        0 <= i < |rules| && Applies(rules[i], q, fold) && Covers(rules[i], ScopeOf(namespace), objNamespace, objName)
  }

  /** The binding names the caller. */
  predicate Binds(subjects: seq<Subject>, who: Subject) {
    who in subjects
  }

  predicate SubjectAllows(o: Objects, who: Subject, q: Request, fold: Fold, namespace: string, name: string) {
    || (exists i :: 0 <= i < |o.roleBindings| && Binds(o.roleBindings[i].subjects, who) &&
                    RoleAllows(o, o.roleBindings[i].namespace, o.roleBindings[i].roleRef, q, fold, namespace, name))
    || (exists i :: 0 <= i < |o.clusterRoleBindings| && Binds(o.clusterRoleBindings[i].subjects, who) &&
                    RoleAllows(o, "*", o.clusterRoleBindings[i].roleRef, q, fold, namespace, name))
  }

  predicate GroupsAllow(o: Objects, groups: seq<string>, q: Request, fold: Fold, namespace: string, name: string) {
    exists i :: 0 <= i < |groups| && SubjectAllows(o, Subject("Group", groups[i]), q, fold, namespace, name)
  }

  /** Some binding of the user or of one of the groups allows it. */
  predicate Allowed(o: Objects, c: Caller, q: Request, fold: Fold, namespace: string, name: string) {
    SubjectAllows(o, Subject("User", c.user), q, fold, namespace, name) ||
    GroupsAllow(o, c.groups, q, fold, namespace, name)
  }

  // ---------- Flattened permissions ----------

  /** The permissions one rule of a role bound in `namespace` is flattened to. */
  predicate Grants(rule: Rule, namespace: string, q: Request, fold: Fold, p: ListPermission) {
    && Applies(rule, q, fold)
    && (if |rule.resourceNames| > 0
        then p.namespace == (if namespace == "*" then "" else namespace) && p.name in rule.resourceNames
        else p == ListPermission(namespace, "*"))
  }

  predicate RoleGrants(o: Objects, namespace: string, ref: RoleRef, q: Request, fold: Fold, p: ListPermission) {
    var rules := RulesOf(o, namespace, ref.kind, ref.name);
    ref.apiGroup == RBAC_GROUP && exists i :: 0 <= i < |rules| && Grants(rules[i], namespace, q, fold, p)
  }

  predicate SubjectGrants(o: Objects, who: Subject, q: Request, fold: Fold, p: ListPermission) {
    || (exists i :: 0 <= i < |o.roleBindings| && Binds(o.roleBindings[i].subjects, who) &&
                    RoleGrants(o, o.roleBindings[i].namespace, o.roleBindings[i].roleRef, q, fold, p))
    || (exists i :: 0 <= i < |o.clusterRoleBindings| && Binds(o.clusterRoleBindings[i].subjects, who) &&
                    RoleGrants(o, "*", o.clusterRoleBindings[i].roleRef, q, fold, p))
  }

  predicate GroupsGrant(o: Objects, groups: seq<string>, q: Request, fold: Fold, p: ListPermission) {
    exists i :: 0 <= i < |groups| && SubjectGrants(o, Subject("Group", groups[i]), q, fold, p)
  }

  predicate CallerGrants(o: Objects, c: Caller, q: Request, fold: Fold, p: ListPermission) {
    SubjectGrants(o, Subject("User", c.user), q, fold, p) || GroupsGrant(o, c.groups, q, fold, p)
  }

  /** The three lookups that decide about an object. */
  predicate Answers(p: ListPermission, namespace: string, name: string) {
    p == ListPermission(namespace, "*") || p == ListPermission("*", "*") || p == ListPermission(namespace, name)
  }

  /** A rule covers an object exactly when one of the permissions it is flattened to answers for it. */
  lemma FlatteningOfRule(rule: Rule, namespace: string, q: Request, fold: Fold, objNamespace: string, objName: string)
    ensures (Applies(rule, q, fold) && Covers(rule, ScopeOf(namespace), objNamespace, objName)) <==>
            exists p :: Grants(rule, namespace, q, fold, p) && Answers(p, objNamespace, objName)
  {
    if Applies(rule, q, fold) && Covers(rule, ScopeOf(namespace), objNamespace, objName) {
      var p := if |rule.resourceNames| == 0 then ListPermission(namespace, "*")
               else ListPermission(if namespace == "*" then "" else namespace, if objName in rule.resourceNames
                                   then objName else "*");
      assert Grants(rule, namespace, q, fold, p) && Answers(p, objNamespace, objName);
    }
  }

  lemma FlatteningOfRole(o: Objects, namespace: string, ref: RoleRef, q: Request, fold: Fold, objNamespace: string,
                         objName: string)
    ensures RoleAllows(o, namespace, ref, q, fold, objNamespace, objName) <==>
            exists p :: RoleGrants(o, namespace, ref, q, fold, p) && Answers(p, objNamespace, objName)
  {
    var rules := RulesOf(o, namespace, ref.kind, ref.name);
    if RoleAllows(o, namespace, ref, q, fold, objNamespace, objName) {
      var i :| 0 <= i < |rules| && Applies(rules[i], q, fold) &&
        Covers(rules[i], ScopeOf(namespace), objNamespace, objName);
      FlatteningOfRule(rules[i], namespace, q, fold, objNamespace, objName);
      var p :| Grants(rules[i], namespace, q, fold, p) && Answers(p, objNamespace, objName);
      assert RoleGrants(o, namespace, ref, q, fold, p);
    }
    if p :| RoleGrants(o, namespace, ref, q, fold, p) && Answers(p, objNamespace, objName) {
      var i :| 0 <= i < |rules| && Grants(rules[i], namespace, q, fold, p);
      FlatteningOfRule(rules[i], namespace, q, fold, objNamespace, objName);
    }
  }

  lemma FlatteningOfSubject(o: Objects, who: Subject, q: Request, fold: Fold, objNamespace: string, objName: string)
    ensures SubjectAllows(o, who, q, fold, objNamespace, objName) <==>
            exists p :: SubjectGrants(o, who, q, fold, p) && Answers(p, objNamespace, objName)
  {
    forall i | 0 <= i < |o.roleBindings|
      ensures RoleAllows(o, o.roleBindings[i].namespace, o.roleBindings[i].roleRef, q, fold, objNamespace, objName) <==>
              exists p :: RoleGrants(o, o.roleBindings[i].namespace, o.roleBindings[i].roleRef, q, fold, p) &&
                Answers(p, objNamespace, objName)
    {
      FlatteningOfRole(o, o.roleBindings[i].namespace, o.roleBindings[i].roleRef, q, fold, objNamespace, objName);
    }
    forall i | 0 <= i < |o.clusterRoleBindings|
      ensures RoleAllows(o, "*", o.clusterRoleBindings[i].roleRef, q, fold, objNamespace, objName) <==>
              exists p :: RoleGrants(o, "*", o.clusterRoleBindings[i].roleRef, q, fold, p) &&
                Answers(p, objNamespace, objName)
    {
      FlatteningOfRole(o, "*", o.clusterRoleBindings[i].roleRef, q, fold, objNamespace, objName);
    }
  }

  /** Flattening loses nothing and adds nothing: what the bindings allow is what the flattened permissions answer
      for. */
  lemma FlatteningExact(o: Objects, c: Caller, q: Request, fold: Fold, objNamespace: string, objName: string)
    ensures Allowed(o, c, q, fold, objNamespace, objName) <==>
            exists p :: CallerGrants(o, c, q, fold, p) && Answers(p, objNamespace, objName)
  {
    FlatteningOfSubject(o, Subject("User", c.user), q, fold, objNamespace, objName);
    forall i | 0 <= i < |c.groups|
      ensures SubjectAllows(o, Subject("Group", c.groups[i]), q, fold, objNamespace, objName) <==>
              exists p :: SubjectGrants(o, Subject("Group", c.groups[i]), q, fold, p) &&
                Answers(p, objNamespace, objName)
    {
      FlatteningOfSubject(o, Subject("Group", c.groups[i]), q, fold, objNamespace, objName);
    }
  }

  // ---------- Building the flattened permissions ----------

  /** The index function of both binding kinds: the names of the subjects of one kind. */
  method BySubject(kind: string, subjects: seq<Subject>) returns (names: seq<string>)
    ensures forall n :: n in names <==> Subject(kind, n) in subjects
  {
    names := [];
    for i := 0 to |subjects|
      invariant forall n :: n in names <==> Subject(kind, n) in subjects[..i]
    {
      assert subjects[..i + 1] == subjects[..i] + [subjects[i]];
      if subjects[i].kind == kind {
        names := names + [subjects[i].name];
      }
    }
    assert subjects[..|subjects|] == subjects;
  }

  method AppendNames(before: seq<ListPermission>, namespace: string, names: seq<string>)
      returns (result: seq<ListPermission>)
    ensures forall p :: p in result <==> p in before || (p.namespace == namespace && p.name in names)
  {
    result := before;
    for i := 0 to |names|
      invariant forall p :: p in result <==> p in before || (p.namespace == namespace && p.name in names[..i])
    {
      assert names[..i + 1] == names[..i] + [names[i]];
      result := result + [ListPermission(namespace, names[i])];
    }
    assert names[..|names|] == names;
  }

  method FilterPermissions(o: Objects, before: seq<ListPermission>, namespace: string, ref: RoleRef, q: Request,
                           fold: Fold)
      returns (result: seq<ListPermission>)
    ensures forall p :: p in result <==>
              p in before ||
              exists i :: 0 <= i < |RulesOf(o, namespace, ref.kind, ref.name)| &&
                          Grants(RulesOf(o, namespace, ref.kind, ref.name)[i], namespace, q, fold, p)
  {
    var nsForResourceNameGets := if namespace == "*" then "" else namespace;
    var rules := RulesOf(o, namespace, ref.kind, ref.name);
    result := before;
    for i := 0 to |rules|
      invariant forall p :: p in result <==>
                p in before || exists k :: 0 <= k < i && Grants(rules[k], namespace, q, fold, p)
    {
      var rule := rules[i];
      ghost var sofar := result;
      if Matches(rule.apiGroups, q.apiGroup, fold) && Matches(rule.resources, q.resource, fold) {
        if |rule.resourceNames| > 0 {
          if AllowsVerb(rule, if q.verb == "list" then "get" else q.verb) {
            result := AppendNames(result, nsForResourceNameGets, rule.resourceNames);
          }
        } else if AllowsVerb(rule, q.verb) {
          result := result + [ListPermission(namespace, "*")];
        }
      }
      assert forall p :: p in result <==> p in sofar || Grants(rule, namespace, q, fold, p);
    }
  }

  /** `get` of the user or the group index: everything the bindings of one subject grant. */
  method Get(o: Objects, who: Subject, q: Request, fold: Fold) returns (result: seq<ListPermission>)
    ensures forall p :: p in result <==> SubjectGrants(o, who, q, fold, p)
  {
    result := [];
    for i := 0 to |o.roleBindings|
      invariant forall p :: p in result <==>
                  exists k :: 0 <= k < i && Binds(o.roleBindings[k].subjects, who) &&
                              RoleGrants(o, o.roleBindings[k].namespace, o.roleBindings[k].roleRef, q, fold, p)
    {
      var binding := o.roleBindings[i];
      ghost var sofar := result;
      var names := BySubject(who.kind, binding.subjects);
      if who.name in names && binding.roleRef.apiGroup == RBAC_GROUP {
        result := FilterPermissions(o, result, binding.namespace, binding.roleRef, q, fold);
      }
      assert forall p :: p in result <==>
               p in sofar || (Binds(binding.subjects, who) &&
                              RoleGrants(o, binding.namespace, binding.roleRef, q, fold, p));
    }
    ghost var fromRoles := result;
    for i := 0 to |o.clusterRoleBindings|
      invariant forall p :: p in result <==>
                  p in fromRoles ||
                  exists k :: 0 <= k < i && Binds(o.clusterRoleBindings[k].subjects, who) &&
                              RoleGrants(o, "*", o.clusterRoleBindings[k].roleRef, q, fold, p)
    {
      var binding := o.clusterRoleBindings[i];
      ghost var sofar := result;
      var names := BySubject(who.kind, binding.subjects);
      if who.name in names && binding.roleRef.apiGroup == RBAC_GROUP {
        result := FilterPermissions(o, result, "*", binding.roleRef, q, fold);
      }
      assert forall p :: p in result <==>
               p in sofar || (Binds(binding.subjects, who) && RoleGrants(o, "*", binding.roleRef, q, fold, p));
    }
  }

  /** The permissions of the user and the first i groups. */
  ghost predicate Collected(permset: set<ListPermission>, o: Objects, c: Caller, i: nat, q: Request, fold: Fold)
    requires i <= |c.groups|
  {
    forall p :: p in permset <==>
                SubjectGrants(o, Subject("User", c.user), q, fold, p) || GroupsGrant(o, c.groups[..i], q, fold, p)
  }

  lemma OneMoreGroup(o: Objects, groups: seq<string>, i: nat, q: Request, fold: Fold, p: ListPermission)
    requires i < |groups|
    ensures GroupsGrant(o, groups[..i + 1], q, fold, p) <==>
            GroupsGrant(o, groups[..i], q, fold, p) || SubjectGrants(o, Subject("Group", groups[i]), q, fold, p)
  {
    var before, after := groups[..i], groups[..i + 1];
    assert after == before + [groups[i]];
    if SubjectGrants(o, Subject("Group", groups[i]), q, fold, p) {
      assert SubjectGrants(o, Subject("Group", after[i]), q, fold, p);
    }
    if GroupsGrant(o, before, q, fold, p) {
      var k :| 0 <= k < |before| && SubjectGrants(o, Subject("Group", before[k]), q, fold, p);
      assert SubjectGrants(o, Subject("Group", after[k]), q, fold, p);
    }
    if GroupsGrant(o, after, q, fold, p) {
      var k :| 0 <= k < |after| && SubjectGrants(o, Subject("Group", after[k]), q, fold, p);
      assert k < i ==> before[k] == after[k];
    }
  }

  lemma CollectGroup(permset: set<ListPermission>, o: Objects, c: Caller, i: nat, q: Request, fold: Fold,
                     ofGroup: seq<ListPermission>)
    requires i < |c.groups| && Collected(permset, o, c, i, q, fold)
    requires forall p :: p in ofGroup <==> SubjectGrants(o, Subject("Group", c.groups[i]), q, fold, p)
    ensures Collected(permset + (set p | p in ofGroup), o, c, i + 1, q, fold)
  {
    forall p
      ensures GroupsGrant(o, c.groups[..i + 1], q, fold, p) <==>
              GroupsGrant(o, c.groups[..i], q, fold, p) || p in ofGroup
    {
      OneMoreGroup(o, c.groups, i, q, fold, p);
    }
  }

  /** The user's permissions and those of every group, merged. */
  method GetPermissions(o: Objects, c: Caller, q: Request, fold: Fold) returns (permset: set<ListPermission>)
    ensures forall p :: p in permset <==> CallerGrants(o, c, q, fold, p)
  {
    var ofUser := Get(o, Subject("User", c.user), q, fold);
    permset := set p | p in ofUser;
    for i := 0 to |c.groups|
      invariant Collected(permset, o, c, i, q, fold)
    {
      var ofGroup := Get(o, Subject("Group", c.groups[i]), q, fold);
      CollectGroup(permset, o, c, i, q, fold, ofGroup);
      permset := permset + set p | p in ofGroup;
    }
    assert c.groups[..|c.groups|] == c.groups;
  }

  // ---------- Decisions about objects ----------

  /** The fields of an API object the decision uses; an absent field is empty. */
  datatype Object = Object(id: string, namespaceId: string)

  /** An object without a namespace field may carry the namespace in its ID. */
  function NamespaceOf(obj: Option<Object>): string {
    if obj.None? then ""
    else if obj.value.namespaceId != "" then obj.value.namespaceId
    else
      var pieces := Split(obj.value.id, ":");
      if |pieces| == 2 then pieces[0] else ""
  }

  function NameOf(obj: Option<Object>): string {
    TrimPrefix(if obj.None? then "*" else obj.value.id, NamespaceOf(obj) + ":")
  }

  predicate CanAccess(obj: Option<Object>, permset: set<ListPermission>) {
    || ListPermission(NamespaceOf(obj), "*") in permset
    || ListPermission("*", "*") in permset
    || ListPermission(NamespaceOf(obj), NameOf(obj)) in permset
  }

  /** The bindings allow the object. */
  predicate ObjectAllowed(o: Objects, c: Caller, q: Request, fold: Fold, obj: Option<Object>) {
    Allowed(o, c, q, fold, NamespaceOf(obj), NameOf(obj))
  }

  lemma CanAccessExact(o: Objects, c: Caller, q: Request, fold: Fold, obj: Option<Object>, permset: set<ListPermission>)
    requires forall p :: p in permset <==> CallerGrants(o, c, q, fold, p)
    ensures CanAccess(obj, permset) <==> ObjectAllowed(o, c, q, fold, obj)
    ensures ListPermission("*", "*") in permset ==> ObjectAllowed(o, c, q, fold, obj)
  {
    var namespace, name := NamespaceOf(obj), NameOf(obj);
    FlatteningExact(o, c, q, fold, namespace, name);
    if CanAccess(obj, permset) {
      var p :| p in permset && Answers(p, namespace, name);
      assert CallerGrants(o, c, q, fold, p);
    }
    if p :| CallerGrants(o, c, q, fold, p) && Answers(p, namespace, name) {
      assert p in permset;
    }
  }

  method CanDo(o: Objects, c: Caller, q: Request, fold: Fold, obj: Option<Object>) returns (allowed: bool)
    ensures allowed <==> ObjectAllowed(o, c, q, fold, obj)
  {
    var permset := GetPermissions(o, c, q, fold);
    CanAccessExact(o, c, q, fold, obj, permset);
    allowed := CanAccess(obj, permset);
  }

  /** `Filter`: an object that may not be listed disappears; without a resource nothing is filtered. */
  method Filter(o: Objects, c: Caller, apiGroup: string, resource: string, fold: Fold, obj: Object)
      returns (kept: Option<Object>)
    ensures kept == if resource == "" || ObjectAllowed(o, c, Request(apiGroup, resource, "list"), fold, Some(obj))
            then Some(obj) else None
  {
    if resource == "" {
      return Some(obj);
    }
    var allowed := CanDo(o, c, Request(apiGroup, resource, "list"), fold, Some(obj));
    kept := if allowed then Some(obj) else None;
  }

  /** The objects that pass, in their order. */
  function Kept(objs: seq<Object>, pass: Object -> bool): seq<Object> {
    if objs == [] then []
    else
      var last := objs[|objs| - 1];
      Kept(objs[..|objs| - 1], pass) + (if pass(last) then [last] else [])
  }

  function Passes(o: Objects, c: Caller, apiGroup: string, resource: string, fold: Fold): Object -> bool {
    (obj: Object) => resource == "" || ObjectAllowed(o, c, Request(apiGroup, resource, "list"), fold, Some(obj))
  }

  lemma KeptOneMore(objs: seq<Object>, i: nat, pass: Object -> bool)
    requires i < |objs|
    ensures Kept(objs[..i + 1], pass) == Kept(objs[..i], pass) + if pass(objs[i]) then [objs[i]] else []
  {
    assert objs[..i + 1][..i] == objs[..i];
  }

  lemma {:induction false} KeptAll(objs: seq<Object>, pass: Object -> bool)
    requires forall obj :: pass(obj)
    ensures Kept(objs, pass) == objs
  {
    if objs != [] {
      KeptAll(objs[..|objs| - 1], pass);
    }
  }

  method FilterList(o: Objects, c: Caller, apiGroup: string, resource: string, fold: Fold, objs: seq<Object>)
      returns (result: seq<Object>)
    ensures result == Kept(objs, Passes(o, c, apiGroup, resource, fold))
  {
    ghost var pass := Passes(o, c, apiGroup, resource, fold);
    if resource == "" {
      KeptAll(objs, pass);
      return objs;
    }
    var q := Request(apiGroup, resource, "list");
    var permset := GetPermissions(o, c, q, fold);
    var all := ListPermission("*", "*") in permset;
    result := [];
    for i := 0 to |objs|
      invariant result == Kept(objs[..i], pass)
    {
      KeptOneMore(objs, i, pass);
      CanAccessExact(o, c, q, fold, Some(objs[i]), permset);
      if all {
        result := result + [objs[i]];
      } else if CanAccess(Some(objs[i]), permset) {
        result := result + [objs[i]];
      }
    }
    assert objs[..|objs|] == objs;
  }

  // ---------- More bindings allow more ----------

  /** `b` has the roles of `a` and at least its bindings. */
  ghost predicate Extends(a: Objects, b: Objects) {
    && b.clusterRoles == a.clusterRoles && b.roles == a.roles
    && (forall i :: 0 <= i < |a.roleBindings| ==> a.roleBindings[i] in b.roleBindings)
    && (forall i :: 0 <= i < |a.clusterRoleBindings| ==> a.clusterRoleBindings[i] in b.clusterRoleBindings)
  }

  ghost predicate SpeaksFor(c: Caller, d: Caller) {
    c.user == d.user && forall i :: 0 <= i < |c.groups| ==> c.groups[i] in d.groups
  }

  lemma RoleMonotone(a: Objects, b: Objects, namespace: string, ref: RoleRef, q: Request, fold: Fold,
                     objNamespace: string, objName: string)
    requires Extends(a, b)
    ensures RoleAllows(a, namespace, ref, q, fold, objNamespace, objName) <==>
            RoleAllows(b, namespace, ref, q, fold, objNamespace, objName)
  {
    assert RulesOf(a, namespace, ref.kind, ref.name) == RulesOf(b, namespace, ref.kind, ref.name);
  }

  lemma SubjectMonotone(a: Objects, b: Objects, who: Subject, q: Request, fold: Fold, namespace: string, name: string)
    requires Extends(a, b) && SubjectAllows(a, who, q, fold, namespace, name)
    ensures SubjectAllows(b, who, q, fold, namespace, name)
  {
    if i :| 0 <= i < |a.roleBindings| && Binds(a.roleBindings[i].subjects, who) &&
            RoleAllows(a, a.roleBindings[i].namespace, a.roleBindings[i].roleRef, q, fold, namespace, name) {
      var j :| 0 <= j < |b.roleBindings| && b.roleBindings[j] == a.roleBindings[i];
      RoleMonotone(a, b, b.roleBindings[j].namespace, b.roleBindings[j].roleRef, q, fold, namespace, name);
    } else {
      var i :| 0 <= i < |a.clusterRoleBindings| && Binds(a.clusterRoleBindings[i].subjects, who) &&
               RoleAllows(a, "*", a.clusterRoleBindings[i].roleRef, q, fold, namespace, name);
      var j :| 0 <= j < |b.clusterRoleBindings| && b.clusterRoleBindings[j] == a.clusterRoleBindings[i];
      RoleMonotone(a, b, "*", b.clusterRoleBindings[j].roleRef, q, fold, namespace, name);
    }
  }

  lemma AllowedMonotone(a: Objects, b: Objects, c: Caller, d: Caller, q: Request, fold: Fold, namespace: string,
                        name: string)
    requires Extends(a, b) && SpeaksFor(c, d) && Allowed(a, c, q, fold, namespace, name)
    ensures Allowed(b, d, q, fold, namespace, name)
  {
    if SubjectAllows(a, Subject("User", c.user), q, fold, namespace, name) {
      SubjectMonotone(a, b, Subject("User", c.user), q, fold, namespace, name);
    } else {
      var i :| 0 <= i < |c.groups| && SubjectAllows(a, Subject("Group", c.groups[i]), q, fold, namespace, name);
      SubjectMonotone(a, b, Subject("Group", c.groups[i]), q, fold, namespace, name);
      var j :| 0 <= j < |d.groups| && d.groups[j] == c.groups[i];
      assert SubjectAllows(b, Subject("Group", d.groups[j]), q, fold, namespace, name);
    }
  }

  /** `a` is `b` with some elements left out. */
  ghost predicate Subsequence<T>(a: seq<T>, b: seq<T>) {
    a == [] ||
    (b != [] && ((a[|a| - 1] == b[|b| - 1] && Subsequence(a[..|a| - 1], b[..|b| - 1])) || Subsequence(a, b[..|b| - 1])))
  }

  lemma {:induction false} KeptMonotone(objs: seq<Object>, few: Object -> bool, many: Object -> bool)
    requires forall obj :: few(obj) ==> many(obj)
    ensures Subsequence(Kept(objs, few), Kept(objs, many))
  {
    if objs != [] {
      var k := |objs| - 1;
      KeptMonotone(objs[..k], few, many);
      var a, b := Kept(objs[..k], few), Kept(objs[..k], many);
      var x := [objs[k]];
      assert (a + x)[..|a|] == a && (b + x)[..|b|] == b && a + [] == a && b + [] == b;
    }
  }

  /** Adding bindings or groups never removes an object from a list and never reorders it. */
  lemma FilterListMonotone(a: Objects, b: Objects, c: Caller, d: Caller, apiGroup: string, resource: string, fold: Fold,
                           objs: seq<Object>)
    requires Extends(a, b) && SpeaksFor(c, d)
    ensures Subsequence(Kept(objs, Passes(a, c, apiGroup, resource, fold)),
                        Kept(objs, Passes(b, d, apiGroup, resource, fold)))
  {
    var few, many := Passes(a, c, apiGroup, resource, fold), Passes(b, d, apiGroup, resource, fold);
    forall obj | few(obj) ensures many(obj) {
      if resource != "" {
        AllowedMonotone(a, b, c, d, Request(apiGroup, resource, "list"), fold, NamespaceOf(Some(obj)),
                        NameOf(Some(obj)));
      }
    }
    KeptMonotone(objs, few, many);
  }
}
