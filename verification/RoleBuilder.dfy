/** The chain of default roles and its reconciliation with the stored ones: app/rolebuilder.go. */
module RoleBuilding {
  import opened Seqs

  datatype PolicyRule = PolicyRule(apiGroups: seq<string>, resources: seq<string>, resourceNames: seq<string>,
                                   urls: seq<string>, verbs: seq<string>)

  /** What one builder holds about its role. */
  datatype RoleSpec = RoleSpec(name: string, displayName: string, context: string, builtin: bool, ext: bool,
                               hidden: bool,
                               administrative: bool, templateNames: seq<string>, rules: seq<PolicyRule>)

  const EMPTY := RoleSpec("", "", "", false, false, false, false, [], [])

  /** The k-th builder of a chain points at its neighbours. */
  ghost predicate LinkedAt(chain: seq<RoleBuilder>, k: int)
    requires 0 <= k < |chain|
    reads chain
  {
    && chain[k].previous == (if k == 0 then null else chain[k - 1])
    && chain[k].next == (if k == |chain| - 1 then null else chain[k + 1])
  }

  /** A doubly linked chain of distinct builders. */
  ghost predicate Linked(chain: seq<RoleBuilder>)
    reads chain
  {
    Distinct(chain) && forall i :: 0 <= i < |chain| ==> LinkedAt(chain, i)
  }

  /** The roles of a chain, from its head. */
  ghost function Specs(chain: seq<RoleBuilder>): (r: seq<RoleSpec>)
    reads chain
  {
    seq(|chain|, i requires 0 <= i < |chain| reads chain => chain[i].spec)
  }

  /** The roles after one is added at position k or later: the first one without a name is named, or one is appended. */
  ghost function Added(specs: seq<RoleSpec>, k: nat, displayName: string, name: string): (r: (nat, seq<RoleSpec>))
    requires k <= |specs|
    ensures k <= r.0 <= |specs| && r.0 < |r.1|
    ensures r.1[r.0].name == name && r.1[r.0].displayName == displayName
    ensures forall j :: k <= j < r.0 ==> specs[j].name != ""
    ensures forall j :: 0 <= j < |specs| && j != r.0 ==> j < |r.1| && r.1[j] == specs[j]
    ensures |r.1| == if r.0 == |specs| then |specs| + 1 else |specs|
    ensures r.0 < |specs| ==> specs[r.0].name == "" && r.1[r.0] == specs[r.0].(name := name, displayName := displayName)
    decreases |specs| - k
  {
    if k == |specs| then (k, specs + [EMPTY.(name := name, displayName := displayName)])
    else if specs[k].name == "" then (k, specs[k := specs[k].(name := name, displayName := displayName)])
    else Added(specs, k + 1, displayName, name)
  }

  class RoleBuilder {
    var previous: RoleBuilder?
    var next: RoleBuilder?
    var spec: RoleSpec

    constructor ()
      ensures Linked([this]) && spec == EMPTY && previous == null && next == null
    {
      previous, next, spec := null, null, EMPTY;
    }

    /** Called on the k-th builder of a chain. The result is a builder of the chain that results. */
    method AddRole(displayName: string, name: string, ghost chain: seq<RoleBuilder>, ghost k: nat)
        returns (r: RoleBuilder, ghost longer: seq<RoleBuilder>)
      requires Linked(chain) && k < |chain| && chain[k] == this
      modifies chain
      ensures Linked(longer) && chain <= longer && |longer| <= |chain| + 1
      ensures forall i :: |chain| <= i < |longer| ==> fresh(longer[i])
      ensures Specs(longer) == Added(old(Specs(chain)), k, displayName, name).1
      ensures r == longer[Added(old(Specs(chain)), k, displayName, name).0]
      decreases |chain| - k
    {
      assert LinkedAt(chain, k);
      longer := chain;
      if spec.name == "" {
        spec := spec.(name := name, displayName := displayName);
        forall i | 0 <= i < |chain| ensures LinkedAt(chain, i) {
          assert old(LinkedAt(chain, i));
        }
        assert forall i :: 0 <= i < |chain| && i != k ==> chain[i] != this;
        assert Specs(chain) == old(Specs(chain))[k := spec];
        return this, chain;
      }
      if next != null {
        r, longer := next.AddRole(displayName, name, chain, k + 1);
        return;
      }
      r := new RoleBuilder();
      r.previous := this;
      r.spec := EMPTY.(name := name, displayName := displayName);
      next := r;
      longer := chain + [r];
      forall i | 0 <= i < |chain| ensures LinkedAt(longer, i) {
        assert old(LinkedAt(chain, i));
        assert i != k ==> chain[i] != this;
      }
      assert LinkedAt(longer, |chain|);
    }

    /** Going back from any builder of a chain ends at its head. */
    method First(ghost chain: seq<RoleBuilder>, ghost k: nat) returns (r: RoleBuilder)
      requires Linked(chain) && k < |chain| && chain[k] == this
      ensures r == chain[0]
      decreases k
    {
      assert LinkedAt(chain, k);
      if previous == null {
        return this;
      }
      r := previous.First(chain, k - 1);
    }
  }
}
