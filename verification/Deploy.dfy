/** The deployment of one app as a tree of linked objects (deploy/app.go, deploy/asg.go,
    deploy/deployment.go). */
module Deploy {
  import opened Domain
  import opened Listing

  /** Region to ASG to instance ids. */
  type RegionMap = map<string, map<string, seq<string>>>
  type ClusterMap = map<string, RegionMap>
  datatype AccountInfo = AccountInfo(cloudProvider: string, clusters: ClusterMap)
  type AppMap = map<string, AccountInfo>

  // ---------------------------------------------------------------- what the objects show

  datatype AsgView = AsgView(name: string, region: string, ids: seq<string>)
  datatype ClusterView = ClusterView(name: string, asgs: seq<AsgView>)
  datatype AccountView = AccountView(name: string, cloudProvider: string, clusters: seq<ClusterView>)
  datatype AppView = AppView(name: string, accounts: seq<AccountView>)

  ghost function ClusterRegions(v: ClusterView): set<string> {
    set s | 0 <= s < |v.asgs| :: v.asgs[s].region
  }

  ghost function AccountRegions(clusters: seq<ClusterView>): set<string> {
    set c, r | 0 <= c < |clusters| && r in ClusterRegions(clusters[c]) :: r
  }

  lemma OneMoreCluster(clusters: seq<ClusterView>, i: nat, names: seq<string>)
    requires i < |clusters| && Lists(names, ClusterRegions(clusters[i]))
    ensures AccountRegions(clusters[..i + 1]) == AccountRegions(clusters[..i]) + set r | r in names
  {
    assert clusters[..i + 1] == clusters[..i] + [clusters[i]];
    assert ClusterRegions(clusters[i]) == set r | r in names;
  }

  ghost predicate StacksKnown(parse: Parser, clusters: seq<ClusterView>) {
    forall c :: 0 <= c < |clusters| ==> StackOf(parse, clusters[c].name).Ok?
  }

  ghost function AccountStacks(parse: Parser, clusters: seq<ClusterView>): set<string> {
    set c | 0 <= c < |clusters| && StackOf(parse, clusters[c].name).Ok? :: StackOf(parse, clusters[c].name).value
  }

  /** The stack in a cluster's name; the program panics on a name that does not parse. */
  function StackOf(parse: Parser, cluster: string): Result<string> {
    match parse(cluster)
    case None => Err(Panic("cluster name does not parse"))
    case Some(names) => Ok(names.stack)
  }

  /** One instance: where it is deployed and its id. */
  datatype Path = Path(account: string, cluster: string, region: string, asg: string, id: string)

  class Instance {
    const id: string
    const asg: ASG

    constructor (id: string, asg: ASG)
      ensures this.id == id && this.asg == asg
    {
      this.id, this.asg := id, asg;
    }

    function AccountName(): string { asg.AccountName() }

    function ClusterName(): string { asg.ClusterName() }

    function RegionName(): string { asg.RegionName() }

    function AsgName(): string { asg.name }

    /** The instance as its parents describe it. */
    function ThePath(): Path {
      Path(AccountName(), ClusterName(), RegionName(), AsgName(), id)
    }
  }

  class ASG {
    const name: string
    const region: string
    const cluster: Cluster
    var instances: seq<Instance>

    constructor (name: string, region: string, cluster: Cluster)
      ensures this.name == name && this.region == region && this.cluster == cluster && instances == []
    {
      this.name, this.region, this.cluster := name, region, cluster;
      instances := [];
    }

    function AccountName(): string { cluster.AccountName() }

    function ClusterName(): string { cluster.name }

    function RegionName(): string { region }

    ghost predicate Linked()
      reads this
    {
      forall i :: 0 <= i < |instances| ==> instances[i].asg == this
    }

    ghost function View(): AsgView
      reads this
    {
      AsgView(name, region, seq(|instances|, i requires 0 <= i < |instances| reads this => instances[i].id))
    }
  }

  class Cluster {
    const name: string
    const account: Account
    var asgs: seq<ASG>

    constructor (name: string, account: Account)
      ensures this.name == name && this.account == account && asgs == []
    {
      this.name, this.account := name, account;
      asgs := [];
    }

    function AccountName(): string { account.name }

    ghost predicate Linked()
      reads this, asgs
    {
      forall i :: 0 <= i < |asgs| ==> asgs[i].cluster == this && asgs[i].Linked()
    }

    ghost function View(): ClusterView
      reads this, asgs
    {
      ClusterView(name, AsgViews(asgs))
    }

    /** The regions in which the cluster has an ASG, each once. */
    method RegionNames() returns (result: seq<string>)
      ensures Lists(result, ClusterRegions(View()))
    {
      AsgViewsAt(asgs);
      ghost var v := View();
      var m: set<string> := {};
      for i := 0 to |asgs|
        invariant m == ClusterRegions(v.(asgs := v.asgs[..i]))
      {
        assert v.asgs[..i + 1] == v.asgs[..i] + [v.asgs[i]];
        m := m + {asgs[i].RegionName()};
      }
      assert v.asgs[..|asgs|] == v.asgs;
      result := Range(m);
    }
  }

  class Account {
    const name: string
    const cloudProvider: string
    const app: App
    var clusters: seq<Cluster>

    constructor (name: string, cloudProvider: string, app: App)
      ensures this.name == name && this.cloudProvider == cloudProvider && this.app == app && clusters == []
    {
      this.name, this.cloudProvider, this.app := name, cloudProvider, app;
      clusters := [];
    }

    ghost predicate Linked()
      reads this, clusters, Below(clusters)
    {
      forall i :: 0 <= i < |clusters| ==> clusters[i].account == this && clusters[i].Linked()
    }

    ghost function View(): AccountView
      reads this, clusters, Below(clusters)
    {
      AccountView(name, cloudProvider, ClusterViews(clusters))
    }

    /** The regions in which a cluster of the account has an ASG, each once. */
    method RegionNames() returns (result: seq<string>)
      ensures Lists(result, AccountRegions(View().clusters))
    {
      ghost var vs := ClusterViews(clusters);
      ClusterViewsAt(clusters);
      var m: set<string> := {};
      for i := 0 to |clusters|
        invariant ClusterViews(clusters) == vs
        invariant m == AccountRegions(vs[..i])
      {
        ClusterViewsAt(clusters);
        label before:
        var names := clusters[i].RegionNames();
        SameClusterViews@before(clusters);
        m := m + set r | r in names;
        OneMoreCluster(vs, i, names);
      }
      assert vs[..|clusters|] == vs;
      label last:
      result := Range(m);
      SameClusterViews@last(clusters);
    }

    /** The stacks of the account's clusters, each once. */
    method StackNames(parse: Parser) returns (result: Result<seq<string>>)
      ensures result.Ok? <==> StacksKnown(parse, View().clusters)
      ensures result.Ok? ==> Lists(result.value, AccountStacks(parse, View().clusters))
    {
      ghost var vs := ClusterViews(clusters);
      ClusterViewsAt(clusters);
      var m: set<string> := {};
      for i := 0 to |clusters|
        invariant StacksKnown(parse, vs[..i]) && m == AccountStacks(parse, vs[..i])
      {
        var stack := StackOf(parse, clusters[i].name);
        if stack.Err? {
          assert StackOf(parse, vs[i].name).Err?;
          return Err(stack.error);
        }
        assert vs[..i + 1] == vs[..i] + [vs[i]];
        m := m + {stack.value};
      }
      assert vs[..|clusters|] == vs;
      var names := Range(m);
      SameClusterViews(clusters);
      return Ok(names);
    }
  }

  class App {
    const name: string
    var accounts: seq<Account>

    constructor (name: string)
      ensures this.name == name && accounts == []
    {
      this.name := name;
      accounts := [];
    }

    ghost predicate Linked()
      reads this, accounts, ClustersBelow(accounts), AsgsBelow(accounts)
    {
      forall i :: 0 <= i < |accounts| ==> accounts[i].app == this && accounts[i].Linked()
    }

    ghost function View(): AppView
      reads this, accounts, ClustersBelow(accounts), AsgsBelow(accounts)
    {
      AppView(name, AccountViews(accounts))
    }
  }

  ghost function AsgViews(asgs: seq<ASG>): seq<AsgView>
    reads asgs
  {
    if asgs == [] then [] else AsgViews(asgs[..|asgs| - 1]) + [asgs[|asgs| - 1].View()]
  }

  ghost function Below(clusters: seq<Cluster>): set<ASG>
    reads clusters
  {
    set i, j | 0 <= i < |clusters| && 0 <= j < |clusters[i].asgs| :: clusters[i].asgs[j]
  }

  ghost function ClusterViews(clusters: seq<Cluster>): seq<ClusterView>
    reads clusters, Below(clusters)
  {
    if clusters == [] then [] else ClusterViews(clusters[..|clusters| - 1]) + [clusters[|clusters| - 1].View()]
  }

  ghost function ClustersBelow(accounts: seq<Account>): set<Cluster>
    reads accounts
  {
    set i, j | 0 <= i < |accounts| && 0 <= j < |accounts[i].clusters| :: accounts[i].clusters[j]
  }

  ghost function AsgsBelow(accounts: seq<Account>): set<ASG>
    reads accounts, ClustersBelow(accounts)
  {
    set i, asg | 0 <= i < |accounts| && asg in Below(accounts[i].clusters) :: asg
  }

  ghost function AccountViews(accounts: seq<Account>): seq<AccountView>
    reads accounts, ClustersBelow(accounts), AsgsBelow(accounts)
  {
    if accounts == [] then [] else AccountViews(accounts[..|accounts| - 1]) + [accounts[|accounts| - 1].View()]
  }

  lemma {:induction false} AsgViewsAt(asgs: seq<ASG>)
    ensures |AsgViews(asgs)| == |asgs|
    ensures forall i :: 0 <= i < |asgs| ==> AsgViews(asgs)[i] == asgs[i].View()
    decreases |asgs|
  {
    if asgs != [] { AsgViewsAt(asgs[..|asgs| - 1]); }
  }

  lemma {:induction false} ClusterViewsAt(clusters: seq<Cluster>)
    ensures |ClusterViews(clusters)| == |clusters|
    ensures forall i :: 0 <= i < |clusters| ==> ClusterViews(clusters)[i] == clusters[i].View()
    decreases |clusters|
  {
    if clusters != [] { ClusterViewsAt(clusters[..|clusters| - 1]); }
  }

  lemma {:induction false} AccountViewsAt(accounts: seq<Account>)
    ensures |AccountViews(accounts)| == |accounts|
    ensures forall i :: 0 <= i < |accounts| ==> AccountViews(accounts)[i] == accounts[i].View()
    decreases |accounts|
  {
    if accounts != [] { AccountViewsAt(accounts[..|accounts| - 1]); }
  }

  twostate lemma {:induction false} SameClusterViews(clusters: seq<Cluster>)
    requires forall i :: 0 <= i < |clusters| ==> clusters[i].View() == old(clusters[i].View())
    ensures ClusterViews(clusters) == old(ClusterViews(clusters))
    decreases |clusters|
  {
    if clusters != [] { SameClusterViews(clusters[..|clusters| - 1]); }
  }

  twostate lemma {:induction false} SameAccountViews(accounts: seq<Account>)
    requires forall i :: 0 <= i < |accounts| ==> accounts[i].clusters == old(accounts[i].clusters)
    requires forall i, j :: 0 <= i < |accounts| && 0 <= j < |accounts[i].clusters|
               ==> accounts[i].clusters[j].View() == old(accounts[i].clusters[j].View())
    ensures AccountViews(accounts) == old(AccountViews(accounts))
    decreases |accounts|
  {
    if accounts != [] {
      SameClusterViews(accounts[|accounts| - 1].clusters);
      SameAccountViews(accounts[..|accounts| - 1]);
    }
  }
}
