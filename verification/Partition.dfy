/** The groups of an app partition what is deployed, and agree with the key that the checker
    throttles on (deploy/eligible_instance_groups.go over grp/grp.go and mysql/mysql.go). */
module Partition {
  import opened Domain
  import opened Listing
  import opened Groups
  import opened Deploy
  import opened AppTree
  import opened InstanceGroups
  import opened MinTime

  /** The cluster has an ASG in the region. */
  ghost predicate DeployedIn(regions: RegionMap, region: string) {
    region in regions && regions[region] != map[]
  }

  /** The groups, told from the maps that the tree was built from. */
  ghost predicate IsGroup(parse: Parser, name: string, cfg: AppConfig, data: AppMap, g: Group) {
    && g.app == name
    && g.account in data
    && var clusters, indep := data[g.account].clusters, cfg.regionsAreIndependent;
       match cfg.grouping
       case ByApp =>
         g.stack == "" && g.cluster == "" && if indep then SomeDeployedIn(clusters, g.region) else g.region == ""
       case ByStack =>
         g.cluster == "" && exists c :: c in clusters && HasStack(parse, c, g.stack)
                                      && if indep then DeployedIn(clusters[c], g.region) else g.region == ""
       case ByCluster =>
         && g.stack == "" && g.cluster in clusters
         && if indep then DeployedIn(clusters[g.cluster], g.region) else g.region == ""
       case Unrecognized(_) => false
  }

  ghost predicate SomeDeployedIn(clusters: ClusterMap, region: string) {
    exists c :: c in clusters && DeployedIn(clusters[c], region)
  }

  ghost predicate HasStack(parse: Parser, cluster: string, stack: string) {
    StackOf(parse, cluster) == Ok(stack)
  }

  // ---------------------------------------------------------------- from the tree to the maps

  lemma RegionsAreDeployed(v: ClusterView, regions: RegionMap, region: string)
    requires ShowsAsgs(v.asgs, regions)
    ensures region in ClusterRegions(v) <==> DeployedIn(regions, region)
  {
    if region in ClusterRegions(v) {
      var s :| 0 <= s < |v.asgs| && v.asgs[s].region == region;
      assert ShowsAsg(v.asgs[s], regions);
    }
    if DeployedIn(regions, region) {
      var n :| n in regions[region];
      assert ListsAsg(v.asgs, region, n);
    }
  }

  /** What the view of an account and the map say about its clusters is the same. */
  ghost predicate SameClusters(vs: seq<ClusterView>, clusters: ClusterMap) {
    && (forall c :: 0 <= c < |vs| ==> vs[c].name in clusters)
    && (forall c, r :: 0 <= c < |vs| ==> (r in ClusterRegions(vs[c]) <==> DeployedIn(clusters[vs[c].name], r)))
    && (forall name :: name in clusters ==> exists c :: 0 <= c < |vs| && vs[c].name == name)
  }

  lemma ShownClustersAreSame(vs: seq<ClusterView>, clusters: ClusterMap)
    requires ShowsClusters(vs, clusters)
    ensures SameClusters(vs, clusters)
  {
    forall c, r | 0 <= c < |vs| ensures r in ClusterRegions(vs[c]) <==> DeployedIn(clusters[vs[c].name], r) {
      RegionsAreDeployed(vs[c], clusters[vs[c].name], r);
    }
  }

  lemma AppGroups(parse: Parser, name: string, cfg: AppConfig, data: AppMap, v: AccountView, g: Group)
    requires v.name in data && SameClusters(v.clusters, data[v.name].clusters) && cfg.grouping.ByApp?
    ensures g in GroupsOfAccount(parse, name, cfg.grouping, cfg.regionsAreIndependent, v)
       <==> g.account == v.name && IsGroup(parse, name, cfg, data, g)
  {
    AccountRegionsAreDeployed(v.clusters, data[v.name].clusters, g.region);
    if g.account == v.name && IsGroup(parse, name, cfg, data, g) {
      assert g == Group(name, v.name, g.region, "", "");
    }
  }

  lemma AccountRegionsAreDeployed(vs: seq<ClusterView>, clusters: ClusterMap, region: string)
    requires SameClusters(vs, clusters)
    ensures region in AccountRegions(vs) <==> SomeDeployedIn(clusters, region)
  {
    if region in AccountRegions(vs) {
      var c :| 0 <= c < |vs| && region in ClusterRegions(vs[c]);
      assert DeployedIn(clusters[vs[c].name], region);
    }
    if SomeDeployedIn(clusters, region) {
      var d :| d in clusters && DeployedIn(clusters[d], region);
      var c :| 0 <= c < |vs| && vs[c].name == d;
      assert region in ClusterRegions(vs[c]);
    }
  }

  lemma StackGroupsAreGroups(parse: Parser, name: string, cfg: AppConfig, data: AppMap, v: AccountView, g: Group)
    requires v.name in data && SameClusters(v.clusters, data[v.name].clusters) && cfg.grouping.ByStack?
    ensures g in GroupsOfAccount(parse, name, cfg.grouping, cfg.regionsAreIndependent, v)
       <==> g.account == v.name && IsGroup(parse, name, cfg, data, g)
  {
    if g.account == v.name && IsGroup(parse, name, cfg, data, g) {
      var d :| d in data[v.name].clusters && HasStack(parse, d, g.stack)
            && if cfg.regionsAreIndependent then DeployedIn(data[v.name].clusters[d], g.region) else g.region == "";
      var c :| 0 <= c < |v.clusters| && v.clusters[c].name == d;
      assert cfg.regionsAreIndependent ==> g.region in ClusterRegions(v.clusters[c]);
      assert StackOf(parse, v.clusters[c].name) == Ok(g.stack);
    }
    if g in GroupsOfAccount(parse, name, cfg.grouping, cfg.regionsAreIndependent, v) {
      var c :| && 0 <= c < |v.clusters| && StackOf(parse, v.clusters[c].name) == Ok(g.stack)
               && (cfg.regionsAreIndependent ==> g.region in ClusterRegions(v.clusters[c]));
      assert HasStack(parse, v.clusters[c].name, g.stack);
    }
  }

  lemma ClusterGroupsAreGroups(parse: Parser, name: string, cfg: AppConfig, data: AppMap, v: AccountView, g: Group)
    requires v.name in data && SameClusters(v.clusters, data[v.name].clusters) && cfg.grouping.ByCluster?
    ensures g in GroupsOfAccount(parse, name, cfg.grouping, cfg.regionsAreIndependent, v)
       <==> g.account == v.name && IsGroup(parse, name, cfg, data, g)
  {
    if g.account == v.name && IsGroup(parse, name, cfg, data, g) {
      var c :| 0 <= c < |v.clusters| && v.clusters[c].name == g.cluster;
      assert cfg.regionsAreIndependent ==> g.region in ClusterRegions(v.clusters[c]);
    }
  }

  lemma GroupsOfAccountAreGroups(parse: Parser, name: string, cfg: AppConfig, data: AppMap, v: AccountView, g: Group)
    requires v.name in data && ShowsAccount(v, v.name, data[v.name])
    ensures g in GroupsOfAccount(parse, name, cfg.grouping, cfg.regionsAreIndependent, v)
       <==> g.account == v.name && IsGroup(parse, name, cfg, data, g)
  {
    ShownClustersAreSame(v.clusters, data[v.name].clusters);
    match cfg.grouping
    case ByApp => AppGroups(parse, name, cfg, data, v, g);
    case ByStack => StackGroupsAreGroups(parse, name, cfg, data, v, g);
    case ByCluster => ClusterGroupsAreGroups(parse, name, cfg, data, v, g);
    case Unrecognized(_) =>
  }

  lemma GroupsAreGroups(parse: Parser, name: string, cfg: AppConfig, data: AppMap, v: AppView, g: Group)
    requires Shows(v, name, data)
    ensures g in GroupsOf(parse, cfg, v) <==> IsGroup(parse, name, cfg, data, g)
  {
    forall a | 0 <= a < |v.accounts|
      ensures g in GroupsOfAccount(parse, name, cfg.grouping, cfg.regionsAreIndependent, v.accounts[a])
         <==> g.account == v.accounts[a].name && IsGroup(parse, name, cfg, data, g)
    {
      GroupsOfAccountAreGroups(parse, name, cfg, data, v.accounts[a], g);
    }
  }

  lemma ShownTreeIsDistinct(v: AppView, name: string, data: AppMap)
    requires Shows(v, name, data)
    ensures Distinct(v)
  {
    forall a | 0 <= a < |v.accounts| ensures DistinctClusters(v.accounts[a].clusters) {
      assert ShowsAccount(v.accounts[a], v.accounts[a].name, data[v.accounts[a].name]);
    }
  }

  // ---------------------------------------------------------------- the partition

  /** A cluster deployed in a region of an account. */
  ghost predicate IsDeployed(data: AppMap, account: string, region: string, cluster: string) {
    account in data && cluster in data[account].clusters && DeployedIn(data[account].clusters[cluster], region)
  }

  ghost predicate NonblankNames(data: AppMap) {
    forall a, c :: a in data && c in data[a].clusters ==> c != "" && "" !in data[a].clusters[c]
  }

  ghost predicate StacksAreNamed(parse: Parser, data: AppMap) {
    forall a, c :: a in data && c in data[a].clusters ==> !HasStack(parse, c, "")
  }

  /** Some cluster of the account has a blank stack and would share a group with this one's region. */
  ghost predicate BlankStackBeside(parse: Parser, cfg: AppConfig, data: AppMap, account: string, region: string) {
    account in data && exists d :: d in data[account].clusters && HasStack(parse, d, "")
                         && (cfg.regionsAreIndependent ==> DeployedIn(data[account].clusters[d], region))
  }

  ghost predicate Holds(parse: Parser, name: string, cfg: AppConfig, data: AppMap, g: Group, account: string, region: string, cluster: string) {
    IsGroup(parse, name, cfg, data, g) && Contains(parse, g, account, region, cluster)
  }

  ghost predicate InExactlyOneGroup(parse: Parser, name: string, cfg: AppConfig, data: AppMap, account: string, region: string, cluster: string) {
    && (exists g :: Holds(parse, name, cfg, data, g, account, region, cluster))
    && (forall g, h ::
          (Holds(parse, name, cfg, data, g, account, region, cluster)
           && Holds(parse, name, cfg, data, h, account, region, cluster)) ==> g == h)
  }

  /** The group that is meant for a deployed cluster. */
  function OwnGroup(parse: Parser, name: string, cfg: AppConfig, account: string, region: string, cluster: string): Group
    requires parse(cluster).Some?
  {
    Group(name, account,
          if cfg.regionsAreIndependent then region else "",
          if cfg.grouping.ByStack? then parse(cluster).value.stack else "",
          if cfg.grouping.ByCluster? then cluster else "")
  }

  lemma OwnGroupHolds(parse: Parser, name: string, cfg: AppConfig, data: AppMap, account: string, region: string, cluster: string)
    requires IsDeployed(data, account, region, cluster) && !cfg.grouping.Unrecognized?
    requires parse(cluster).Some? && parse(cluster).value.app == name
    ensures Holds(parse, name, cfg, data, OwnGroup(parse, name, cfg, account, region, cluster), account, region, cluster)
  {
    assert HasStack(parse, cluster, parse(cluster).value.stack);
  }

  /** A group that holds a deployed cluster is its own one, or spans the stacks of the account. */
  lemma HoldingGroupIsOwn(parse: Parser, name: string, cfg: AppConfig, data: AppMap, g: Group, account: string, region: string, cluster: string)
    requires Holds(parse, name, cfg, data, g, account, region, cluster) && NonblankNames(data)
    ensures (g.stack == "" && cfg.grouping.ByStack?) || g == OwnGroup(parse, name, cfg, account, region, cluster)
    ensures g == OwnGroup(parse, name, cfg, account, region, cluster).(stack := g.stack)
  {
  }

  /** Each deployed cluster and region is contained in exactly one group exactly when the cluster's
      name parses to the app's name and, when grouping by stack, a nonblank stack has no cluster
      with a blank stack beside it. */
  lemma InExactlyOneGroupIff(parse: Parser, name: string, cfg: AppConfig, data: AppMap, account: string, region: string, cluster: string)
    requires IsDeployed(data, account, region, cluster) && NonblankNames(data) && !cfg.grouping.Unrecognized?
    ensures InExactlyOneGroup(parse, name, cfg, data, account, region, cluster)
       <==> && parse(cluster).Some? && parse(cluster).value.app == name
            && (cfg.grouping.ByStack? && parse(cluster).value.stack != "" ==> !BlankStackBeside(parse, cfg, data, account, region))
  {
    if parse(cluster).Some? && parse(cluster).value.app == name {
      var own := OwnGroup(parse, name, cfg, account, region, cluster);
      OwnGroupHolds(parse, name, cfg, data, account, region, cluster);
      forall g | Holds(parse, name, cfg, data, g, account, region, cluster)
        ensures g == own || (g == own.(stack := "") && cfg.grouping.ByStack? && BlankStackBeside(parse, cfg, data, account, region))
      {
        HoldingGroupIsOwn(parse, name, cfg, data, g, account, region, cluster);
      }
      if cfg.grouping.ByStack? && own.stack != "" && BlankStackBeside(parse, cfg, data, account, region) {
        assert Holds(parse, name, cfg, data, own.(stack := ""), account, region, cluster);
        assert own != own.(stack := "");
      }
    }
  }

  /** The groups returned for a tree: pairwise unequal, and each deployed cluster and region whose
      name parses to the app's is contained in exactly one of them, stacks being nonblank. */
  lemma {:induction false} GroupsPartitionTheDeployment(parse: Parser, cfg: AppConfig, data: AppMap, v: AppView, groups: seq<Group>,
                                     account: string, region: string, cluster: string) returns (k: nat)
    requires Shows(v, v.name, data) && Lists(groups, GroupsOf(parse, cfg, v)) && !cfg.grouping.Unrecognized?
    requires IsDeployed(data, account, region, cluster) && NonblankNames(data)
    requires parse(cluster).Some? && parse(cluster).value.app == v.name
    requires cfg.grouping.ByStack? ==> forall c :: c in data[account].clusters ==> !HasStack(parse, c, "")
    ensures forall i, j :: 0 <= i < j < |groups| ==> !Equal(groups[i], groups[j])
    ensures k < |groups| && Contains(parse, groups[k], account, region, cluster)
    ensures forall i :: 0 <= i < |groups| && Contains(parse, groups[i], account, region, cluster) ==> i == k
  {
    ListedGroupsDiffer(groups, GroupsOf(parse, cfg, v));
    var own := OwnGroup(parse, v.name, cfg, account, region, cluster);
    OwnGroupHolds(parse, v.name, cfg, data, account, region, cluster);
    GroupsAreGroups(parse, v.name, cfg, data, v, own);
    k :| 0 <= k < |groups| && groups[k] == own;
    forall i | 0 <= i < |groups| && Contains(parse, groups[i], account, region, cluster) ensures groups[i] == own {
      OnlyOwnGroupContains(parse, cfg, data, v, groups[i], account, region, cluster);
    }
  }

  lemma OnlyOwnGroupContains(parse: Parser, cfg: AppConfig, data: AppMap, v: AppView, g: Group,
                             account: string, region: string, cluster: string)
    requires Shows(v, v.name, data) && g in GroupsOf(parse, cfg, v) && !cfg.grouping.Unrecognized?
    requires IsDeployed(data, account, region, cluster) && NonblankNames(data)
    requires parse(cluster).Some? && parse(cluster).value.app == v.name
    requires cfg.grouping.ByStack? ==> forall c :: c in data[account].clusters ==> !HasStack(parse, c, "")
    requires Contains(parse, g, account, region, cluster)
    ensures g == OwnGroup(parse, v.name, cfg, account, region, cluster)
  {
    GroupsAreGroups(parse, v.name, cfg, data, v, g);
    InExactlyOneGroupIff(parse, v.name, cfg, data, account, region, cluster);
    OwnGroupHolds(parse, v.name, cfg, data, account, region, cluster);
    assert Holds(parse, v.name, cfg, data, g, account, region, cluster);
  }

  lemma ListedGroupsDiffer(groups: seq<Group>, all: set<Group>)
    requires Lists(groups, all)
    ensures forall i, j :: 0 <= i < j < |groups| ==> !Equal(groups[i], groups[j])
    ensures forall i, j :: 0 <= i < |groups| && 0 <= j < |groups| && groups[i] == groups[j] ==> i == j
  {
    forall i, j | 0 <= i < j < |groups| ensures !Equal(groups[i], groups[j]) {
      EqualIffSame(groups[i], groups[j]);
    }
  }

  /** With independent regions every group has a deployed cluster in it. */
  lemma IndependentGroupIsDeployed(parse: Parser, name: string, cfg: AppConfig, data: AppMap, g: Group)
    requires cfg.regionsAreIndependent && IsGroup(parse, name, cfg, data, g) && NonblankNames(data)
    requires forall c :: c in data[g.account].clusters ==> parse(c).Some? && parse(c).value.app == name
    ensures exists c :: IsDeployed(data, g.account, g.region, c) && Contains(parse, g, g.account, g.region, c)
  {
    var clusters := data[g.account].clusters;
    var c :| c in clusters && DeployedIn(clusters[c], g.region)
          && (cfg.grouping.ByStack? ==> HasStack(parse, c, g.stack)) && (cfg.grouping.ByCluster? ==> c == g.cluster);
    assert IsDeployed(data, g.account, g.region, c);
  }

  // ---------------------------------------------------------------- scheduling and throttling

  /** What an instance that was picked for a group has in common with it. */
  ghost predicate PickedFor(parse: Parser, g: Group, i: Domain.Instance) {
    i.app == g.app && i.account == g.account && Contains(parse, g, i.account, i.region, i.cluster)
  }

  /** Two instances picked for groups of one app are in the same group exactly when the checker
      throttles them under the same key, given that under stack grouping the ASG's name has the
      stack of the cluster's name and stacks are not blank. */
  lemma SameGroupIffSameKey(parse: Parser, name: string, cfg: AppConfig, data: AppMap, g: Group, h: Group, i: Domain.Instance, j: Domain.Instance)
    requires NonblankNames(data)
    requires IsGroup(parse, name, cfg, data, g) && IsGroup(parse, name, cfg, data, h)
    requires PickedFor(parse, g, i) && PickedFor(parse, h, j)
    requires cfg.grouping.ByStack? ==> && g.stack != "" && h.stack != ""
                                       && HasStack(parse, i.cluster, i.stack) && HasStack(parse, j.cluster, j.stack)
    ensures g == h <==> InstanceKey(cfg, i) == InstanceKey(cfg, j)
  {
    KeyOfPicked(parse, name, cfg, data, g, i);
    KeyOfPicked(parse, name, cfg, data, h, j);
  }

  lemma KeyOfPicked(parse: Parser, name: string, cfg: AppConfig, data: AppMap, g: Group, i: Domain.Instance)
    requires NonblankNames(data) && IsGroup(parse, name, cfg, data, g) && PickedFor(parse, g, i)
    requires cfg.grouping.ByStack? ==> g.stack != "" && HasStack(parse, i.cluster, i.stack)
    ensures InstanceKey(cfg, i) == KeyOf(cfg, g.app, g.account, g.stack, g.cluster, g.region)
    ensures g == Group(g.app, g.account,
                       if cfg.regionsAreIndependent then g.region else "",
                       if cfg.grouping.ByStack? then g.stack else "",
                       if cfg.grouping.ByCluster? then g.cluster else "")
  {
  }
}
