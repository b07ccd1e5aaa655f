/** From nested maps to the tree of objects and back (deploy/app.go:73-102). */
module AppTree {
  import opened Deploy
  import opened Listing

  // ---------------------------------------------------------------- what the tree must show

  ghost predicate ShowsAsgs(vs: seq<AsgView>, regions: RegionMap) {
    && (forall i :: 0 <= i < |vs| ==> ShowsAsg(vs[i], regions))
    && (forall i, j :: 0 <= i < j < |vs| ==> vs[i].region != vs[j].region || vs[i].name != vs[j].name)
    && (forall r, n :: r in regions && n in regions[r] ==> ListsAsg(vs, r, n))
  }

  ghost predicate ShowsAsg(v: AsgView, regions: RegionMap) {
    v.region in regions && v.name in regions[v.region] && v.ids == regions[v.region][v.name]
  }

  ghost predicate ListsAsg(vs: seq<AsgView>, region: string, name: string) {
    exists i :: 0 <= i < |vs| && vs[i].region == region && vs[i].name == name
  }

  ghost predicate ShowsClusters(vs: seq<ClusterView>, clusters: ClusterMap) {
    && (forall i :: 0 <= i < |vs| ==> vs[i].name in clusters && ShowsAsgs(vs[i].asgs, clusters[vs[i].name]))
    && (forall i, j :: 0 <= i < j < |vs| ==> vs[i].name != vs[j].name)
    && (forall c :: c in clusters ==> exists i :: 0 <= i < |vs| && vs[i].name == c)
  }

  ghost predicate ShowsAccount(v: AccountView, name: string, info: AccountInfo) {
    v.name == name && v.cloudProvider == info.cloudProvider && ShowsClusters(v.clusters, info.clusters)
  }

  /** Every account, cluster, region, ASG and id of the maps is in the tree once, and nothing else is. */
  ghost predicate Shows(v: AppView, name: string, data: AppMap) {
    && v.name == name
    && (forall i :: 0 <= i < |v.accounts| ==>
          && v.accounts[i].name in data
          && ShowsAccount(v.accounts[i], v.accounts[i].name, data[v.accounts[i].name]))
    && (forall i, j :: 0 <= i < j < |v.accounts| ==> v.accounts[i].name != v.accounts[j].name)
    && (forall a :: a in data ==> exists i :: 0 <= i < |v.accounts| && v.accounts[i].name == a)
  }

  // ---------------------------------------------------------------- the loops, innermost first

  method NewASG(name: string, region: string, ids: seq<string>, cluster: Cluster) returns (asg: ASG)
    ensures fresh(asg) && asg.cluster == cluster && asg.Linked() && asg.View() == AsgView(name, region, ids)
  {
    asg := new ASG(name, region, cluster);
    for i := 0 to |ids|
      invariant fresh(asg) && asg.Linked()
      invariant |asg.instances| == i && forall k :: 0 <= k < i ==> asg.instances[k].id == ids[k]
    {
      var instance := new Instance(ids[i], asg);
      asg.instances := asg.instances + [instance];
    }
    assert asg.View().ids == ids;
  }

  ghost predicate ShowsListedAsgs(vs: seq<AsgView>, listed: seq<string>, region: string, asgs: map<string, seq<string>>) {
    && |vs| == |listed|
    && forall k :: 0 <= k < |vs| ==> listed[k] in asgs && vs[k] == AsgView(listed[k], region, asgs[listed[k]])
  }

  lemma OneMoreAsg(vs: seq<AsgView>, listed: seq<string>, i: nat, region: string, asgs: map<string, seq<string>>)
    requires i < |listed| && listed[i] in asgs && ShowsListedAsgs(vs, listed[..i], region, asgs)
    ensures ShowsListedAsgs(vs + [AsgView(listed[i], region, asgs[listed[i]])], listed[..i + 1], region, asgs)
  {
  }

  lemma RegionIsShown(added: seq<AsgView>, names: seq<string>, region: string, asgs: map<string, seq<string>>)
    requires Lists(names, asgs.Keys) && ShowsListedAsgs(added, names, region, asgs)
    ensures ShowsAsgs(added, map[region := asgs])
  {
    forall r, n | r in map[region := asgs] && n in map[region := asgs][r] ensures ListsAsg(added, r, n) {
      var i :| 0 <= i < |names| && names[i] == n;
      assert added[i].name == n;
    }
    forall i | 0 <= i < |added| ensures ShowsAsg(added[i], map[region := asgs]) {
      assert names[i] in asgs;
    }
  }

  lemma RegionsAreShown(vs: seq<AsgView>, shown: RegionMap, added: seq<AsgView>, region: string, asgs: map<string, seq<string>>)
    requires ShowsAsgs(vs, shown) && ShowsAsgs(added, map[region := asgs]) && region !in shown
    ensures ShowsAsgs(vs + added, shown[region := asgs])
  {
    var all, m := vs + added, shown[region := asgs];
    forall i | 0 <= i < |all| ensures ShowsAsg(all[i], m) {
      if i < |vs| { assert ShowsAsg(vs[i], shown); } else { assert ShowsAsg(added[i - |vs|], map[region := asgs]); }
    }
    forall i, j | 0 <= i < j < |all| ensures all[i].region != all[j].region || all[i].name != all[j].name {
      if i < |vs| <= j {
        assert ShowsAsg(vs[i], shown) && ShowsAsg(added[j - |vs|], map[region := asgs]);
      }
    }
    forall r, n | r in m && n in m[r] ensures ListsAsg(all, r, n) {
      if r == region {
        assert n in map[region := asgs][r] && ListsAsg(added, r, n);
        var i :| 0 <= i < |added| && added[i].region == r && added[i].name == n;
        assert all[|vs| + i] == added[i];
      } else {
        assert ListsAsg(vs, r, n);
        var i :| 0 <= i < |vs| && vs[i].region == r && vs[i].name == n;
        assert all[i] == vs[i];
      }
    }
  }

  method AddASG(cluster: Cluster, name: string, region: string, ids: seq<string>)
    requires cluster.Linked()
    modifies cluster`asgs
    ensures cluster.Linked()
    ensures AsgViews(cluster.asgs) == old(AsgViews(cluster.asgs)) + [AsgView(name, region, ids)]
  {
    var asg := NewASG(name, region, ids, cluster);
    cluster.asgs := cluster.asgs + [asg];
  }

  /** The loop over the ASGs of one region. */
  method AddRegion(cluster: Cluster, region: string, asgs: map<string, seq<string>>) returns (ghost added: seq<AsgView>)
    requires cluster.Linked()
    modifies cluster`asgs
    ensures cluster.Linked()
    ensures AsgViews(cluster.asgs) == old(AsgViews(cluster.asgs)) + added
    ensures ShowsAsgs(added, map[region := asgs])
  {
    var names := Range(asgs.Keys);
    added := [];
    for i := 0 to |names|
      invariant cluster.Linked()
      invariant AsgViews(cluster.asgs) == old(AsgViews(cluster.asgs)) + added
      invariant ShowsListedAsgs(added, names[..i], region, asgs)
    {
      AddASG(cluster, names[i], region, asgs[names[i]]);
      OneMoreAsg(added, names, i, region, asgs);
      added := added + [AsgView(names[i], region, asgs[names[i]])];
    }
    assert names[..|names|] == names;
    RegionIsShown(added, names, region, asgs);
  }

  ghost predicate ShowsListedRegions(vs: seq<AsgView>, listed: seq<string>, regions: RegionMap) {
    && (forall r :: r in listed ==> r in regions)
    && ShowsAsgs(vs, map r | r in regions && r in listed :: regions[r])
  }

  lemma OneMoreRegion(vs: seq<AsgView>, added: seq<AsgView>, listed: seq<string>, i: nat, regions: RegionMap)
    requires Lists(listed, regions.Keys) && i < |listed| && listed[i] in regions
    requires ShowsListedRegions(vs, listed[..i], regions) && ShowsAsgs(added, map[listed[i] := regions[listed[i]]])
    ensures ShowsListedRegions(vs + added, listed[..i + 1], regions)
  {
    var before := map r | r in regions && r in listed[..i] :: regions[r];
    var after := map r | r in regions && r in listed[..i + 1] :: regions[r];
    assert listed[..i + 1] == listed[..i] + [listed[i]];
    assert after == before[listed[i] := regions[listed[i]]];
    RegionsAreShown(vs, before, added, listed[i], regions[listed[i]]);
  }

  /** The loop over the regions of one cluster. */
  method NewCluster(name: string, regions: RegionMap, account: Account) returns (cluster: Cluster)
    ensures fresh(cluster) && cluster.account == account && cluster.Linked()
    ensures cluster.name == name && ShowsAsgs(AsgViews(cluster.asgs), regions)
  {
    cluster := new Cluster(name, account);
    var listed := Range(regions.Keys);
    for i := 0 to |listed|
      invariant fresh(cluster) && cluster.Linked()
      invariant ShowsListedRegions(AsgViews(cluster.asgs), listed[..i], regions)
    {
      ghost var before := AsgViews(cluster.asgs);
      ghost var added := AddRegion(cluster, listed[i], regions[listed[i]]);
      OneMoreRegion(before, added, listed, i, regions);
    }
    AllRegionsAreShown(AsgViews(cluster.asgs), listed, regions);
  }

  lemma AllRegionsAreShown(vs: seq<AsgView>, listed: seq<string>, regions: RegionMap)
    requires Lists(listed, regions.Keys) && ShowsListedRegions(vs, listed[..|listed|], regions)
    ensures ShowsAsgs(vs, regions)
  {
    assert listed[..|listed|] == listed;
    assert regions == map r | r in regions && r in listed :: regions[r];
  }

  method AdoptCluster(account: Account, cluster: Cluster)
    requires account.Linked() && cluster.Linked() && cluster.account == account
    modifies account`clusters
    ensures account.Linked()
    ensures ClusterViews(account.clusters) == old(ClusterViews(account.clusters)) + [cluster.View()]
  {
    ghost var before := account.clusters;
    account.clusters := account.clusters + [cluster];
    SameClusterViews(before);
    assert account.clusters[..|before|] == before;
  }

  method AddCluster(account: Account, name: string, regions: RegionMap) returns (ghost added: ClusterView)
    requires account.Linked()
    modifies account`clusters
    ensures account.Linked()
    ensures ClusterViews(account.clusters) == old(ClusterViews(account.clusters)) + [added]
    ensures added.name == name && ShowsAsgs(added.asgs, regions)
  {
    var cluster := NewCluster(name, regions, account);
    SameClusterViews(account.clusters);
    added := cluster.View();
    AdoptCluster(account, cluster);
  }

  ghost predicate ShowsListedClusters(vs: seq<ClusterView>, listed: seq<string>, clusters: ClusterMap) {
    && |vs| == |listed|
    && forall k :: 0 <= k < |vs| ==> && vs[k].name == listed[k] && listed[k] in clusters
                                     && ShowsAsgs(vs[k].asgs, clusters[listed[k]])
  }

  lemma OneMoreCluster(vs: seq<ClusterView>, v: ClusterView, listed: seq<string>, i: nat, clusters: ClusterMap)
    requires i < |listed| && listed[i] in clusters && ShowsListedClusters(vs, listed[..i], clusters)
    requires v.name == listed[i] && ShowsAsgs(v.asgs, clusters[listed[i]])
    ensures ShowsListedClusters(vs + [v], listed[..i + 1], clusters)
  {
  }

  lemma ClustersAreShown(vs: seq<ClusterView>, listed: seq<string>, clusters: ClusterMap)
    requires Lists(listed, clusters.Keys) && ShowsListedClusters(vs, listed, clusters)
    ensures ShowsClusters(vs, clusters)
  {
    forall c | c in clusters ensures exists i :: 0 <= i < |vs| && vs[i].name == c {
      var i :| 0 <= i < |listed| && listed[i] == c;
      assert vs[i].name == c;
    }
  }

  /** The loop over the clusters of one account. */
  method NewAccount(name: string, info: AccountInfo, app: App) returns (account: Account)
    ensures fresh(account) && account.app == app && account.Linked()
    ensures account.name == name && account.cloudProvider == info.cloudProvider
    ensures ShowsClusters(ClusterViews(account.clusters), info.clusters)
  {
    account := new Account(name, info.cloudProvider, app);
    var listed := Range(info.clusters.Keys);
    for i := 0 to |listed|
      invariant fresh(account) && account.Linked()
      invariant ShowsListedClusters(ClusterViews(account.clusters), listed[..i], info.clusters)
    {
      ghost var before := ClusterViews(account.clusters);
      ghost var added := AddCluster(account, listed[i], info.clusters[listed[i]]);
      OneMoreCluster(before, added, listed, i, info.clusters);
    }
    assert listed[..|listed|] == listed;
    ClustersAreShown(ClusterViews(account.clusters), listed, info.clusters);
  }

  method AdoptAccount(app: App, account: Account)
    requires app.Linked() && account.Linked() && account.app == app
    modifies app`accounts
    ensures app.Linked()
    ensures AccountViews(app.accounts) == old(AccountViews(app.accounts)) + [old(account.View())]
  {
    ghost var before := app.accounts;
    app.accounts := app.accounts + [account];
    SameAccountViews(before);
    SameClusterViews(account.clusters);
    assert app.accounts[..|before|] == before;
  }

  /** Building an account does not touch the accounts that the app already has. */
  method NewAccountFor(app: App, name: string, info: AccountInfo) returns (account: Account)
    requires app.Linked()
    ensures account.app == app && account.Linked() && ShowsAccount(account.View(), name, info)
    ensures app.Linked() && AccountViews(app.accounts) == old(AccountViews(app.accounts))
  {
    account := NewAccount(name, info, app);
    SameAccountViews(app.accounts);
  }

  method AddAccount(app: App, name: string, info: AccountInfo) returns (ghost added: AccountView)
    requires app.Linked()
    modifies app`accounts
    ensures app.Linked()
    ensures AccountViews(app.accounts) == old(AccountViews(app.accounts)) + [added]
    ensures ShowsAccount(added, name, info)
  {
    var account := NewAccountFor(app, name, info);
    added := account.View();
    AdoptAccount(app, account);
  }

  ghost predicate ShowsListedAccounts(vs: seq<AccountView>, listed: seq<string>, data: AppMap) {
    && |vs| == |listed|
    && forall k :: 0 <= k < |vs| ==> listed[k] in data && ShowsAccount(vs[k], listed[k], data[listed[k]])
  }

  lemma OneMoreAccount(vs: seq<AccountView>, v: AccountView, listed: seq<string>, i: nat, data: AppMap)
    requires i < |listed| && listed[i] in data && ShowsListedAccounts(vs, listed[..i], data)
    requires ShowsAccount(v, listed[i], data[listed[i]])
    ensures ShowsListedAccounts(vs + [v], listed[..i + 1], data)
  {
  }

  lemma AccountsAreShown(v: AppView, listed: seq<string>, data: AppMap)
    requires Lists(listed, data.Keys) && ShowsListedAccounts(v.accounts, listed, data)
    ensures Shows(v, v.name, data)
  {
    forall i | 0 <= i < |v.accounts|
      ensures v.accounts[i].name in data && ShowsAccount(v.accounts[i], v.accounts[i].name, data[v.accounts[i].name])
    {
      assert v.accounts[i].name == listed[i];
    }
    forall i, j | 0 <= i < j < |v.accounts| ensures v.accounts[i].name != v.accounts[j].name {
      assert v.accounts[i].name == listed[i] && v.accounts[j].name == listed[j];
    }
    forall a | a in data ensures exists i :: 0 <= i < |v.accounts| && v.accounts[i].name == a {
      var i :| 0 <= i < |listed| && listed[i] == a;
      assert v.accounts[i].name == a;
    }
  }

  /** The tree shows the maps and its parent links are consistent. */
  method NewApp(name: string, data: AppMap) returns (app: App)
    ensures app.Linked() && Shows(app.View(), name, data)
  {
    app := new App(name);
    var listed := Range(data.Keys);
    for i := 0 to |listed|
      invariant fresh(app) && app.name == name && app.Linked()
      invariant ShowsListedAccounts(AccountViews(app.accounts), listed[..i], data)
    {
      ghost var before := AccountViews(app.accounts);
      ghost var added := AddAccount(app, listed[i], data[listed[i]]);
      OneMoreAccount(before, added, listed, i, data);
    }
    assert listed[..|listed|] == listed;
    AccountsAreShown(app.View(), listed, data);
  }
}
