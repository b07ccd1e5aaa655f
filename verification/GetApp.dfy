/** From the answers of Spinnaker to the tree of one app (spinnaker/spinnaker.go:297-343), and
    what the tree says when it is read through the parent links (deploy/deployment.go:198-236). */
module GetApp {
  import opened Domain
  import opened Deploy
  import opened AppTree
  import opened Listing

  datatype ServerGroup = ServerGroup(name: string, region: string, disabled: bool, instances: seq<string>)

  /** The decoded answers; `clusters` lists the clusters of each account. */
  datatype Answers = Answers(
    clusters: map<string, seq<string>>,
    cloudProvider: string -> Result<string>,
    asgs: (string, string) -> Result<seq<ServerGroup>>)

  function AddGroup(regions: RegionMap, sg: ServerGroup): RegionMap {
    if sg.disabled then regions
    else
      var present := if sg.region in regions then regions[sg.region] else map[];
      regions[sg.region := present[sg.name := sg.instances]]
  }

  function EnabledGroups(sgs: seq<ServerGroup>): RegionMap {
    if sgs == [] then map[] else AddGroup(EnabledGroups(sgs[..|sgs| - 1]), sgs[|sgs| - 1])
  }

  /** A cluster whose server groups could not be retrieved is there without any. */
  function RegionsOf(answer: Result<seq<ServerGroup>>): RegionMap {
    match answer
    case Err(_) => map[]
    case Ok(sgs) => EnabledGroups(sgs)
  }

  function ClustersOf(answers: Answers, account: string, listed: seq<string>): ClusterMap {
    map c | c in listed :: RegionsOf(answers.asgs(account, c))
  }

  ghost predicate ProvidersKnown(answers: Answers) {
    forall a :: a in answers.clusters ==> answers.cloudProvider(a).Ok?
  }

  ghost function DataOf(answers: Answers): AppMap
    requires ProvidersKnown(answers)
  {
    map a | a in answers.clusters ::
      AccountInfo(answers.cloudProvider(a).value, ClustersOf(answers, a, answers.clusters[a]))
  }

  ghost predicate IsAccountOf(answers: Answers, a: string, info: AccountInfo) {
    && a in answers.clusters && answers.cloudProvider(a).Ok?
    && info == AccountInfo(answers.cloudProvider(a).value, ClustersOf(answers, a, answers.clusters[a]))
  }

  // ---------------------------------------------------------------- the loops

  method CollectGroups(sgs: seq<ServerGroup>) returns (regions: RegionMap)
    ensures regions == EnabledGroups(sgs)
  {
    regions := map[];
    for i := 0 to |sgs|
      invariant regions == EnabledGroups(sgs[..i])
    {
      assert sgs[..i + 1][..i] == sgs[..i];
      var sg := sgs[i];
      if sg.disabled { continue; }
      if sg.region !in regions {
        regions := regions[sg.region := map[]];
      }
      regions := regions[sg.region := regions[sg.region][sg.name := sg.instances]];
    }
    assert sgs[..|sgs|] == sgs;
  }

  method CollectClusters(answers: Answers, account: string, listed: seq<string>) returns (clusters: ClusterMap)
    ensures clusters == ClustersOf(answers, account, listed)
  {
    clusters := map[];
    for i := 0 to |listed|
      invariant clusters == ClustersOf(answers, account, listed[..i])
    {
      assert listed[..i + 1] == listed[..i] + [listed[i]];
      clusters := clusters[listed[i] := map[]];
      var sgs := answers.asgs(account, listed[i]);
      if sgs.Err? { continue; }
      var regions := CollectGroups(sgs.value);
      clusters := clusters[listed[i] := regions];
    }
    assert listed[..|listed|] == listed;
  }

  lemma AllAccountsCollected(answers: Answers, accounts: seq<string>, data: AppMap)
    requires Lists(accounts, answers.clusters.Keys) && data.Keys == set a | a in accounts[..|accounts|]
    requires forall a :: a in data ==> IsAccountOf(answers, a, data[a])
    ensures ProvidersKnown(answers) && data == DataOf(answers)
  {
    assert accounts[..|accounts|] == accounts;
    forall a | a in answers.clusters ensures a in data && IsAccountOf(answers, a, data[a]) {
      assert a in accounts;
    }
  }

  /** The tree of the app, unless the provider of one of its accounts is not known. */
  method GetApp(name: string, answers: Answers) returns (r: Result<App>)
    ensures r.Ok? <==> ProvidersKnown(answers)
    ensures r.Ok? ==> r.value.Linked() && Shows(r.value.View(), name, DataOf(answers))
  {
    var data: AppMap := map[];
    var accounts := Range(answers.clusters.Keys);
    for i := 0 to |accounts|
      invariant data.Keys == set a | a in accounts[..i]
      invariant forall a :: a in data ==> IsAccountOf(answers, a, data[a])
    {
      var provider := answers.cloudProvider(accounts[i]);
      if provider.Err? { return Err(provider.error); }
      var clusters := CollectClusters(answers, accounts[i], answers.clusters[accounts[i]]);
      data := data[accounts[i] := AccountInfo(provider.value, clusters)];
    }
    AllAccountsCollected(answers, accounts, data);
    var app := NewApp(name, data);
    return Ok(app);
  }

  // ---------------------------------------------------------------- what is conserved

  /** The last enabled server group of that region and name. */
  ghost predicate IsLast(sgs: seq<ServerGroup>, i: nat, region: string, name: string) {
    && i < |sgs|
    && !sgs[i].disabled && sgs[i].region == region && sgs[i].name == name
    && (forall k :: i < k < |sgs| && !sgs[k].disabled ==> sgs[k].region != region || sgs[k].name != name)
  }

  /** A region and name are in the map exactly when an enabled server group has them, with the
      instances of the last such group; disabled groups leave nothing behind. */
  lemma {:induction false} EnabledGroupsExactly(sgs: seq<ServerGroup>, region: string, name: string)
    ensures var m := EnabledGroups(sgs);
            && (region in m && name in m[region] <==> exists i: nat :: IsLast(sgs, i, region, name))
            && (forall i: nat :: IsLast(sgs, i, region, name) ==> region in m && name in m[region] && m[region][name] == sgs[i].instances)
    decreases |sgs|
  {
    if sgs != [] {
      var n := |sgs| - 1;
      var front, last := sgs[..n], sgs[n];
      EnabledGroupsExactly(front, region, name);
      if !last.disabled && last.region == region && last.name == name {
        assert IsLast(sgs, n, region, name);
      } else {
        assert forall k :: 0 <= k < n ==> front[k] == sgs[k];
        forall i: nat ensures IsLast(sgs, i, region, name) <==> IsLast(front, i, region, name) {
          if IsLast(front, i, region, name) { assert front[i] == sgs[i]; }
          if IsLast(sgs, i, region, name) { assert i != n; }
        }
      }
    }
  }

  ghost predicate InData(data: AppMap, p: Path) {
    && p.account in data
    && p.cluster in data[p.account].clusters
    && p.region in data[p.account].clusters[p.cluster]
    && p.asg in data[p.account].clusters[p.cluster][p.region]
    && p.id in data[p.account].clusters[p.cluster][p.region][p.asg]
  }

  /** The instance is in the last enabled server group of its region and name. */
  ghost predicate InAnswers(answers: Answers, p: Path) {
    && p.account in answers.clusters
    && p.cluster in answers.clusters[p.account]
    && answers.asgs(p.account, p.cluster).Ok?
    && var sgs := answers.asgs(p.account, p.cluster).value;
       exists i: nat :: IsLast(sgs, i, p.region, p.asg) && p.id in sgs[i].instances
  }

  lemma DataIsAnswers(answers: Answers, p: Path)
    requires ProvidersKnown(answers)
    ensures InData(DataOf(answers), p) <==> InAnswers(answers, p)
  {
    if p.account in answers.clusters && p.cluster in answers.clusters[p.account] && answers.asgs(p.account, p.cluster).Ok? {
      EnabledGroupsExactly(answers.asgs(p.account, p.cluster).value, p.region, p.asg);
    }
  }

  /** An object of the tree at the given places. */
  ghost predicate IsInstance(app: App, a: nat, c: nat, s: nat, i: nat)
    reads app, app.accounts, ClustersBelow(app.accounts), AsgsBelow(app.accounts)
  {
    && a < |app.accounts|
    && c < |app.accounts[a].clusters|
    && s < |app.accounts[a].clusters[c].asgs|
    && var asg := app.accounts[a].clusters[c].asgs[s];
       assert asg in Below(app.accounts[a].clusters);
       i < |asg.instances|
  }

  ghost function InstanceAt(app: App, a: nat, c: nat, s: nat, i: nat): Deploy.Instance
    requires IsInstance(app, a, c, s, i)
    reads app, app.accounts, ClustersBelow(app.accounts), AsgsBelow(app.accounts)
  {
    var asg := app.accounts[a].clusters[c].asgs[s];
    assert asg in Below(app.accounts[a].clusters);
    asg.instances[i]
  }

  /** Some instance of the tree, asked through its parents, says that it is at p. */
  ghost predicate InTree(app: App, p: Path)
    reads app, app.accounts, ClustersBelow(app.accounts), AsgsBelow(app.accounts)
  {
    exists a, c, s, i :: IsInstance(app, a, c, s, i) && InstanceAt(app, a, c, s, i).ThePath() == p
  }

  lemma ViewOfInstance(app: App, a: nat, c: nat, s: nat, i: nat)
    requires app.Linked() && IsInstance(app, a, c, s, i)
    ensures var v := app.View();
            && a < |v.accounts| && c < |v.accounts[a].clusters| && s < |v.accounts[a].clusters[c].asgs|
            && i < |v.accounts[a].clusters[c].asgs[s].ids|
            && InstanceAt(app, a, c, s, i).ThePath() == PathAt(v, a, c, s, i)
  {
    AccountViewsAt(app.accounts);
    ClusterViewsAt(app.accounts[a].clusters);
    AsgViewsAt(app.accounts[a].clusters[c].asgs);
    assert app.accounts[a].Linked();
    assert app.accounts[a].clusters[c].Linked();
    assert app.accounts[a].clusters[c].asgs[s].Linked();
  }

  ghost function PathAt(v: AppView, a: nat, c: nat, s: nat, i: nat): Path
    requires a < |v.accounts| && c < |v.accounts[a].clusters| && s < |v.accounts[a].clusters[c].asgs|
    requires i < |v.accounts[a].clusters[c].asgs[s].ids|
  {
    var account, cluster, asg := v.accounts[a], v.accounts[a].clusters[c], v.accounts[a].clusters[c].asgs[s];
    Path(account.name, cluster.name, asg.region, asg.name, asg.ids[i])
  }

  lemma ViewPathIsInData(v: AppView, name: string, data: AppMap, a: nat, c: nat, s: nat, i: nat)
    requires Shows(v, name, data)
    requires a < |v.accounts| && c < |v.accounts[a].clusters| && s < |v.accounts[a].clusters[c].asgs|
    requires i < |v.accounts[a].clusters[c].asgs[s].ids|
    ensures InData(data, PathAt(v, a, c, s, i))
  {
    var account := v.accounts[a];
    assert ShowsAccount(account, account.name, data[account.name]);
    var cluster := account.clusters[c];
    var regions := data[account.name].clusters[cluster.name];
    assert ShowsAsgs(cluster.asgs, regions);
    assert ShowsAsg(cluster.asgs[s], regions);
  }

  lemma DataPathIsInView(v: AppView, name: string, data: AppMap, p: Path) returns (a: nat, c: nat, s: nat, i: nat)
    requires Shows(v, name, data) && InData(data, p)
    ensures a < |v.accounts| && c < |v.accounts[a].clusters| && s < |v.accounts[a].clusters[c].asgs|
    ensures i < |v.accounts[a].clusters[c].asgs[s].ids|
    ensures PathAt(v, a, c, s, i) == p
  {
    a :| 0 <= a < |v.accounts| && v.accounts[a].name == p.account;
    assert ShowsAccount(v.accounts[a], p.account, data[p.account]);
    var clusters := v.accounts[a].clusters;
    c :| 0 <= c < |clusters| && clusters[c].name == p.cluster;
    var asgs, regions := clusters[c].asgs, data[p.account].clusters[p.cluster];
    assert ShowsAsgs(asgs, regions);
    assert ListsAsg(asgs, p.region, p.asg);
    s :| 0 <= s < |asgs| && asgs[s].region == p.region && asgs[s].name == p.asg;
    assert ShowsAsg(asgs[s], regions);
    i :| 0 <= i < |asgs[s].ids| && asgs[s].ids[i] == p.id;
  }

  lemma InstanceOfView(app: App, a: nat, c: nat, s: nat, i: nat)
    requires app.Linked()
    requires var v := app.View();
             a < |v.accounts| && c < |v.accounts[a].clusters| && s < |v.accounts[a].clusters[c].asgs|
             && i < |v.accounts[a].clusters[c].asgs[s].ids|
    ensures IsInstance(app, a, c, s, i)
  {
    AccountViewsAt(app.accounts);
    ClusterViewsAt(app.accounts[a].clusters);
    AsgViewsAt(app.accounts[a].clusters[c].asgs);
  }

  /** The instances of the tree, asked through their parents, are those of the maps. */
  lemma TreeIsData(app: App, name: string, data: AppMap, p: Path)
    requires app.Linked() && Shows(app.View(), name, data)
    ensures InTree(app, p) <==> InData(data, p)
  {
    if InTree(app, p) {
      var a, c, s, i :| IsInstance(app, a, c, s, i) && InstanceAt(app, a, c, s, i).ThePath() == p;
      ViewOfInstance(app, a, c, s, i);
      ViewPathIsInData(app.View(), name, data, a, c, s, i);
    }
    if InData(data, p) {
      var a, c, s, i := DataPathIsInView(app.View(), name, data, p);
      InstanceOfView(app, a, c, s, i);
      ViewOfInstance(app, a, c, s, i);
    }
  }

  /** GetApp conserves instances: what the tree's instances say of themselves through their
      parents is exactly what the last enabled server group of each region and name lists. */
  lemma GetAppConservesInstances(app: App, name: string, answers: Answers, p: Path)
    requires ProvidersKnown(answers)
    requires app.Linked() && Shows(app.View(), name, DataOf(answers))
    ensures InTree(app, p) <==> InAnswers(answers, p)
  {
    TreeIsData(app, name, DataOf(answers), p);
    DataIsAnswers(answers, p);
  }

  /** The account is in the tree with the provider. */
  ghost predicate HasAccount(v: AppView, account: string, provider: string) {
    exists a :: 0 <= a < |v.accounts| && v.accounts[a].name == account && v.accounts[a].cloudProvider == provider
  }

  ghost predicate HasCluster(v: AppView, account: string, cluster: string) {
    exists a, c :: 0 <= a < |v.accounts| && v.accounts[a].name == account
      && 0 <= c < |v.accounts[a].clusters| && v.accounts[a].clusters[c].name == cluster
  }

  lemma AccountIsShownIff(v: AppView, name: string, data: AppMap, account: string, provider: string)
    requires Shows(v, name, data)
    ensures HasAccount(v, account, provider) <==> account in data && data[account].cloudProvider == provider
  {
    if account in data {
      var a :| 0 <= a < |v.accounts| && v.accounts[a].name == account;
      assert ShowsAccount(v.accounts[a], account, data[account]);
    }
    if HasAccount(v, account, provider) {
      var a :| 0 <= a < |v.accounts| && v.accounts[a].name == account && v.accounts[a].cloudProvider == provider;
      assert ShowsAccount(v.accounts[a], account, data[account]);
    }
  }

  lemma ClusterIsShownIff(v: AppView, name: string, data: AppMap, account: string, cluster: string)
    requires Shows(v, name, data)
    ensures HasCluster(v, account, cluster) <==> account in data && cluster in data[account].clusters
  {
    if account in data && cluster in data[account].clusters {
      var a :| 0 <= a < |v.accounts| && v.accounts[a].name == account;
      assert ShowsAccount(v.accounts[a], account, data[account]);
      var c :| 0 <= c < |v.accounts[a].clusters| && v.accounts[a].clusters[c].name == cluster;
    }
    if HasCluster(v, account, cluster) {
      var a, c :| 0 <= a < |v.accounts| && v.accounts[a].name == account
        && 0 <= c < |v.accounts[a].clusters| && v.accounts[a].clusters[c].name == cluster;
      assert ShowsAccount(v.accounts[a], account, data[account]);
    }
  }

  /** Every account stays in the tree, with its provider, and every cluster that was listed, although
      it has no enabled server group or they could not be retrieved; and no others are there. */
  lemma GetAppKeepsClusters(v: AppView, name: string, answers: Answers, account: string, cluster: string, provider: string)
    requires ProvidersKnown(answers) && Shows(v, name, DataOf(answers))
    ensures HasAccount(v, account, provider) <==> account in answers.clusters && answers.cloudProvider(account) == Ok(provider)
    ensures HasCluster(v, account, cluster) <==> account in answers.clusters && cluster in answers.clusters[account]
  {
    AccountIsShownIff(v, name, DataOf(answers), account, provider);
    ClusterIsShownIff(v, name, DataOf(answers), account, cluster);
  }

  /** A cluster is in a region of the maps exactly when it has an enabled server group there. */
  lemma RegionsAreEnabled(answers: Answers, account: string, cluster: string, region: string)
    requires ProvidersKnown(answers) && account in answers.clusters && cluster in answers.clusters[account]
    ensures region in DataOf(answers)[account].clusters[cluster]
       <==> answers.asgs(account, cluster).Ok? && HasEnabled(answers.asgs(account, cluster).value, region)
  {
    if answers.asgs(account, cluster).Ok? { EnabledRegions(answers.asgs(account, cluster).value, region); }
  }

  ghost predicate HasEnabled(sgs: seq<ServerGroup>, region: string) {
    exists i :: 0 <= i < |sgs| && !sgs[i].disabled && sgs[i].region == region
  }

  lemma {:induction false} EnabledRegions(sgs: seq<ServerGroup>, region: string)
    ensures region in EnabledGroups(sgs) <==> HasEnabled(sgs, region)
    decreases |sgs|
  {
    if sgs != [] {
      var n := |sgs| - 1;
      EnabledRegions(sgs[..n], region);
      if HasEnabled(sgs[..n], region) {
        var i :| 0 <= i < n && !sgs[..n][i].disabled && sgs[..n][i].region == region;
        assert sgs[i].region == region;
      }
      if HasEnabled(sgs, region) {
        var i :| 0 <= i < |sgs| && !sgs[i].disabled && sgs[i].region == region;
        assert i < n ==> sgs[..n][i] == sgs[i];
      }
    }
  }
}
