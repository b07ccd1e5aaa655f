/** The in-memory deployment over nested maps (mock/deployment.go). */
module Mock {
  import opened Domain
  import opened Listing
  import opened Deploy
  import opened Eligible

  /** Looking up what is not there gives an empty map. */
  function ClustersAt(apps: map<string, AppMap>, app: string, account: string): ClusterMap {
    if app in apps && account in apps[app] then apps[app][account].clusters else map[]
  }

  function RegionsAt(apps: map<string, AppMap>, app: string, account: string, cluster: string): RegionMap {
    var clusters := ClustersAt(apps, app, account);
    if cluster in clusters then clusters[cluster] else map[]
  }

  function IdsOf(order: seq<string>, asgs: map<string, seq<string>>): seq<string>
    requires forall i :: 0 <= i < |order| ==> order[i] in asgs
  {
    if order == [] then [] else IdsOf(order[..|order| - 1], asgs) + asgs[order[|order| - 1]]
  }

  /** The ids of all ASGs in some order, with the name of the last one. */
  ghost predicate IsAnswer(asgs: map<string, seq<string>>, answer: (string, seq<string>)) {
    exists order :: Lists(order, asgs.Keys)
      && answer == (if order == [] then "" else order[|order| - 1], IdsOf(order, asgs))
  }

  class MockDeployment {
    const apps: map<string, AppMap>

    constructor (apps: map<string, AppMap>)
      ensures this.apps == apps
    {
      this.apps := apps;
    }

    method GetClusterNames(app: string, account: string) returns (r: Result<seq<string>>)
      ensures r.Ok? && Lists(r.value, ClustersAt(apps, app, account).Keys)
    {
      var names := Range(ClustersAt(apps, app, account).Keys);
      return Ok(names);
    }

    method GetRegionNames(app: string, account: string, cluster: string) returns (r: Result<seq<string>>)
      ensures r.Ok? && Lists(r.value, RegionsAt(apps, app, account, cluster).Keys)
    {
      var names := Range(RegionsAt(apps, app, account, cluster).Keys);
      return Ok(names);
    }

    /** An error unless the cluster is deployed in the region. */
    method GetInstanceIDs(app: string, account: string, provider: string, region: string, cluster: string)
      returns (r: Result<(string, seq<string>)>)
      ensures r.Ok? <==> region in RegionsAt(apps, app, account, cluster)
      ensures r.Ok? ==> IsAnswer(RegionsAt(apps, app, account, cluster)[region], r.value)
    {
      if app !in apps { return Err(NotDeployed); }
      if account !in apps[app] { return Err(NotDeployed); }
      if cluster !in apps[app][account].clusters { return Err(NotDeployed); }
      if region !in apps[app][account].clusters[cluster] { return Err(NotDeployed); }
      var asgs := apps[app][account].clusters[cluster][region];
      var order := Range(asgs.Keys);
      var asg, instances := "", [];
      for i := 0 to |order|
        invariant asg == if i == 0 then "" else order[i - 1]
        invariant instances == IdsOf(order[..i], asgs)
      {
        assert order[..i + 1][..i] == order[..i];
        asg := order[i];
        instances := instances + asgs[asg];
      }
      assert order[..|order|] == order;
      return Ok((asg, instances));
    }
  }

  /** The answers of dep are answers that the in-memory deployment may give. */
  ghost predicate BackedBy(dep: Deployment, apps: map<string, AppMap>) {
    && (forall account :: dep.cloudProvider(account) == Ok("aws"))
    && (forall app, account :: ListsOk(dep.clusterNames(app, account), ClustersAt(apps, app, account).Keys))
    && (forall app, account, cluster ::
          ListsOk(dep.regionNames(app, account, cluster), RegionsAt(apps, app, account, cluster).Keys))
    && (forall app, account, provider, region, cluster ::
          AnswersFor(dep.instanceIDs(app, account, provider, region, cluster), RegionsAt(apps, app, account, cluster), region))
  }

  ghost predicate ListsOk(r: Result<seq<string>>, keys: set<string>) {
    r.Ok? && Lists(r.value, keys)
  }

  ghost predicate AnswersFor(r: Result<(string, seq<string>)>, regions: RegionMap, region: string) {
    (r.Ok? <==> region in regions) && (r.Ok? ==> IsAnswer(regions[region], r.value))
  }

  /** A region without ASGs has no ids, and otherwise the name is that of one of its ASGs. */
  lemma AnswerNamesAnAsg(asgs: map<string, seq<string>>, answer: (string, seq<string>))
    requires IsAnswer(asgs, answer)
    ensures if asgs == map[] then answer == ("", []) else answer.0 in asgs
  {
    var order :| Lists(order, asgs.Keys)
      && answer == (if order == [] then "" else order[|order| - 1], IdsOf(order, asgs));
    if asgs != map[] {
      var k :| k in asgs;
      assert k in order;
    }
  }

  /** Of a single ASG the answer is its name and its ids, in order. */
  lemma AnswerForOneAsg(asg: string, ids: seq<string>, answer: (string, seq<string>))
    requires IsAnswer(map[asg := ids], answer)
    ensures answer == (asg, ids)
  {
    var asgs := map[asg := ids];
    var order :| Lists(order, asgs.Keys)
      && answer == (if order == [] then "" else order[|order| - 1], IdsOf(order, asgs));
    assert asgs.Keys == {asg};
    ListsOne(order, asg);
    assert order[..0] == [];
    assert IdsOf(order, asgs) == IdsOf(order[..0], asgs) + asgs[order[0]];
    assert asgs[order[0]] == ids && [] + ids == ids;
  }
}
