/** The order in which instances are eligible, and that each is so once (eligible/eligible.go:106-238). */
module ListingOrder {
  import opened Domain
  import opened Groups
  import opened Eligible

  /** Places in the listings of clusters, of a cluster's regions and of the ids found there. */
  datatype Spot = Spot(cluster: nat, region: nat, id: nat)

  predicate Before(a: Spot, b: Spot) {
    || a.cluster < b.cluster
    || (a.cluster == b.cluster && a.region < b.region)
    || (a.cluster == b.cluster && a.region == b.region && a.id < b.id)
  }

  /** The site of a listed cluster in one of its listed regions. */
  ghost predicate IsSiteAt(parse: Parser, dep: Deployment, account: string, listed: seq<string>, spot: Spot, s: Site) {
    && spot.cluster < |listed| && s.cluster == listed[spot.cluster]
    && ListingWorks(parse, dep, account, s.cluster)
    && var deployed := dep.regionNames(parse(s.cluster).value.app, account, s.cluster).value;
       spot.region < |deployed| && s.region == deployed[spot.region] && s.app == parse(s.cluster).value.app && s.account == account
  }

  ghost predicate AreSitesAt(parse: Parser, dep: Deployment, account: string, listed: seq<string>, spots: seq<Spot>, sites: seq<Site>) {
    && |spots| == |sites|
    && (forall k :: 0 <= k < |sites| ==> spots[k].id == 0 && IsSiteAt(parse, dep, account, listed, spots[k], sites[k]))
    && (forall k, l :: 0 <= k < l < |spots| ==> Before(spots[k], spots[l]))
  }

  /** Places of the kept regions among the given ones. */
  ghost predicate AreRegionsAt(regions: seq<string>, places: seq<nat>, found: seq<string>) {
    && |places| == |found|
    && (forall k :: 0 <= k < |found| ==> places[k] < |regions| && regions[places[k]] == found[k])
    && (forall k, l :: 0 <= k < l < |places| ==> places[k] < places[l])
  }

  lemma {:induction false} PlacesOfRegions(parse: Parser, group: Group, exs: seq<Exception>, cluster: string, regions: seq<string>) returns (places: seq<nat>)
    ensures AreRegionsAt(regions, places, TargetedRegions(parse, group, exs, cluster, regions))
    decreases |regions|
  {
    places := [];
    if regions != [] {
      var n := |regions| - 1;
      places := PlacesOfRegions(parse, group, exs, cluster, regions[..n]);
      if Targeted(parse, group, exs, cluster, regions[n]) { places := places + [n]; }
    }
  }

  /** The same when only the group's own region is looked at. */
  lemma PlacesInDeployed(parse: Parser, group: Group, exs: seq<Exception>, cluster: string, deployed: seq<string>) returns (places: seq<nat>)
    ensures AreRegionsAt(deployed, places, TargetedRegions(parse, group, exs, cluster, Regions(group, deployed)))
  {
    places := PlacesOfRegions(parse, group, exs, cluster, Regions(group, deployed));
    if group.Region().Some? && places != [] {
      var r :| 0 <= r < |deployed| && deployed[r] == group.region;
      places := [r];
    }
  }

  lemma SitesOfOneCluster(parse: Parser, group: Group, provider: string, dep: Deployment, listed: seq<string>, found: seq<string>, places: seq<nat>)
    returns (spots: seq<Spot>)
    requires listed != [] && ListingWorks(parse, dep, group.account, listed[|listed| - 1])
    requires var cluster := listed[|listed| - 1];
             AreRegionsAt(dep.regionNames(parse(cluster).value.app, group.account, cluster).value, places, found)
    ensures AreSitesAt(parse, dep, group.account, listed, spots, SitesIn(parse, group.account, provider, listed[|listed| - 1], found))
    ensures forall k :: 0 <= k < |spots| ==> spots[k].cluster == |listed| - 1
  {
    var n := |listed| - 1;
    spots := seq(|places|, k requires 0 <= k < |places| => Spot(n, places[k], 0));
  }

  lemma MoreListed(parse: Parser, dep: Deployment, account: string, listed: seq<string>, spots: seq<Spot>, sites: seq<Site>)
    requires listed != [] && AreSitesAt(parse, dep, account, listed[..|listed| - 1], spots, sites)
    ensures AreSitesAt(parse, dep, account, listed, spots, sites)
    ensures forall k :: 0 <= k < |spots| ==> spots[k].cluster < |listed| - 1
  {
    forall k | 0 <= k < |sites| ensures IsSiteAt(parse, dep, account, listed, spots[k], sites[k]) && spots[k].cluster < |listed| - 1 {
      assert IsSiteAt(parse, dep, account, listed[..|listed| - 1], spots[k], sites[k]);
    }
  }

  lemma SitesConcat(parse: Parser, dep: Deployment, account: string, listed: seq<string>, n: nat,
                    spots: seq<Spot>, sites: seq<Site>, spots': seq<Spot>, sites': seq<Site>)
    requires AreSitesAt(parse, dep, account, listed, spots, sites) && AreSitesAt(parse, dep, account, listed, spots', sites')
    requires forall k :: 0 <= k < |spots| ==> spots[k].cluster < n
    requires forall k :: 0 <= k < |spots'| ==> spots'[k].cluster == n
    ensures AreSitesAt(parse, dep, account, listed, spots + spots', sites + sites')
  {
  }

  lemma {:induction false} SpotsOfSites(parse: Parser, group: Group, provider: string, exs: seq<Exception>, dep: Deployment, listed: seq<string>)
    returns (spots: seq<Spot>)
    requires ListingsWork(parse, dep, group.account, listed)
    ensures AreSitesAt(parse, dep, group.account, listed, spots, TargetedSites(parse, group, provider, exs, dep, listed))
    decreases |listed|
  {
    spots := [];
    if listed != [] {
      var n := |listed| - 1;
      var front := SpotsOfSites(parse, group, provider, exs, dep, listed[..n]);
      var deployed := dep.regionNames(parse(listed[n]).value.app, group.account, listed[n]).value;
      var found := TargetedRegions(parse, group, exs, listed[n], Regions(group, deployed));
      var places := PlacesInDeployed(parse, group, exs, listed[n], deployed);
      var more := SitesOfOneCluster(parse, group, provider, dep, listed, found, places);
      var sites := TargetedSites(parse, group, provider, exs, dep, listed[..n]);
      MoreListed(parse, dep, group.account, listed, front, sites);
      SitesConcat(parse, dep, group.account, listed, n, front, sites, more, SitesIn(parse, group.account, provider, listed[n], found));
      spots := front + more;
    }
  }

  // ---------------------------------------------------------------- from sites to instances

  /** The instance is at the site and has the n-th of the ids that are listed there. */
  ghost predicate IsIdOf(parse: Parser, dep: Deployment, s: Site, n: nat, i: Instance) {
    && s == Site(i.app, i.account, i.cloudProvider, i.region, i.cluster)
    && dep.instanceIDs(s.app, s.account, s.provider, s.region, s.cluster).Ok?
    && var (asg, ids) := dep.instanceIDs(s.app, s.account, s.provider, s.region, s.cluster).value;
       n < |ids| && i.id == ids[n] && i.asg == asg && parse(asg).Some? && i.stack == parse(asg).value.stack
  }

  /** Place p of the instances of the sites is the id n of site k. */
  lemma {:induction false} SiteOfInstance(parse: Parser, dep: Deployment, sites: seq<Site>, p: nat) returns (k: nat, n: nat)
    requires AnswersWork(parse, dep, sites) && p < |InstancesAll(parse, dep, sites)|
    ensures k < |sites| && AnswerWorks(parse, dep, sites[k]) && IsIdOf(parse, dep, sites[k], n, InstancesAll(parse, dep, sites)[p])
    ensures p == |InstancesAll(parse, dep, sites[..k])| + n
    decreases |sites|
  {
    var m := |sites| - 1;
    var front := InstancesAll(parse, dep, sites[..m]);
    if p < |front| {
      k, n := SiteOfInstance(parse, dep, sites[..m], p);
      assert sites[..m][..k] == sites[..k];
    } else {
      k, n := m, p - |front|;
    }
  }

  lemma {:induction false} MoreSitesMoreInstances(parse: Parser, dep: Deployment, sites: seq<Site>, k: nat, l: nat)
    requires AnswersWork(parse, dep, sites) && k < l <= |sites|
    ensures |InstancesAll(parse, dep, sites[..k])| + |InstancesAt(parse, dep, sites[k])| <= |InstancesAll(parse, dep, sites[..l])|
    decreases l
  {
    assert sites[..l][..l - 1] == sites[..l - 1];
    assert AnswersWork(parse, dep, sites[..l]);
    if k < l - 1 { MoreSitesMoreInstances(parse, dep, sites, k, l - 1); }
  }

  // ---------------------------------------------------------------- main results

  ghost predicate IsListedAt(parse: Parser, group: Group, dep: Deployment, spot: Spot, i: Instance) {
    && dep.clusterNames(group.app, group.account).Ok?
    && var site := Site(i.app, i.account, i.cloudProvider, i.region, i.cluster);
    && IsSiteAt(parse, dep, group.account, dep.clusterNames(group.app, group.account).value, spot, site)
    && AnswerWorks(parse, dep, site) && IsIdOf(parse, dep, site, spot.id, i)
  }

  /** Of two eligible instances the earlier one comes earlier in the listing: of clusters, else of
      the cluster's regions, else of the ids. */
  lemma EligibleInListingOrder(parse: Parser, group: Group, exs: seq<Exception>, dep: Deployment, p: nat, q: nat) returns (a: Spot, b: Spot)
    requires Answers(parse, group, exs, dep) && p < q < |EligibleInstances(parse, group, exs, dep)|
    ensures IsListedAt(parse, group, dep, a, EligibleInstances(parse, group, exs, dep)[p])
    ensures IsListedAt(parse, group, dep, b, EligibleInstances(parse, group, exs, dep)[q])
    ensures Before(a, b)
  {
    var provider, listed := dep.cloudProvider(group.account).value, dep.clusterNames(group.app, group.account).value;
    var sites := TargetedSites(parse, group, provider, exs, dep, listed);
    var spots := SpotsOfSites(parse, group, provider, exs, dep, listed);
    var k, n := SiteOfInstance(parse, dep, sites, p);
    var l, m := SiteOfInstance(parse, dep, sites, q);
    if l < k { MoreSitesMoreInstances(parse, dep, sites, l, k); }
    assert k < l ==> Before(spots[k], spots[l]);
    a, b := spots[k].(id := n), spots[l].(id := m);
    ListedAt(parse, group, exs, dep, spots, k, n, p);
    ListedAt(parse, group, exs, dep, spots, l, m, q);
  }

  lemma ListedAt(parse: Parser, group: Group, exs: seq<Exception>, dep: Deployment, spots: seq<Spot>, k: nat, n: nat, p: nat)
    requires Answers(parse, group, exs, dep) && p < |EligibleInstances(parse, group, exs, dep)|
    requires var listed := dep.clusterNames(group.app, group.account).value;
             var sites := TargetedSites(parse, group, dep.cloudProvider(group.account).value, exs, dep, listed);
             && AreSitesAt(parse, dep, group.account, listed, spots, sites)
             && k < |sites| && AnswerWorks(parse, dep, sites[k])
             && IsIdOf(parse, dep, sites[k], n, EligibleInstances(parse, group, exs, dep)[p])
    ensures IsListedAt(parse, group, dep, spots[k].(id := n), EligibleInstances(parse, group, exs, dep)[p])
  {
    var listed := dep.clusterNames(group.app, group.account).value;
    var s := TargetedSites(parse, group, dep.cloudProvider(group.account).value, exs, dep, listed)[k];
    var i := EligibleInstances(parse, group, exs, dep)[p];
    assert IsSiteAt(parse, dep, group.account, listed, spots[k], s);
    assert s == Site(i.app, i.account, i.cloudProvider, i.region, i.cluster);
  }

  ghost predicate NoRepeats<T>(xs: seq<T>) {
    forall k, l :: 0 <= k < l < |xs| ==> xs[k] != xs[l]
  }

  /** The clusters, the regions of each and the ids in each are listed without repeats. */
  ghost predicate ListingsAreSets(dep: Deployment) {
    && (forall app, account :: dep.clusterNames(app, account).Ok? ==> NoRepeats(dep.clusterNames(app, account).value))
    && (forall app, account, cluster ::
          dep.regionNames(app, account, cluster).Ok? ==> NoRepeats(dep.regionNames(app, account, cluster).value))
    && (forall site :: Answer(dep, site).Ok? ==> NoRepeats(Answer(dep, site).value.1))
  }

  /** An instance has one place in listings without repeats. */
  lemma OnePlaceEach(parse: Parser, group: Group, dep: Deployment, a: Spot, b: Spot, i: Instance, j: Instance)
    requires ListingsAreSets(dep) && IsListedAt(parse, group, dep, a, i) && IsListedAt(parse, group, dep, b, j)
    requires i.cluster == j.cluster && i.region == j.region && i.id == j.id && i.cloudProvider == j.cloudProvider
    ensures a == b
  {
    var listed := dep.clusterNames(group.app, group.account).value;
    var deployed := dep.regionNames(parse(i.cluster).value.app, group.account, i.cluster).value;
    var site := Site(i.app, i.account, i.cloudProvider, i.region, i.cluster);
    assert site == Site(j.app, j.account, j.cloudProvider, j.region, j.cluster);
    SamePlace(listed, a.cluster, b.cluster);
    SamePlace(deployed, a.region, b.region);
    assert Answer(dep, site).Ok?;
    SamePlace(Answer(dep, site).value.1, a.id, b.id);
  }

  lemma SamePlace<T>(xs: seq<T>, k: nat, l: nat)
    requires NoRepeats(xs) && k < |xs| && l < |xs| && xs[k] == xs[l]
    ensures k == l
  {
  }

  /** In listings without repeats every instance is eligible once. */
  lemma EligibleOnceEach(parse: Parser, group: Group, exs: seq<Exception>, dep: Deployment, p: nat, q: nat)
    requires Answers(parse, group, exs, dep) && ListingsAreSets(dep) && p < q < |EligibleInstances(parse, group, exs, dep)|
    ensures EligibleInstances(parse, group, exs, dep)[p] != EligibleInstances(parse, group, exs, dep)[q]
  {
    var es := EligibleInstances(parse, group, exs, dep);
    var a, b := EligibleInListingOrder(parse, group, exs, dep, p, q);
    if es[p] == es[q] {
      OnePlaceEach(parse, group, dep, a, b, es[p], es[q]);
    }
  }
}
