/** However an app is grouped, the same instances are eligible (eligible/eligible.go over
    deploy/eligible_instance_groups.go, on the deployment of mock/deployment.go). */
module Conservation {
  import opened Domain
  import opened Listing
  import opened Groups
  import opened Deploy
  import opened AppTree
  import opened InstanceGroups
  import opened Eligible
  import opened Mock
  import opened Partition

  /** A cluster of an account in one region. */
  datatype Place = Place(account: string, cluster: string, region: string)

  function SiteOf(parse: Parser, dep: Deployment, p: Place): Site
    requires parse(p.cluster).Some? && dep.cloudProvider(p.account).Ok?
  {
    Site(parse(p.cluster).value.app, p.account, dep.cloudProvider(p.account).value, p.region, p.cluster)
  }

  /** The answers for app `name` are there, its clusters' names parse to it and its ASGs' names parse. */
  ghost predicate Ready(parse: Parser, name: string, dep: Deployment, data: AppMap) {
    && (forall a :: a in data ==> dep.cloudProvider(a).Ok? && ListsOk(dep.clusterNames(name, a), data[a].clusters.Keys))
    && (forall a, c :: a in data && c in data[a].clusters ==> ClusterReady(parse, name, dep, a, c, data[a].clusters[c]))
  }

  ghost predicate ClusterReady(parse: Parser, name: string, dep: Deployment, account: string, cluster: string, regions: RegionMap) {
    && parse(cluster).Some? && parse(cluster).value.app == name
    && dep.cloudProvider(account).Ok?
    && ListsOk(dep.regionNames(name, account, cluster), regions.Keys)
    && (forall r :: r in regions ==> PlaceReady(parse, dep, Place(account, cluster, r), regions[r]))
  }

  ghost predicate PlaceReady(parse: Parser, dep: Deployment, p: Place, asgs: map<string, seq<string>>) {
    && parse(p.cluster).Some? && dep.cloudProvider(p.account).Ok?
    && AnswerWorks(parse, dep, SiteOf(parse, dep, p))
    && (asgs == map[] ==> Answer(dep, SiteOf(parse, dep, p)).value.1 == [])
  }

  /** The names of the app's clusters parse to the app's name and those of its ASGs parse. */
  ghost predicate NamesParse(parse: Parser, name: string, data: AppMap) {
    && (forall a, c :: a in data && c in data[a].clusters ==> parse(c).Some? && parse(c).value.app == name)
    && (forall a, c, r, n ::
          (a in data && c in data[a].clusters && r in data[a].clusters[c] && n in data[a].clusters[c][r]) ==> parse(n).Some?)
  }

  /** An in-memory deployment whose names parse is ready. */
  lemma BackedIsReady(parse: Parser, name: string, dep: Deployment, apps: map<string, AppMap>)
    requires BackedBy(dep, apps) && name in apps && NamesParse(parse, name, apps[name])
    ensures Ready(parse, name, dep, apps[name])
  {
    var data := apps[name];
    forall a | a in data ensures dep.cloudProvider(a).Ok? && ListsOk(dep.clusterNames(name, a), data[a].clusters.Keys) {
      assert ListsOk(dep.clusterNames(name, a), ClustersAt(apps, name, a).Keys);
    }
    forall a, c | a in data && c in data[a].clusters ensures ClusterReady(parse, name, dep, a, c, data[a].clusters[c]) {
      assert ListsOk(dep.regionNames(name, a, c), RegionsAt(apps, name, a, c).Keys);
      forall r | r in data[a].clusters[c] ensures PlaceReady(parse, dep, Place(a, c, r), data[a].clusters[c][r]) {
        var asgs := data[a].clusters[c][r];
        assert AnswersFor(dep.instanceIDs(name, a, "aws", r, c), RegionsAt(apps, name, a, c), r);
        AnswerNamesAnAsg(asgs, dep.instanceIDs(name, a, "aws", r, c).value);
      }
    }
  }

  // ---------------------------------------------------------------- sums over places

  ghost predicate AllReady(parse: Parser, dep: Deployment, places: seq<Place>) {
    forall i :: 0 <= i < |places| ==> IsReady(parse, dep, places[i])
  }

  ghost predicate IsReady(parse: Parser, dep: Deployment, p: Place) {
    parse(p.cluster).Some? && dep.cloudProvider(p.account).Ok? && AnswerWorks(parse, dep, SiteOf(parse, dep, p))
  }

  ghost function At(parse: Parser, dep: Deployment, p: Place): multiset<Domain.Instance>
    requires IsReady(parse, dep, p)
  {
    multiset(InstancesAt(parse, dep, SiteOf(parse, dep, p)))
  }

  /** What a group takes from a place. */
  ghost function Share(parse: Parser, dep: Deployment, exs: seq<Exception>, g: Group, p: Place): multiset<Domain.Instance>
    requires IsReady(parse, dep, p)
  {
    if p.account == g.account && Targeted(parse, g, exs, p.cluster, p.region) then At(parse, dep, p) else multiset{}
  }

  ghost function Row(parse: Parser, dep: Deployment, exs: seq<Exception>, g: Group, places: seq<Place>): multiset<Domain.Instance>
    requires AllReady(parse, dep, places)
  {
    if places == [] then multiset{}
    else Row(parse, dep, exs, g, places[..|places| - 1]) + Share(parse, dep, exs, g, places[|places| - 1])
  }

  ghost function Column(parse: Parser, dep: Deployment, exs: seq<Exception>, groups: seq<Group>, p: Place): multiset<Domain.Instance>
    requires IsReady(parse, dep, p)
  {
    if groups == [] then multiset{}
    else Column(parse, dep, exs, groups[..|groups| - 1], p) + Share(parse, dep, exs, groups[|groups| - 1], p)
  }

  ghost function Rows(parse: Parser, dep: Deployment, exs: seq<Exception>, groups: seq<Group>, places: seq<Place>): multiset<Domain.Instance>
    requires AllReady(parse, dep, places)
  {
    if groups == [] then multiset{}
    else Rows(parse, dep, exs, groups[..|groups| - 1], places) + Row(parse, dep, exs, groups[|groups| - 1], places)
  }

  ghost function Columns(parse: Parser, dep: Deployment, exs: seq<Exception>, groups: seq<Group>, places: seq<Place>): multiset<Domain.Instance>
    requires AllReady(parse, dep, places)
  {
    if places == [] then multiset{}
    else Columns(parse, dep, exs, groups, places[..|places| - 1]) + Column(parse, dep, exs, groups, places[|places| - 1])
  }

  lemma {:induction false} ColumnsAddRow(parse: Parser, dep: Deployment, exs: seq<Exception>, groups: seq<Group>, places: seq<Place>)
    requires AllReady(parse, dep, places) && groups != []
    ensures Columns(parse, dep, exs, groups, places)
         == Columns(parse, dep, exs, groups[..|groups| - 1], places) + Row(parse, dep, exs, groups[|groups| - 1], places)
    decreases |places|
  {
    if places != [] { ColumnsAddRow(parse, dep, exs, groups, places[..|places| - 1]); }
  }

  lemma {:induction false} NoColumns(parse: Parser, dep: Deployment, exs: seq<Exception>, places: seq<Place>)
    requires AllReady(parse, dep, places)
    ensures Columns(parse, dep, exs, [], places) == multiset{}
    decreases |places|
  {
    if places != [] { NoColumns(parse, dep, exs, places[..|places| - 1]); }
  }

  /** Summing group by group or place by place gives the same. */
  lemma {:induction false} RowsAreColumns(parse: Parser, dep: Deployment, exs: seq<Exception>, groups: seq<Group>, places: seq<Place>)
    requires AllReady(parse, dep, places)
    ensures Rows(parse, dep, exs, groups, places) == Columns(parse, dep, exs, groups, places)
    decreases |groups|
  {
    if groups == [] {
      NoColumns(parse, dep, exs, places);
    } else {
      ColumnsAddRow(parse, dep, exs, groups, places);
      RowsAreColumns(parse, dep, exs, groups[..|groups| - 1], places);
    }
  }

  // ---------------------------------------------------------------- one place, many groups

  /** Whether instances of the place may be terminated at all. */
  predicate Exposed(parse: Parser, exs: seq<Exception>, p: Place)
    requires parse(p.cluster).Some?
  {
    !IsException(exs, p.account, parse(p.cluster).value, p.region) && !IsNeverEligible(p.cluster)
  }

  lemma ShareOf(parse: Parser, dep: Deployment, exs: seq<Exception>, g: Group, p: Place)
    requires IsReady(parse, dep, p)
    ensures Share(parse, dep, exs, g, p)
         == if Contains(parse, g, p.account, p.region, p.cluster) && Exposed(parse, exs, p) then At(parse, dep, p) else multiset{}
  {
  }

  lemma {:induction false} NoShare(parse: Parser, dep: Deployment, exs: seq<Exception>, groups: seq<Group>, p: Place)
    requires IsReady(parse, dep, p)
    requires forall i :: 0 <= i < |groups| ==> Share(parse, dep, exs, groups[i], p) == multiset{}
    ensures Column(parse, dep, exs, groups, p) == multiset{}
    decreases |groups|
  {
    if groups != [] { NoShare(parse, dep, exs, groups[..|groups| - 1], p); }
  }

  lemma {:induction false} OneShare(parse: Parser, dep: Deployment, exs: seq<Exception>, groups: seq<Group>, p: Place, k: nat)
    requires IsReady(parse, dep, p) && k < |groups|
    requires forall i :: 0 <= i < |groups| && i != k ==> Share(parse, dep, exs, groups[i], p) == multiset{}
    ensures Column(parse, dep, exs, groups, p) == Share(parse, dep, exs, groups[k], p)
    decreases |groups|
  {
    var n := |groups| - 1;
    if k == n {
      NoShare(parse, dep, exs, groups[..n], p);
    } else {
      OneShare(parse, dep, exs, groups[..n], p, k);
    }
  }

  /** Of groups exactly one of which contains the place, that one takes all that is exposed. */
  lemma OneContainerTakesAll(parse: Parser, dep: Deployment, exs: seq<Exception>, groups: seq<Group>, p: Place, k: nat)
    requires IsReady(parse, dep, p)
    requires k < |groups| && Contains(parse, groups[k], p.account, p.region, p.cluster)
    requires forall i :: 0 <= i < |groups| && Contains(parse, groups[i], p.account, p.region, p.cluster) ==> i == k
    ensures Column(parse, dep, exs, groups, p) == if Exposed(parse, exs, p) then At(parse, dep, p) else multiset{}
  {
    forall i | 0 <= i < |groups| && i != k ensures Share(parse, dep, exs, groups[i], p) == multiset{} {
      ShareOf(parse, dep, exs, groups[i], p);
    }
    ShareOf(parse, dep, exs, groups[k], p);
    OneShare(parse, dep, exs, groups, p, k);
  }

  // ---------------------------------------------------------------- all places of an app

  ghost function ClusterPlaces(account: string, cluster: string, regions: seq<string>): (ps: seq<Place>)
    ensures |ps| == |regions| && forall i :: 0 <= i < |ps| ==> ps[i] == Place(account, cluster, regions[i])
  {
    seq(|regions|, i requires 0 <= i < |regions| => Place(account, cluster, regions[i]))
  }

  /** The places of the listed clusters, in listing order. */
  ghost function AccountPlaces(dep: Deployment, name: string, account: string, listed: seq<string>): seq<Place>
    requires forall i :: 0 <= i < |listed| ==> dep.regionNames(name, account, listed[i]).Ok?
  {
    if listed == [] then []
    else
      var cluster := listed[|listed| - 1];
      AccountPlaces(dep, name, account, listed[..|listed| - 1])
      + ClusterPlaces(account, cluster, dep.regionNames(name, account, cluster).value)
  }

  ghost predicate Listed(dep: Deployment, name: string, account: string) {
    && dep.clusterNames(name, account).Ok?
    && forall i :: 0 <= i < |dep.clusterNames(name, account).value| ==>
         dep.regionNames(name, account, dep.clusterNames(name, account).value[i]).Ok?
  }

  ghost function PlacesOf(dep: Deployment, name: string, account: string): seq<Place>
    requires Listed(dep, name, account)
  {
    AccountPlaces(dep, name, account, dep.clusterNames(name, account).value)
  }

  ghost function AllPlaces(dep: Deployment, name: string, accounts: seq<string>): seq<Place>
    requires forall i :: 0 <= i < |accounts| ==> Listed(dep, name, accounts[i])
  {
    if accounts == [] then []
    else
      AllPlaces(dep, name, accounts[..|accounts| - 1]) + PlacesOf(dep, name, accounts[|accounts| - 1])
  }

  lemma {:induction false} RowConcat(parse: Parser, dep: Deployment, exs: seq<Exception>, g: Group, ps: seq<Place>, qs: seq<Place>)
    requires AllReady(parse, dep, ps) && AllReady(parse, dep, qs)
    ensures AllReady(parse, dep, ps + qs)
    ensures Row(parse, dep, exs, g, ps + qs) == Row(parse, dep, exs, g, ps) + Row(parse, dep, exs, g, qs)
    decreases |qs|
  {
    assert forall i :: 0 <= i < |ps + qs| ==> IsReady(parse, dep, (ps + qs)[i]);
    if qs == [] {
      assert ps + qs == ps;
    } else {
      assert (ps + qs)[..|ps + qs| - 1] == ps + qs[..|qs| - 1];
      RowConcat(parse, dep, exs, g, ps, qs[..|qs| - 1]);
    }
  }

  lemma {:induction false} RowOfOtherAccount(parse: Parser, dep: Deployment, exs: seq<Exception>, g: Group, places: seq<Place>)
    requires AllReady(parse, dep, places)
    requires forall i :: 0 <= i < |places| ==> places[i].account != g.account
    ensures Row(parse, dep, exs, g, places) == multiset{}
    decreases |places|
  {
    if places != [] { RowOfOtherAccount(parse, dep, exs, g, places[..|places| - 1]); }
  }

  lemma AnswersWorkConcat(parse: Parser, dep: Deployment, a: seq<Site>, b: seq<Site>)
    requires AnswersWork(parse, dep, a) && AnswersWork(parse, dep, b)
    ensures AnswersWork(parse, dep, a + b)
  {
    forall i | 0 <= i < |a + b| ensures AnswerWorks(parse, dep, (a + b)[i]) {
      if i < |a| { assert AnswerWorks(parse, dep, a[i]); } else { assert AnswerWorks(parse, dep, b[i - |a|]); }
    }
  }

  lemma {:induction false} InstancesAllConcat(parse: Parser, dep: Deployment, a: seq<Site>, b: seq<Site>)
    requires AnswersWork(parse, dep, a) && AnswersWork(parse, dep, b) && AnswersWork(parse, dep, a + b)
    ensures InstancesAll(parse, dep, a + b) == InstancesAll(parse, dep, a) + InstancesAll(parse, dep, b)
    decreases |b|
  {
    if b == [] {
      assert a + b == a;
    } else {
      var front, last := b[..|b| - 1], b[|b| - 1];
      assert a + b == a + front + [last] && b == front + [last];
      AnswersWorkConcat(parse, dep, a, front);
      InstancesAllConcat(parse, dep, a, front);
      InstancesAllAdd(parse, dep, a + front, last);
      Associate(InstancesAll(parse, dep, a), InstancesAll(parse, dep, front), InstancesAt(parse, dep, last));
    }
  }

  lemma Associate<T>(a: seq<T>, b: seq<T>, c: seq<T>)
    ensures a + b + c == a + (b + c)
  {
  }

  lemma InstancesAllAdd(parse: Parser, dep: Deployment, sites: seq<Site>, s: Site)
    requires AnswersWork(parse, dep, sites) && AnswerWorks(parse, dep, s)
    ensures AnswersWork(parse, dep, sites + [s])
    ensures InstancesAll(parse, dep, sites + [s]) == InstancesAll(parse, dep, sites) + InstancesAt(parse, dep, s)
  {
    AnswersWorkConcat(parse, dep, sites, [s]);
    assert (sites + [s])[..|sites + [s]| - 1] == sites;
  }

  ghost function TargetedSitesIn(parse: Parser, dep: Deployment, exs: seq<Exception>, g: Group, cluster: string, regions: seq<string>): seq<Site>
    requires parse(cluster).Some? && dep.cloudProvider(g.account).Ok?
  {
    SitesIn(parse, g.account, dep.cloudProvider(g.account).value, cluster, TargetedRegions(parse, g, exs, cluster, regions))
  }

  lemma TargetedSitesInAdd(parse: Parser, dep: Deployment, exs: seq<Exception>, g: Group, cluster: string, regions: seq<string>)
    requires parse(cluster).Some? && dep.cloudProvider(g.account).Ok? && regions != []
    ensures var last := regions[|regions| - 1];
            TargetedSitesIn(parse, dep, exs, g, cluster, regions)
            == TargetedSitesIn(parse, dep, exs, g, cluster, regions[..|regions| - 1])
               + if Targeted(parse, g, exs, cluster, last) then [SiteOf(parse, dep, Place(g.account, cluster, last))] else []
  {
  }

  lemma ClusterPlacesAdd(account: string, cluster: string, regions: seq<string>)
    requires regions != []
    ensures ClusterPlaces(account, cluster, regions)
         == ClusterPlaces(account, cluster, regions[..|regions| - 1]) + [Place(account, cluster, regions[|regions| - 1])]
  {
  }

  lemma RowAdd(parse: Parser, dep: Deployment, exs: seq<Exception>, g: Group, places: seq<Place>, p: Place)
    requires AllReady(parse, dep, places + [p])
    ensures AllReady(parse, dep, places) && IsReady(parse, dep, p)
    ensures Row(parse, dep, exs, g, places + [p]) == Row(parse, dep, exs, g, places) + Share(parse, dep, exs, g, p)
  {
    assert (places + [p])[..|places + [p]| - 1] == places;
    assert IsReady(parse, dep, (places + [p])[|places|]);
    assert forall i :: 0 <= i < |places| ==> (places + [p])[i] == places[i];
  }

  ghost predicate Takes(parse: Parser, dep: Deployment, exs: seq<Exception>, g: Group, sites: seq<Site>, places: seq<Place>) {
    && AnswersWork(parse, dep, sites) && AllReady(parse, dep, places)
    && multiset(InstancesAll(parse, dep, sites)) == Row(parse, dep, exs, g, places)
  }

  lemma TakesAdd(parse: Parser, dep: Deployment, exs: seq<Exception>, g: Group, sites: seq<Site>, places: seq<Place>, p: Place)
    requires Takes(parse, dep, exs, g, sites, places) && p.account == g.account && AllReady(parse, dep, places + [p])
    requires IsReady(parse, dep, p)
    ensures Takes(parse, dep, exs, g,
                  sites + if Targeted(parse, g, exs, p.cluster, p.region) then [SiteOf(parse, dep, p)] else [], places + [p])
  {
    RowAdd(parse, dep, exs, g, places, p);
    if Targeted(parse, g, exs, p.cluster, p.region) {
      InstancesAllAdd(parse, dep, sites, SiteOf(parse, dep, p));
    } else {
      assert sites + [] == sites;
    }
  }

  lemma TakesConcat(parse: Parser, dep: Deployment, exs: seq<Exception>, g: Group, sites: seq<Site>, places: seq<Place>,
                    more: seq<Site>, others: seq<Place>)
    requires Takes(parse, dep, exs, g, sites, places) && Takes(parse, dep, exs, g, more, others)
    ensures Takes(parse, dep, exs, g, sites + more, places + others)
  {
    AnswersWorkConcat(parse, dep, sites, more);
    InstancesAllConcat(parse, dep, sites, more);
    RowConcat(parse, dep, exs, g, places, others);
  }

  /** In one cluster a group takes the instances of its targeted regions. */
  lemma {:induction false} TakesInCluster(parse: Parser, dep: Deployment, exs: seq<Exception>, g: Group, cluster: string, regions: seq<string>)
    requires parse(cluster).Some? && dep.cloudProvider(g.account).Ok?
    requires AllReady(parse, dep, ClusterPlaces(g.account, cluster, regions))
    ensures Takes(parse, dep, exs, g, TargetedSitesIn(parse, dep, exs, g, cluster, regions), ClusterPlaces(g.account, cluster, regions))
    decreases |regions|
  {
    if regions != [] {
      var front, p := regions[..|regions| - 1], Place(g.account, cluster, regions[|regions| - 1]);
      ClusterPlacesAdd(g.account, cluster, regions);
      RowAdd(parse, dep, exs, g, ClusterPlaces(g.account, cluster, front), p);
      TakesInCluster(parse, dep, exs, g, cluster, front);
      TargetedSitesInAdd(parse, dep, exs, g, cluster, regions);
      TakesAdd(parse, dep, exs, g, TargetedSitesIn(parse, dep, exs, g, cluster, front), ClusterPlaces(g.account, cluster, front), p);
    }
  }

  lemma TargetedSitesAdd(parse: Parser, dep: Deployment, exs: seq<Exception>, g: Group, listed: seq<string>)
    requires listed != [] && ListingsWork(parse, dep, g.account, listed) && dep.cloudProvider(g.account).Ok?
    requires var cluster := listed[|listed| - 1];
             var deployed := dep.regionNames(parse(cluster).value.app, g.account, cluster).value;
             g.Region().Some? ==> multiset(deployed)[g.region] <= 1
    ensures var provider := dep.cloudProvider(g.account).value;
            var cluster := listed[|listed| - 1];
            var deployed := dep.regionNames(parse(cluster).value.app, g.account, cluster).value;
            TargetedSites(parse, g, provider, exs, dep, listed)
            == TargetedSites(parse, g, provider, exs, dep, listed[..|listed| - 1])
               + TargetedSitesIn(parse, dep, exs, g, cluster, deployed)
  {
    var cluster := listed[|listed| - 1];
    PrefilterAgreesIff(parse, g, exs, cluster, dep.regionNames(parse(cluster).value.app, g.account, cluster).value);
  }

  /** The clusters are listed as in the maps and all their places are ready. */
  ghost predicate ClustersReady(parse: Parser, name: string, dep: Deployment, account: string, listed: seq<string>, clusters: ClusterMap) {
    forall i :: 0 <= i < |listed| ==>
      (listed[i] in clusters && ClusterReady(parse, name, dep, account, listed[i], clusters[listed[i]]))
  }

  lemma ReadyPlaces(parse: Parser, name: string, dep: Deployment, account: string, cluster: string, regions: RegionMap)
    requires ClusterReady(parse, name, dep, account, cluster, regions)
    ensures var deployed := dep.regionNames(name, account, cluster).value;
            AllReady(parse, dep, ClusterPlaces(account, cluster, deployed))
            && forall r :: multiset(deployed)[r] <= 1
  {
    var deployed := dep.regionNames(name, account, cluster).value;
    var places := ClusterPlaces(account, cluster, deployed);
    forall i | 0 <= i < |places| ensures IsReady(parse, dep, places[i]) {
      assert deployed[i] in regions.Keys;
      assert PlaceReady(parse, dep, Place(account, cluster, deployed[i]), regions[deployed[i]]);
    }
    ListedOnce(deployed, regions.Keys);
  }

  lemma ListedOnce(ks: seq<string>, keys: set<string>)
    requires Lists(ks, keys)
    ensures forall k :: multiset(ks)[k] <= 1
  {
    forall k ensures multiset(ks)[k] <= 1 {
      ListsEachOnce(ks, keys, k);
    }
  }

  /** In one account a group takes what is eligible for it among the listed clusters. */
  lemma {:induction false} TakesInAccount(parse: Parser, name: string, dep: Deployment, exs: seq<Exception>, g: Group, listed: seq<string>, clusters: ClusterMap)
    requires dep.cloudProvider(g.account).Ok? && ClustersReady(parse, name, dep, g.account, listed, clusters)
    ensures ListingsWork(parse, dep, g.account, listed)
    ensures forall i :: 0 <= i < |listed| ==> dep.regionNames(name, g.account, listed[i]).Ok?
    ensures Takes(parse, dep, exs, g, TargetedSites(parse, g, dep.cloudProvider(g.account).value, exs, dep, listed),
                  AccountPlaces(dep, name, g.account, listed))
    decreases |listed|
  {
    if listed != [] {
      var front, cluster := listed[..|listed| - 1], listed[|listed| - 1];
      TakesInAccount(parse, name, dep, exs, g, front, clusters);
      assert ClusterReady(parse, name, dep, g.account, cluster, clusters[cluster]);
      ReadyPlaces(parse, name, dep, g.account, cluster, clusters[cluster]);
      var deployed := dep.regionNames(name, g.account, cluster).value;
      TakesInCluster(parse, dep, exs, g, cluster, deployed);
      ListingExtends(parse, dep, g.account, listed);
      TargetedSitesAdd(parse, dep, exs, g, listed);
      TakesConcat(parse, dep, exs, g,
                  TargetedSites(parse, g, dep.cloudProvider(g.account).value, exs, dep, front), AccountPlaces(dep, name, g.account, front),
                  TargetedSitesIn(parse, dep, exs, g, cluster, deployed), ClusterPlaces(g.account, cluster, deployed));
    }
  }

  lemma ListingExtends(parse: Parser, dep: Deployment, account: string, listed: seq<string>)
    requires listed != [] && ListingsWork(parse, dep, account, listed[..|listed| - 1])
    requires ListingWorks(parse, dep, account, listed[|listed| - 1])
    ensures ListingsWork(parse, dep, account, listed)
  {
    forall i | 0 <= i < |listed| ensures ListingWorks(parse, dep, account, listed[i]) {
      if i < |listed| - 1 { assert listed[..|listed| - 1][i] == listed[i]; }
    }
  }

  // ---------------------------------------------------------------- all groups of an app

  ghost predicate AllListed(dep: Deployment, name: string, accounts: seq<string>) {
    forall i :: 0 <= i < |accounts| ==> Listed(dep, name, accounts[i])
  }

  /** The place is one of the maps, whether or not any ASG is there. */
  ghost predicate Mapped(data: AppMap, p: Place) {
    p.account in data && p.cluster in data[p.account].clusters && p.region in data[p.account].clusters[p.cluster]
  }

  ghost predicate AllMapped(data: AppMap, places: seq<Place>) {
    forall i :: 0 <= i < |places| ==> Mapped(data, places[i])
  }

  lemma MappedIsReady(parse: Parser, name: string, dep: Deployment, data: AppMap, p: Place)
    requires Ready(parse, name, dep, data) && Mapped(data, p)
    ensures IsReady(parse, dep, p) && parse(p.cluster).value.app == name
    ensures data[p.account].clusters[p.cluster][p.region] == map[] ==> At(parse, dep, p) == multiset{}
  {
    assert ClusterReady(parse, name, dep, p.account, p.cluster, data[p.account].clusters[p.cluster]);
    assert PlaceReady(parse, dep, p, data[p.account].clusters[p.cluster][p.region]);
  }

  lemma AllMappedIsReady(parse: Parser, name: string, dep: Deployment, data: AppMap, places: seq<Place>)
    requires Ready(parse, name, dep, data) && AllMapped(data, places)
    ensures AllReady(parse, dep, places)
  {
    forall i | 0 <= i < |places| ensures IsReady(parse, dep, places[i]) {
      MappedIsReady(parse, name, dep, data, places[i]);
    }
  }

  lemma ReadyIsListed(parse: Parser, name: string, dep: Deployment, data: AppMap, account: string)
    requires Ready(parse, name, dep, data) && account in data
    ensures dep.cloudProvider(account).Ok? && Listed(dep, name, account)
    ensures ClustersReady(parse, name, dep, account, dep.clusterNames(name, account).value, data[account].clusters)
  {
    var listed := dep.clusterNames(name, account).value;
    forall i | 0 <= i < |listed|
      ensures listed[i] in data[account].clusters
      ensures ClusterReady(parse, name, dep, account, listed[i], data[account].clusters[listed[i]])
    {
      assert listed[i] in data[account].clusters.Keys;
    }
  }

  lemma {:induction false} AccountPlacesAreMapped(parse: Parser, name: string, dep: Deployment, data: AppMap, account: string, listed: seq<string>)
    requires account in data && ClustersReady(parse, name, dep, account, listed, data[account].clusters)
    requires forall i :: 0 <= i < |listed| ==> dep.regionNames(name, account, listed[i]).Ok?
    ensures var places := AccountPlaces(dep, name, account, listed);
            AllMapped(data, places) && forall i :: 0 <= i < |places| ==> places[i].account == account
    decreases |listed|
  {
    if listed != [] {
      var cluster := listed[|listed| - 1];
      AccountPlacesAreMapped(parse, name, dep, data, account, listed[..|listed| - 1]);
      var deployed := dep.regionNames(name, account, cluster).value;
      assert ClusterReady(parse, name, dep, account, cluster, data[account].clusters[cluster]);
      assert forall i :: 0 <= i < |deployed| ==> deployed[i] in data[account].clusters[cluster].Keys;
      assert AllMapped(data, ClusterPlaces(account, cluster, deployed));
    }
  }

  lemma PlacesOfAreMapped(parse: Parser, name: string, dep: Deployment, data: AppMap, account: string)
    requires Ready(parse, name, dep, data) && account in data
    ensures Listed(dep, name, account)
    ensures AllMapped(data, PlacesOf(dep, name, account)) && AllReady(parse, dep, PlacesOf(dep, name, account))
    ensures forall i :: 0 <= i < |PlacesOf(dep, name, account)| ==> PlacesOf(dep, name, account)[i].account == account
  {
    ReadyIsListed(parse, name, dep, data, account);
    AccountPlacesAreMapped(parse, name, dep, data, account, dep.clusterNames(name, account).value);
    AllMappedIsReady(parse, name, dep, data, PlacesOf(dep, name, account));
  }

  lemma {:induction false} AllPlacesAreMapped(parse: Parser, name: string, dep: Deployment, data: AppMap, accounts: seq<string>)
    requires Ready(parse, name, dep, data) && AllIn(accounts, data)
    ensures AllListed(dep, name, accounts)
    ensures AllMapped(data, AllPlaces(dep, name, accounts)) && AllReady(parse, dep, AllPlaces(dep, name, accounts))
    decreases |accounts|
  {
    forall i | 0 <= i < |accounts| ensures Listed(dep, name, accounts[i]) {
      ReadyIsListed(parse, name, dep, data, accounts[i]);
    }
    if accounts != [] {
      AllPlacesAreMapped(parse, name, dep, data, accounts[..|accounts| - 1]);
      PlacesOfAreMapped(parse, name, dep, data, accounts[|accounts| - 1]);
    }
    AllMappedIsReady(parse, name, dep, data, AllPlaces(dep, name, accounts));
  }

  ghost predicate AllIn(accounts: seq<string>, data: AppMap) {
    forall i :: 0 <= i < |accounts| ==> accounts[i] in data
  }

  ghost predicate IsNotAmong(account: string, accounts: seq<string>) {
    forall i :: 0 <= i < |accounts| ==> accounts[i] != account
  }

  ghost predicate OnlyAt(account: string, accounts: seq<string>, k: nat) {
    k < |accounts| && forall i :: 0 <= i < |accounts| ==> (accounts[i] == account <==> i == k)
  }

  lemma OneMoreAccountsRow(parse: Parser, name: string, dep: Deployment, exs: seq<Exception>, g: Group, data: AppMap, accounts: seq<string>)
    requires Ready(parse, name, dep, data) && AllIn(accounts, data) && accounts != []
    ensures var front, last := accounts[..|accounts| - 1], accounts[|accounts| - 1];
            && AllListed(dep, name, accounts) && AllReady(parse, dep, AllPlaces(dep, name, accounts))
            && AllListed(dep, name, front) && AllReady(parse, dep, AllPlaces(dep, name, front))
            && Listed(dep, name, last) && AllReady(parse, dep, PlacesOf(dep, name, last))
            && Row(parse, dep, exs, g, AllPlaces(dep, name, accounts))
               == Row(parse, dep, exs, g, AllPlaces(dep, name, front)) + Row(parse, dep, exs, g, PlacesOf(dep, name, last))
            && (last != g.account ==> Row(parse, dep, exs, g, PlacesOf(dep, name, last)) == multiset{})
  {
    var front, last := accounts[..|accounts| - 1], accounts[|accounts| - 1];
    AllPlacesAreMapped(parse, name, dep, data, accounts);
    AllPlacesAreMapped(parse, name, dep, data, front);
    PlacesOfAreMapped(parse, name, dep, data, last);
    RowConcat(parse, dep, exs, g, AllPlaces(dep, name, front), PlacesOf(dep, name, last));
    if last != g.account {
      RowOfOtherAccount(parse, dep, exs, g, PlacesOf(dep, name, last));
    }
  }

  lemma {:induction false} RowOfOtherAccounts(parse: Parser, name: string, dep: Deployment, exs: seq<Exception>, g: Group, data: AppMap, accounts: seq<string>)
    requires Ready(parse, name, dep, data) && AllIn(accounts, data)
    requires IsNotAmong(g.account, accounts)
    ensures AllListed(dep, name, accounts) && AllReady(parse, dep, AllPlaces(dep, name, accounts))
    ensures Row(parse, dep, exs, g, AllPlaces(dep, name, accounts)) == multiset{}
    decreases |accounts|
  {
    if accounts != [] {
      RowOfOtherAccounts(parse, name, dep, exs, g, data, accounts[..|accounts| - 1]);
      OneMoreAccountsRow(parse, name, dep, exs, g, data, accounts);
    }
  }

  /** Only the places of the group's own account give it anything. */
  lemma {:induction false} RowOfOwnAccount(parse: Parser, name: string, dep: Deployment, exs: seq<Exception>, g: Group, data: AppMap,
                                           accounts: seq<string>, k: nat)
    requires Ready(parse, name, dep, data) && AllIn(accounts, data)
    requires OnlyAt(g.account, accounts, k)
    ensures AllListed(dep, name, accounts) && AllReady(parse, dep, AllPlaces(dep, name, accounts))
    ensures Listed(dep, name, g.account) && AllReady(parse, dep, PlacesOf(dep, name, g.account))
    ensures Row(parse, dep, exs, g, AllPlaces(dep, name, accounts)) == Row(parse, dep, exs, g, PlacesOf(dep, name, g.account))
    decreases |accounts|
  {
    OneMoreAccountsRow(parse, name, dep, exs, g, data, accounts);
    var front := accounts[..|accounts| - 1];
    assert AllIn(front, data);
    if k == |front| {
      assert IsNotAmong(g.account, front);
      RowOfOtherAccounts(parse, name, dep, exs, g, data, front);
    } else {
      assert accounts[|front|] != g.account;
      assert OnlyAt(g.account, front, k);
      RowOfOwnAccount(parse, name, dep, exs, g, data, front, k);
    }
  }

  /** What is eligible for a group of the app is what it takes from all the app's places. */
  lemma {:induction false} GroupTakesItsRow(parse: Parser, name: string, dep: Deployment, exs: seq<Exception>, g: Group, data: AppMap, accounts: seq<string>)
    requires Ready(parse, name, dep, data) && Lists(accounts, data.Keys)
    requires g.app == name && g.account in data
    ensures Answers(parse, g, exs, dep)
    ensures AllListed(dep, name, accounts) && AllReady(parse, dep, AllPlaces(dep, name, accounts))
    ensures multiset(EligibleInstances(parse, g, exs, dep)) == Row(parse, dep, exs, g, AllPlaces(dep, name, accounts))
  {
    ReadyIsListed(parse, name, dep, data, g.account);
    TakesInAccount(parse, name, dep, exs, g, dep.clusterNames(name, g.account).value, data[g.account].clusters);
    var k :| 0 <= k < |accounts| && accounts[k] == g.account;
    assert OnlyAt(g.account, accounts, k);
    RowOfOwnAccount(parse, name, dep, exs, g, data, accounts, k);
  }

  ghost predicate AllAnswered(parse: Parser, exs: seq<Exception>, dep: Deployment, groups: seq<Group>) {
    forall i :: 0 <= i < |groups| ==> Answers(parse, groups[i], exs, dep)
  }

  /** The eligible instances of the groups, one group after the other. */
  function EligibleInTurn(parse: Parser, exs: seq<Exception>, dep: Deployment, groups: seq<Group>): seq<Domain.Instance>
    requires AllAnswered(parse, exs, dep, groups)
  {
    if groups == [] then []
    else EligibleInTurn(parse, exs, dep, groups[..|groups| - 1]) + EligibleInstances(parse, groups[|groups| - 1], exs, dep)
  }

  ghost predicate OfTheApp(name: string, data: AppMap, groups: seq<Group>) {
    forall i :: 0 <= i < |groups| ==> groups[i].app == name && groups[i].account in data
  }

  lemma AllGroupsAreAnswered(parse: Parser, name: string, dep: Deployment, exs: seq<Exception>, groups: seq<Group>,
                             data: AppMap, accounts: seq<string>)
    requires Ready(parse, name, dep, data) && Lists(accounts, data.Keys) && OfTheApp(name, data, groups)
    ensures AllAnswered(parse, exs, dep, groups)
  {
    forall i | 0 <= i < |groups| ensures Answers(parse, groups[i], exs, dep) {
      GroupTakesItsRow(parse, name, dep, exs, groups[i], data, accounts);
    }
  }

  lemma {:induction false} EligibleInTurnIsRows(parse: Parser, name: string, dep: Deployment, exs: seq<Exception>, groups: seq<Group>,
                                                data: AppMap, accounts: seq<string>, places: seq<Place>)
    requires Ready(parse, name, dep, data) && Lists(accounts, data.Keys) && OfTheApp(name, data, groups)
    requires AllListed(dep, name, accounts) && places == AllPlaces(dep, name, accounts) && AllReady(parse, dep, places)
    requires AllAnswered(parse, exs, dep, groups)
    ensures multiset(EligibleInTurn(parse, exs, dep, groups)) == Rows(parse, dep, exs, groups, places)
    decreases |groups|
  {
    if groups != [] {
      EligibleInTurnIsRows(parse, name, dep, exs, groups[..|groups| - 1], data, accounts, places);
      GroupTakesItsRow(parse, name, dep, exs, groups[|groups| - 1], data, accounts);
    }
  }

  /** All instances that the exceptions and the never-eligible suffixes leave, place by place. */
  ghost function ExposedInstances(parse: Parser, dep: Deployment, exs: seq<Exception>, places: seq<Place>): multiset<Domain.Instance>
    requires AllReady(parse, dep, places)
  {
    if places == [] then multiset{}
    else
      var p := places[|places| - 1];
      ExposedInstances(parse, dep, exs, places[..|places| - 1]) + if Exposed(parse, exs, p) then At(parse, dep, p) else multiset{}
  }

  /** Blank stacks are out when the groups are stacks. */
  ghost predicate StacksAreNonblank(parse: Parser, cfg: AppConfig, data: AppMap) {
    cfg.grouping.ByStack? ==> StacksAreNamed(parse, data)
  }

  lemma ColumnOfPlace(parse: Parser, dep: Deployment, exs: seq<Exception>, cfg: AppConfig, data: AppMap, v: AppView, groups: seq<Group>, p: Place)
    requires Shows(v, v.name, data) && Lists(groups, GroupsOf(parse, cfg, v)) && !cfg.grouping.Unrecognized?
    requires NonblankNames(data) && StacksAreNonblank(parse, cfg, data)
    requires Ready(parse, v.name, dep, data) && Mapped(data, p)
    ensures IsReady(parse, dep, p)
    ensures Column(parse, dep, exs, groups, p) == if Exposed(parse, exs, p) then At(parse, dep, p) else multiset{}
  {
    MappedIsReady(parse, v.name, dep, data, p);
    if data[p.account].clusters[p.cluster][p.region] == map[] {
      NoShare(parse, dep, exs, groups, p);
    } else {
      var k := GroupsPartitionTheDeployment(parse, cfg, data, v, groups, p.account, p.region, p.cluster);
      OneContainerTakesAll(parse, dep, exs, groups, p, k);
    }
  }

  lemma {:induction false} ColumnsOfPlaces(parse: Parser, dep: Deployment, exs: seq<Exception>, cfg: AppConfig, data: AppMap, v: AppView,
                                           groups: seq<Group>, places: seq<Place>)
    requires Shows(v, v.name, data) && Lists(groups, GroupsOf(parse, cfg, v)) && !cfg.grouping.Unrecognized?
    requires NonblankNames(data) && StacksAreNonblank(parse, cfg, data)
    requires Ready(parse, v.name, dep, data) && AllMapped(data, places)
    ensures AllReady(parse, dep, places)
    ensures Columns(parse, dep, exs, groups, places) == ExposedInstances(parse, dep, exs, places)
    decreases |places|
  {
    AllMappedIsReady(parse, v.name, dep, data, places);
    if places != [] {
      ColumnsOfPlaces(parse, dep, exs, cfg, data, v, groups, places[..|places| - 1]);
      ColumnOfPlace(parse, dep, exs, cfg, data, v, groups, places[|places| - 1]);
    }
  }

  lemma ListedGroupsAreOfTheApp(parse: Parser, cfg: AppConfig, data: AppMap, v: AppView, groups: seq<Group>)
    requires Shows(v, v.name, data) && Lists(groups, GroupsOf(parse, cfg, v))
    ensures OfTheApp(v.name, data, groups)
  {
    forall i | 0 <= i < |groups| ensures groups[i].app == v.name && groups[i].account in data {
      GroupsAreGroups(parse, v.name, cfg, data, v, groups[i]);
    }
  }

  /** Going through the groups of an app, whatever the grouping, gives each instance that no
      exception or suffix shields, as often as the deployment lists it, and nothing else. */
  lemma GroupsCoverEligibleInstances(parse: Parser, dep: Deployment, exs: seq<Exception>, cfg: AppConfig, data: AppMap, v: AppView,
                                     groups: seq<Group>, accounts: seq<string>)
    requires Shows(v, v.name, data) && Lists(groups, GroupsOf(parse, cfg, v)) && !cfg.grouping.Unrecognized?
    requires NonblankNames(data) && StacksAreNonblank(parse, cfg, data)
    requires Ready(parse, v.name, dep, data) && Lists(accounts, data.Keys)
    ensures AllAnswered(parse, exs, dep, groups)
    ensures AllListed(dep, v.name, accounts) && AllReady(parse, dep, AllPlaces(dep, v.name, accounts))
    ensures multiset(EligibleInTurn(parse, exs, dep, groups))
         == ExposedInstances(parse, dep, exs, AllPlaces(dep, v.name, accounts))
  {
    AllPlacesAreMapped(parse, v.name, dep, data, accounts);
    ListedGroupsAreOfTheApp(parse, cfg, data, v, groups);
    AllGroupsAreAnswered(parse, v.name, dep, exs, groups, data, accounts);
    EligibleInTurnIsRows(parse, v.name, dep, exs, groups, data, accounts, AllPlaces(dep, v.name, accounts));
    RowsAreColumns(parse, dep, exs, groups, AllPlaces(dep, v.name, accounts));
    ColumnsOfPlaces(parse, dep, exs, cfg, data, v, groups, AllPlaces(dep, v.name, accounts));
  }

  ghost function WholeAccounts(cfg: AppConfig): AppConfig {
    cfg.(grouping := ByApp, regionsAreIndependent := false)
  }

  /** The eligible instances of all groups are a permutation of those of the whole-account groups. */
  lemma RegroupingConservesInstances(parse: Parser, dep: Deployment, exs: seq<Exception>, cfg: AppConfig, data: AppMap, v: AppView,
                                     groups: seq<Group>, whole: seq<Group>)
    requires Shows(v, v.name, data) && !cfg.grouping.Unrecognized?
    requires Lists(groups, GroupsOf(parse, cfg, v)) && Lists(whole, GroupsOf(parse, WholeAccounts(cfg), v))
    requires NonblankNames(data) && StacksAreNonblank(parse, cfg, data)
    requires Ready(parse, v.name, dep, data)
    ensures AllAnswered(parse, exs, dep, groups) && AllAnswered(parse, exs, dep, whole)
    ensures multiset(EligibleInTurn(parse, exs, dep, groups)) == multiset(EligibleInTurn(parse, exs, dep, whole))
  {
    var accounts := Ordered(data.Keys);
    GroupsCoverEligibleInstances(parse, dep, exs, cfg, data, v, groups, accounts);
    GroupsCoverEligibleInstances(parse, dep, exs, WholeAccounts(cfg), data, v, whole, accounts);
  }

  lemma {:induction false} Ordered(keys: set<string>) returns (ks: seq<string>)
    ensures Lists(ks, keys)
    decreases |keys|
  {
    ks := [];
    if keys != {} {
      var k :| k in keys;
      var front := Ordered(keys - {k});
      ListsAdd(front, keys - {k}, k);
      assert keys == (keys - {k}) + {k};
      ks := front + [k];
    }
  }
}
