/** Which instances of a group may be terminated (eligible/eligible.go, term/term.go:183-197). */
module Eligible {
  import opened Domain
  import opened Groups

  /** The answers of a deployment (deploy/deployment.go:27-50) while one call lasts. */
  datatype Deployment = Deployment(
    cloudProvider: string -> Result<string>,
    clusterNames: (string, string) -> Result<seq<string>>,
    regionNames: (string, string, string) -> Result<seq<string>>,
    instanceIDs: (string, string, string, string, string) -> Result<(string, seq<string>)>)

  /** A cluster in one region. */
  datatype Site = Site(app: string, account: string, provider: string, region: string, cluster: string)

  const NEVER_ELIGIBLE_SUFFIXES: seq<string> := ["-canary", "-baseline", "-citrus", "-citrusproxy"]

  predicate HasSuffix(s: string, suffix: string) {
    |suffix| <= |s| && s[|s| - |suffix|..] == suffix
  }

  predicate IsNeverEligible(cluster: string) {
    exists suffix | suffix in NEVER_ELIGIBLE_SUFFIXES :: HasSuffix(cluster, suffix)
  }

  predicate IsException(exs: seq<Exception>, account: string, names: Names, region: string) {
    exists ex | ex in exs :: ex.Matches(account, names.stack, names.detail, region)
  }

  /** A cluster is never eligible exactly when its name is something with one of the suffixes after it. */
  lemma NeverEligibleIff(cluster: string)
    ensures IsNeverEligible(cluster)
       <==> exists front: string :: cluster in {front + "-canary", front + "-baseline", front + "-citrus", front + "-citrusproxy"}
  {
    if IsNeverEligible(cluster) {
      var suffix :| suffix in NEVER_ELIGIBLE_SUFFIXES && HasSuffix(cluster, suffix);
      assert cluster == cluster[..|cluster| - |suffix|] + suffix;
    }
    if exists front: string :: cluster in {front + "-canary", front + "-baseline", front + "-citrus", front + "-citrusproxy"} {
      var front: string :| cluster in {front + "-canary", front + "-baseline", front + "-citrus", front + "-citrusproxy"};
      var suffix := cluster[|front|..];
      assert suffix in NEVER_ELIGIBLE_SUFFIXES && HasSuffix(cluster, suffix);
    }
  }

  /** An exception shields its own fields, everything exactly when all its fields are stars, and
      without stars nothing but its own fields. */
  lemma ExceptionShields(ex: Exception)
    ensures ex.Matches(ex.account, ex.stack, ex.detail, ex.region)
    ensures (forall a, s, d, r :: ex.Matches(a, s, d, r)) <==> ex == Exception("*", "*", "*", "*")
    ensures "*" !in {ex.account, ex.stack, ex.detail, ex.region} ==>
              forall a, s, d, r :: ex.Matches(a, s, d, r) ==> ex == Exception(a, s, d, r)
  {
    if forall a, s, d, r :: ex.Matches(a, s, d, r) {
      assert ex.Matches(ex.account + "x", ex.stack + "x", ex.detail + "x", ex.region + "x");
      assert forall f: string :: |f + "x"| == |f| + 1;
    }
  }

  /** May instances of the cluster in the region be terminated on behalf of the group? */
  predicate Targeted(parse: Parser, group: Group, exs: seq<Exception>, cluster: string, region: string) {
    && Contains(parse, group, group.account, region, cluster)
    && !IsException(exs, group.account, parse(cluster).value, region)
    && !IsNeverEligible(cluster)
  }

  /** One of the exceptions has, field by field, a star or the account, the stack and detail of the
      cluster's name, and the region. */
  ghost predicate IsShielded(exs: seq<Exception>, account: string, names: Names, region: string) {
    exists k :: 0 <= k < |exs|
      && exs[k].account in {"*", account} && exs[k].stack in {"*", names.stack}
      && exs[k].detail in {"*", names.detail} && exs[k].region in {"*", region}
  }

  lemma IsExceptionIff(exs: seq<Exception>, account: string, names: Names, region: string)
    ensures IsException(exs, account, names, region) <==> IsShielded(exs, account, names, region)
  {
    if IsException(exs, account, names, region) {
      var ex :| ex in exs && ex.Matches(account, names.stack, names.detail, region);
      var k :| 0 <= k < |exs| && exs[k] == ex;
      assert exs[k].account in {"*", account};
    }
    if IsShielded(exs, account, names, region) {
      var k :| 0 <= k < |exs|
        && exs[k].account in {"*", account} && exs[k].stack in {"*", names.stack}
        && exs[k].detail in {"*", names.detail} && exs[k].region in {"*", region};
      assert exs[k] in exs && exs[k].Matches(account, names.stack, names.detail, region);
    }
  }

  /** The name ends in one of the suffixes that are never eligible. */
  ghost predicate HasBarredSuffix(cluster: string) {
    exists front: string :: cluster in {front + "-canary", front + "-baseline", front + "-citrus", front + "-citrusproxy"}
  }

  /** The parts of the cluster's name, its account and its region are what the group asks for. */
  ghost predicate IsInside(group: Group, names: Names, account: string, region: string, cluster: string) {
    && names.app == group.app && account == group.account
    && group.region in {"", region} && group.stack in {"", names.stack} && group.cluster in {"", cluster}
  }

  ghost predicate MayBeTerminated(parse: Parser, group: Group, exs: seq<Exception>, cluster: string, region: string) {
    && parse(cluster).Some?
    && IsInside(group, parse(cluster).value, group.account, region, cluster)
    && !IsShielded(exs, group.account, parse(cluster).value, region)
    && !HasBarredSuffix(cluster)
  }

  /** A cluster is targeted in a region exactly when the fields of its name, the group and the
      exceptions say so. */
  lemma TargetedIff(parse: Parser, group: Group, exs: seq<Exception>, cluster: string, region: string)
    ensures Targeted(parse, group, exs, cluster, region) <==> MayBeTerminated(parse, group, exs, cluster, region)
  {
    if parse(cluster).Some? { IsExceptionIff(exs, group.account, parse(cluster).value, region); }
    NeverEligibleIff(cluster);
  }

  /** The targeted ones among the given regions, in order. */
  function TargetedRegions(parse: Parser, group: Group, exs: seq<Exception>, cluster: string, regions: seq<string>): seq<string> {
    if regions == [] then []
    else
      var last := regions[|regions| - 1];
      TargetedRegions(parse, group, exs, cluster, regions[..|regions| - 1])
      + if Targeted(parse, group, exs, cluster, last) then [last] else []
  }

  /** A group with a region looks at that region only, once, if the cluster is deployed there. */
  function Regions(group: Group, deployed: seq<string>): seq<string> {
    match group.Region()
    case None => deployed
    case Some(region) => if region in deployed then [region] else []
  }

  predicate ListingWorks(parse: Parser, dep: Deployment, account: string, cluster: string) {
    parse(cluster).Some? && dep.regionNames(parse(cluster).value.app, account, cluster).Ok?
  }

  predicate ListingsWork(parse: Parser, dep: Deployment, account: string, listed: seq<string>) {
    forall i :: 0 <= i < |listed| ==> ListingWorks(parse, dep, account, listed[i])
  }

  function SitesIn(parse: Parser, account: string, provider: string, cluster: string, regions: seq<string>): (sites: seq<Site>)
    requires parse(cluster).Some?
    ensures |sites| == |regions|
    ensures forall i :: 0 <= i < |regions| ==> sites[i] == Site(parse(cluster).value.app, account, provider, regions[i], cluster)
  {
    seq(|regions|, i requires 0 <= i < |regions| => Site(parse(cluster).value.app, account, provider, regions[i], cluster))
  }

  /** The targeted sites of the listed clusters, in listing order. */
  function TargetedSites(parse: Parser, group: Group, provider: string, exs: seq<Exception>, dep: Deployment, listed: seq<string>): seq<Site>
    requires ListingsWork(parse, dep, group.account, listed)
  {
    if listed == [] then []
    else
      var cluster := listed[|listed| - 1];
      var deployed := dep.regionNames(parse(cluster).value.app, group.account, cluster).value;
      TargetedSites(parse, group, provider, exs, dep, listed[..|listed| - 1])
      + SitesIn(parse, group.account, provider, cluster,
                TargetedRegions(parse, group, exs, cluster, Regions(group, deployed)))
  }

  function Answer(dep: Deployment, site: Site): Result<(string, seq<string>)> {
    dep.instanceIDs(site.app, site.account, site.provider, site.region, site.cluster)
  }

  /** The ids are known, and the name of the ASG parses if there are any. */
  predicate AnswerWorks(parse: Parser, dep: Deployment, site: Site) {
    match Answer(dep, site)
    case Err(_) => false
    case Ok((asg, ids)) => ids != [] ==> parse(asg).Some?
  }

  predicate AnswersWork(parse: Parser, dep: Deployment, sites: seq<Site>) {
    forall i :: 0 <= i < |sites| ==> AnswerWorks(parse, dep, sites[i])
  }

  /** The stack of an instance is the one in the name of its ASG. */
  function InstancesAt(parse: Parser, dep: Deployment, site: Site): (r: seq<Instance>)
    requires AnswerWorks(parse, dep, site)
    ensures |r| == |Answer(dep, site).value.1|
    ensures forall i :: 0 <= i < |r| ==>
              var (asg, ids) := Answer(dep, site).value;
              r[i] == Instance(site.app, site.account, site.region, parse(asg).value.stack, site.cluster, asg, ids[i], site.provider)
  {
    var (asg, ids) := Answer(dep, site).value;
    seq(|ids|, i requires 0 <= i < |ids| =>
      Instance(site.app, site.account, site.region, parse(asg).value.stack, site.cluster, asg, ids[i], site.provider))
  }

  function InstancesAll(parse: Parser, dep: Deployment, sites: seq<Site>): seq<Instance>
    requires AnswersWork(parse, dep, sites)
  {
    if sites == [] then []
    else InstancesAll(parse, dep, sites[..|sites| - 1]) + InstancesAt(parse, dep, sites[|sites| - 1])
  }

  /** Every answer that a call for the group needs is there. */
  predicate Answers(parse: Parser, group: Group, exs: seq<Exception>, dep: Deployment) {
    && dep.cloudProvider(group.account).Ok?
    && dep.clusterNames(group.app, group.account).Ok?
    && var listed := dep.clusterNames(group.app, group.account).value;
    && ListingsWork(parse, dep, group.account, listed)
    && AnswersWork(parse, dep, TargetedSites(parse, group, dep.cloudProvider(group.account).value, exs, dep, listed))
  }

  function EligibleInstances(parse: Parser, group: Group, exs: seq<Exception>, dep: Deployment): seq<Instance>
    requires Answers(parse, group, exs, dep)
  {
    InstancesAll(parse, dep,
      TargetedSites(parse, group, dep.cloudProvider(group.account).value, exs, dep, dep.clusterNames(group.app, group.account).value))
  }

  // ---------------------------------------------------------------- the loops

  /** The inner loop of Clusters. */
  method AddSites(before: seq<Site>, parse: Parser, group: Group, provider: string, exs: seq<Exception>,
                  cluster: string, names: Names, regions: seq<string>) returns (result: seq<Site>)
    requires parse(cluster) == Some(names)
    ensures result == before + SitesIn(parse, group.account, provider, cluster, TargetedRegions(parse, group, exs, cluster, regions))
  {
    result := before;
    ghost var kept: seq<string> := [];
    for j := 0 to |regions|
      invariant kept == TargetedRegions(parse, group, exs, cluster, regions[..j])
      invariant result == before + SitesIn(parse, group.account, provider, cluster, kept)
    {
      var region := regions[j];
      assert regions[..j + 1][..j] == regions[..j];
      if IsException(exs, group.account, names, region) { continue; }
      if IsNeverEligible(cluster) { continue; }
      if Contains(parse, group, group.account, region, cluster) {
        result := result + [Site(names.app, group.account, provider, region, cluster)];
        kept := kept + [region];
      }
    }
    assert regions[..|regions|] == regions;
  }

  method Clusters(parse: Parser, group: Group, provider: string, exs: seq<Exception>, dep: Deployment) returns (r: Result<seq<Site>>)
    ensures r.Ok? <==> && dep.clusterNames(group.app, group.account).Ok?
                       && ListingsWork(parse, dep, group.account, dep.clusterNames(group.app, group.account).value)
    ensures r.Ok? ==> r.value == TargetedSites(parse, group, provider, exs, dep, dep.clusterNames(group.app, group.account).value)
  {
    var listed := dep.clusterNames(group.app, group.account);
    if listed.Err? { return Err(listed.error); }
    r := SitesOfClusters(listed.value, parse, group, provider, exs, dep);
  }

  lemma NextCluster(parse: Parser, group: Group, provider: string, exs: seq<Exception>, dep: Deployment, listed: seq<string>, i: nat)
    requires i < |listed| && ListingsWork(parse, dep, group.account, listed[..i])
    requires ListingWorks(parse, dep, group.account, listed[i])
    ensures ListingsWork(parse, dep, group.account, listed[..i + 1])
    ensures var deployed := dep.regionNames(parse(listed[i]).value.app, group.account, listed[i]).value;
            TargetedSites(parse, group, provider, exs, dep, listed[..i + 1])
            == TargetedSites(parse, group, provider, exs, dep, listed[..i])
               + SitesIn(parse, group.account, provider, listed[i],
                         TargetedRegions(parse, group, exs, listed[i], Regions(group, deployed)))
  {
    assert listed[..i + 1][..i] == listed[..i];
  }

  /** The outer loop of Clusters. */
  method SitesOfClusters(listed: seq<string>, parse: Parser, group: Group, provider: string, exs: seq<Exception>, dep: Deployment)
    returns (r: Result<seq<Site>>)
    ensures r.Ok? <==> ListingsWork(parse, dep, group.account, listed)
    ensures r.Ok? ==> r.value == TargetedSites(parse, group, provider, exs, dep, listed)
  {
    var result: seq<Site> := [];
    for i := 0 to |listed|
      invariant ListingsWork(parse, dep, group.account, listed[..i])
      invariant result == TargetedSites(parse, group, provider, exs, dep, listed[..i])
    {
      var cluster := listed[i];
      var names := parse(cluster);
      if names.None? {
        assert !ListingWorks(parse, dep, group.account, listed[i]);
        return Err(ParseFailed(cluster));
      }
      var deployed := dep.regionNames(names.value.app, group.account, cluster);
      if deployed.Err? {
        assert !ListingWorks(parse, dep, group.account, listed[i]);
        return Err(deployed.error);
      }
      NextCluster(parse, group, provider, exs, dep, listed, i);
      result := AddSites(result, parse, group, provider, exs, cluster, names.value, Regions(group, deployed.value));
    }
    assert listed[..|listed|] == listed;
    return Ok(result);
  }

  method GetInstances(parse: Parser, site: Site, dep: Deployment) returns (r: Result<seq<Instance>>)
    ensures r.Ok? <==> AnswerWorks(parse, dep, site)
    ensures r.Ok? ==> r.value == InstancesAt(parse, dep, site)
  {
    var answer := dep.instanceIDs(site.app, site.account, site.provider, site.region, site.cluster);
    if answer.Err? { return Err(answer.error); }
    var (asg, ids) := answer.value;
    var result: seq<Instance> := [];
    for i := 0 to |ids|
      invariant i > 0 ==> parse(asg).Some?
      invariant |result| == i
      invariant forall k :: 0 <= k < i ==>
        result[k] == Instance(site.app, site.account, site.region, parse(asg).value.stack, site.cluster, asg, ids[k], site.provider)
    {
      var names := parse(asg);
      if names.None? { return Err(ParseFailed(asg)); }
      result := result + [Instance(site.app, site.account, site.region, names.value.stack, site.cluster, asg, ids[i], site.provider)];
    }
    return Ok(result);
  }

  /** The loop of Instances. */
  method InstancesOfSites(parse: Parser, sites: seq<Site>, dep: Deployment) returns (r: Result<seq<Instance>>)
    ensures r.Ok? <==> AnswersWork(parse, dep, sites)
    ensures r.Ok? ==> r.value == InstancesAll(parse, dep, sites)
  {
    var result: seq<Instance> := [];
    for i := 0 to |sites|
      invariant AnswersWork(parse, dep, sites[..i])
      invariant result == InstancesAll(parse, dep, sites[..i])
    {
      var instances := GetInstances(parse, sites[i], dep);
      if instances.Err? {
        assert !AnswerWorks(parse, dep, sites[i]);
        return Err(instances.error);
      }
      assert sites[..i + 1][..i] == sites[..i];
      result := result + instances.value;
    }
    assert sites[..|sites|] == sites;
    return Ok(result);
  }

  method Instances(parse: Parser, group: Group, exs: seq<Exception>, dep: Deployment) returns (r: Result<seq<Instance>>)
    ensures r.Ok? <==> Answers(parse, group, exs, dep)
    ensures r.Ok? ==> r.value == EligibleInstances(parse, group, exs, dep)
  {
    var provider := dep.cloudProvider(group.account);
    if provider.Err? { return Err(provider.error); }
    var cls := Clusters(parse, group, provider.value, exs, dep);
    if cls.Err? { return Err(cls.error); }
    r := InstancesOfSites(parse, cls.value, dep);
  }

  /** Any eligible instance may be picked; when the answers are not there, none is. */
  method PickRandomInstance(parse: Parser, group: Group, cfg: AppConfig, dep: Deployment) returns (r: Option<Instance>)
    ensures r.Some? <==> Answers(parse, group, cfg.exceptions, dep) && EligibleInstances(parse, group, cfg.exceptions, dep) != []
    ensures r.Some? ==> r.value in EligibleInstances(parse, group, cfg.exceptions, dep)
  {
    var instances := Instances(parse, group, cfg.exceptions, dep);
    if instances.Err? { return None; }
    if |instances.value| == 0 { return None; }
    var index :| 0 <= index < |instances.value|;
    return Some(instances.value[index]);
  }

  // ---------------------------------------------------------------- what the result means

  lemma {:induction false} TargetedRegionsExactly(parse: Parser, group: Group, exs: seq<Exception>, cluster: string, regions: seq<string>, region: string)
    ensures multiset(TargetedRegions(parse, group, exs, cluster, regions))[region]
         == if Targeted(parse, group, exs, cluster, region) then multiset(regions)[region] else 0
    decreases |regions|
  {
    if regions != [] {
      var front := regions[..|regions| - 1];
      assert regions == front + [regions[|regions| - 1]];
      TargetedRegionsExactly(parse, group, exs, cluster, front, region);
    }
  }

  lemma {:induction false} OnlyTheGroupsRegion(parse: Parser, group: Group, exs: seq<Exception>, cluster: string, regions: seq<string>)
    requires group.Region().Some?
    ensures var found := TargetedRegions(parse, group, exs, cluster, regions);
            && (forall i :: 0 <= i < |found| ==> found[i] == group.region)
            && |found| == if Targeted(parse, group, exs, cluster, group.region) then multiset(regions)[group.region] else 0
    decreases |regions|
  {
    if regions != [] {
      var front := regions[..|regions| - 1];
      assert regions == front + [regions[|regions| - 1]];
      OnlyTheGroupsRegion(parse, group, exs, cluster, front);
    }
  }

  /** Looking at the group's region only finds what looking at all deployed regions finds,
      unless that region is targeted and listed more than once. */
  lemma PrefilterAgreesIff(parse: Parser, group: Group, exs: seq<Exception>, cluster: string, deployed: seq<string>)
    ensures TargetedRegions(parse, group, exs, cluster, Regions(group, deployed)) == TargetedRegions(parse, group, exs, cluster, deployed)
       <==> || group.Region().None?
            || !Targeted(parse, group, exs, cluster, group.region)
            || multiset(deployed)[group.region] <= 1
  {
    if group.Region().Some? {
      OnlyTheGroupsRegion(parse, group, exs, cluster, deployed);
      OnlyTheGroupsRegion(parse, group, exs, cluster, Regions(group, deployed));
    }
  }

  /** The site is one of a listed cluster in a region where it is deployed, and targeted. */
  ghost predicate IsTargetedSite(parse: Parser, group: Group, provider: string, exs: seq<Exception>, dep: Deployment, listed: seq<string>, site: Site)
    requires ListingsWork(parse, dep, group.account, listed)
  {
    && site.cluster in listed
    && ListingWorks(parse, dep, group.account, site.cluster)
    && site.app == parse(site.cluster).value.app
    && site.account == group.account
    && site.provider == provider
    && site.region in dep.regionNames(site.app, group.account, site.cluster).value
    && MayBeTerminated(parse, group, exs, site.cluster, site.region)
  }

  lemma {:induction false} TargetedSitesExactly(parse: Parser, group: Group, provider: string, exs: seq<Exception>, dep: Deployment, listed: seq<string>, site: Site)
    requires ListingsWork(parse, dep, group.account, listed)
    ensures site in TargetedSites(parse, group, provider, exs, dep, listed)
       <==> IsTargetedSite(parse, group, provider, exs, dep, listed, site)
    decreases |listed|
  {
    TargetedIff(parse, group, exs, site.cluster, site.region);
    if listed != [] {
      var front, cluster := listed[..|listed| - 1], listed[|listed| - 1];
      assert listed == front + [cluster];
      TargetedSitesExactly(parse, group, provider, exs, dep, front, site);
      var deployed := dep.regionNames(parse(cluster).value.app, group.account, cluster).value;
      TargetedRegionsExactly(parse, group, exs, cluster, Regions(group, deployed), site.region);
      var found := TargetedRegions(parse, group, exs, cluster, Regions(group, deployed));
      var sites := SitesIn(parse, group.account, provider, cluster, found);
      if site in sites {
        var i :| 0 <= i < |sites| && sites[i] == site;
        assert found[i] == site.region;
      }
      if site.cluster == cluster && IsTargetedSite(parse, group, provider, exs, dep, listed, site) {
        assert site.region in multiset(found);
        var i :| 0 <= i < |found| && found[i] == site.region;
        assert sites[i] == site;
      }
    }
  }

  lemma {:induction false} InstancesAllExactly(parse: Parser, dep: Deployment, sites: seq<Site>, i: Instance)
    requires AnswersWork(parse, dep, sites)
    ensures i in InstancesAll(parse, dep, sites) <==> exists s :: s in sites && i in InstancesAt(parse, dep, s)
    decreases |sites|
  {
    if sites != [] {
      var front, last := sites[..|sites| - 1], sites[|sites| - 1];
      assert sites == front + [last];
      InstancesAllExactly(parse, dep, front, i);
    }
  }

  /** What the deployment answers for the place of the instance has its id, and its ASG has its stack. */
  ghost predicate IsAnsweredFor(parse: Parser, dep: Deployment, i: Instance) {
    && dep.instanceIDs(i.app, i.account, i.cloudProvider, i.region, i.cluster).Ok?
    && var (asg, ids) := dep.instanceIDs(i.app, i.account, i.cloudProvider, i.region, i.cluster).value;
       i.asg == asg && i.id in ids && parse(asg).Some? && i.stack == parse(asg).value.stack
  }

  /** An instance is eligible exactly when a listed cluster, in a region where it is deployed, is
      inside the group, matched by no exception, free of the suffixes that are never eligible,
      and has the instance among its ids. */
  lemma EligibleExactly(parse: Parser, group: Group, exs: seq<Exception>, dep: Deployment, i: Instance)
    requires Answers(parse, group, exs, dep)
    ensures i in EligibleInstances(parse, group, exs, dep)
       <==> && i.cluster in dep.clusterNames(group.app, group.account).value
            && MayBeTerminated(parse, group, exs, i.cluster, i.region)
            && i.app == group.app && i.account == group.account && Ok(i.cloudProvider) == dep.cloudProvider(group.account)
            && dep.regionNames(group.app, group.account, i.cluster).Ok?
            && i.region in dep.regionNames(group.app, group.account, i.cluster).value
            && IsAnsweredFor(parse, dep, i)
  {
    var provider := dep.cloudProvider(group.account).value;
    var listed := dep.clusterNames(group.app, group.account).value;
    var sites := TargetedSites(parse, group, provider, exs, dep, listed);
    var site := Site(i.app, i.account, i.cloudProvider, i.region, i.cluster);
    InstancesAllExactly(parse, dep, sites, i);
    TargetedSitesExactly(parse, group, provider, exs, dep, listed, site);
    if i in EligibleInstances(parse, group, exs, dep) {
      var s :| s in sites && i in InstancesAt(parse, dep, s);
      assert s == site;
    }
    if site in sites && IsAnsweredFor(parse, dep, i) {
      IdIsInstance(parse, dep, site, i);
    }
  }

  lemma IdIsInstance(parse: Parser, dep: Deployment, site: Site, i: Instance)
    requires site == Site(i.app, i.account, i.cloudProvider, i.region, i.cluster) && IsAnsweredFor(parse, dep, i)
    ensures AnswerWorks(parse, dep, site) && i in InstancesAt(parse, dep, site)
  {
    var (asg, ids) := Answer(dep, site).value;
    var k :| 0 <= k < |ids| && ids[k] == i.id;
    assert InstancesAt(parse, dep, site)[k] == i;
  }
}
