/** When every group of an app has an instance in it, as is said of them but not seen to
    (deploy/eligible_instance_groups.go:36-37, 41-151). */
module Inhabited {
  import opened Domain
  import opened Listing
  import opened Groups
  import opened Deploy
  import opened AppTree
  import opened InstanceGroups
  import opened Partition

  ghost predicate HasInstance(regions: RegionMap, region: string) {
    region in regions && exists asg :: asg in regions[region] && regions[region][asg] != []
  }

  /** A cluster whose name parses to the app's has an instance in the region. */
  ghost predicate Lives(parse: Parser, name: string, data: AppMap, account: string, region: string, cluster: string) {
    && parse(cluster).Some? && parse(cluster).value.app == name
    && account in data && cluster in data[account].clusters
    && HasInstance(data[account].clusters[cluster], region)
  }

  /** Some instance is in the group. */
  ghost predicate Inhabited(parse: Parser, data: AppMap, g: Group) {
    exists region, cluster ::
      Lives(parse, g.app, data, g.account, region, cluster) && Contains(parse, g, g.account, region, cluster)
  }

  /** A group for the stack of c spans d: a blank stack spans all of them. */
  ghost predicate Spans(parse: Parser, c: string, d: string) {
    parse(c).Some? && parse(d).Some? && (parse(c).value.stack == "" || parse(c).value.stack == parse(d).value.stack)
  }

  // ---------------------------------------------------------------- what the six groupings need

  ghost predicate EveryAccountLives(parse: Parser, name: string, data: AppMap) {
    forall a :: a in data ==> exists r, c :: Lives(parse, name, data, a, r, c)
  }

  ghost predicate EveryRegionLives(parse: Parser, name: string, data: AppMap) {
    forall a, r :: a in data && SomeDeployedIn(data[a].clusters, r) ==> exists c :: Lives(parse, name, data, a, r, c)
  }

  ghost predicate StackLives(parse: Parser, name: string, data: AppMap, a: string, c: string) {
    exists r, d :: Lives(parse, name, data, a, r, d) && Spans(parse, c, d)
  }

  ghost predicate EveryStackLives(parse: Parser, name: string, data: AppMap) {
    forall a, c :: a in data && c in data[a].clusters && parse(c).Some? ==> StackLives(parse, name, data, a, c)
  }

  ghost predicate EveryStackRegionLives(parse: Parser, name: string, data: AppMap) {
    forall a, r, c :: IsDeployed(data, a, r, c) && parse(c).Some? ==>
      exists d :: Lives(parse, name, data, a, r, d) && Spans(parse, c, d)
  }

  ghost predicate EveryClusterLives(parse: Parser, name: string, data: AppMap) {
    forall a, c :: a in data && c in data[a].clusters ==> exists r :: Lives(parse, name, data, a, r, c)
  }

  ghost predicate EveryClusterRegionLives(parse: Parser, name: string, data: AppMap) {
    forall a, r, c :: IsDeployed(data, a, r, c) ==> Lives(parse, name, data, a, r, c)
  }

  /** Everything that the grouping makes a group of has an instance. */
  ghost predicate EverythingLives(parse: Parser, name: string, cfg: AppConfig, data: AppMap) {
    match cfg.grouping
    case ByApp => if cfg.regionsAreIndependent then EveryRegionLives(parse, name, data) else EveryAccountLives(parse, name, data)
    case ByStack => if cfg.regionsAreIndependent then EveryStackRegionLives(parse, name, data) else EveryStackLives(parse, name, data)
    case ByCluster =>
      if cfg.regionsAreIndependent then EveryClusterRegionLives(parse, name, data) else EveryClusterLives(parse, name, data)
    case Unrecognized(_) => true
  }

  ghost predicate EveryGroupInhabited(parse: Parser, name: string, cfg: AppConfig, data: AppMap) {
    forall g :: IsGroup(parse, name, cfg, data, g) ==> Inhabited(parse, data, g)
  }

  // ---------------------------------------------------------------- one grouping at a time

  lemma AccountGroupsIff(parse: Parser, name: string, cfg: AppConfig, data: AppMap)
    requires cfg.grouping.ByApp? && !cfg.regionsAreIndependent
    ensures EveryGroupInhabited(parse, name, cfg, data) <==> EveryAccountLives(parse, name, data)
  {
    if EveryGroupInhabited(parse, name, cfg, data) {
      forall a | a in data ensures exists r, c :: Lives(parse, name, data, a, r, c) {
        var g := Group(name, a, "", "", "");
        assert IsGroup(parse, name, cfg, data, g);
        var r, c :| Lives(parse, name, data, a, r, c) && Contains(parse, g, a, r, c);
      }
    }
    if EveryAccountLives(parse, name, data) {
      forall g | IsGroup(parse, name, cfg, data, g) ensures Inhabited(parse, data, g) {
        var r, c :| Lives(parse, name, data, g.account, r, c);
        assert Contains(parse, g, g.account, r, c);
      }
    }
  }

  lemma RegionGroupsIff(parse: Parser, name: string, cfg: AppConfig, data: AppMap)
    requires cfg.grouping.ByApp? && cfg.regionsAreIndependent && NonblankNames(data)
    ensures EveryGroupInhabited(parse, name, cfg, data) <==> EveryRegionLives(parse, name, data)
  {
    if EveryGroupInhabited(parse, name, cfg, data) {
      forall a, r | a in data && SomeDeployedIn(data[a].clusters, r) ensures exists c :: Lives(parse, name, data, a, r, c) {
        var g := Group(name, a, r, "", "");
        assert IsGroup(parse, name, cfg, data, g);
        var r', c :| Lives(parse, name, data, a, r', c) && Contains(parse, g, a, r', c);
        var d :| d in data[a].clusters && DeployedIn(data[a].clusters[d], r);
        assert r != "";
      }
    }
    if EveryRegionLives(parse, name, data) {
      forall g | IsGroup(parse, name, cfg, data, g) ensures Inhabited(parse, data, g) {
        var c :| Lives(parse, name, data, g.account, g.region, c);
        assert Contains(parse, g, g.account, g.region, c);
      }
    }
  }

  lemma ClusterGroupsIff(parse: Parser, name: string, cfg: AppConfig, data: AppMap)
    requires cfg.grouping.ByCluster? && !cfg.regionsAreIndependent && NonblankNames(data)
    ensures EveryGroupInhabited(parse, name, cfg, data) <==> EveryClusterLives(parse, name, data)
  {
    if EveryGroupInhabited(parse, name, cfg, data) {
      forall a, c | a in data && c in data[a].clusters ensures exists r :: Lives(parse, name, data, a, r, c) {
        var g := Group(name, a, "", "", c);
        assert IsGroup(parse, name, cfg, data, g);
        var r, d :| Lives(parse, name, data, a, r, d) && Contains(parse, g, a, r, d);
        assert d == c;
      }
    }
    if EveryClusterLives(parse, name, data) {
      forall g | IsGroup(parse, name, cfg, data, g) ensures Inhabited(parse, data, g) {
        var r :| Lives(parse, name, data, g.account, r, g.cluster);
        assert Contains(parse, g, g.account, r, g.cluster);
      }
    }
  }

  lemma ClusterRegionGroupsIff(parse: Parser, name: string, cfg: AppConfig, data: AppMap)
    requires cfg.grouping.ByCluster? && cfg.regionsAreIndependent && NonblankNames(data)
    ensures EveryGroupInhabited(parse, name, cfg, data) <==> EveryClusterRegionLives(parse, name, data)
  {
    if EveryGroupInhabited(parse, name, cfg, data) {
      forall a, r, c | IsDeployed(data, a, r, c) ensures Lives(parse, name, data, a, r, c) {
        var g := Group(name, a, r, "", c);
        assert IsGroup(parse, name, cfg, data, g);
        var r', d :| Lives(parse, name, data, a, r', d) && Contains(parse, g, a, r', d);
        assert d == c && r' == r;
      }
    }
    if EveryClusterRegionLives(parse, name, data) {
      forall g | IsGroup(parse, name, cfg, data, g) ensures Inhabited(parse, data, g) {
        assert IsDeployed(data, g.account, g.region, g.cluster);
        assert Contains(parse, g, g.account, g.region, g.cluster);
      }
    }
  }

  lemma StackGroupsIff(parse: Parser, name: string, cfg: AppConfig, data: AppMap)
    requires cfg.grouping.ByStack? && !cfg.regionsAreIndependent
    ensures EveryGroupInhabited(parse, name, cfg, data) <==> EveryStackLives(parse, name, data)
  {
    if EveryGroupInhabited(parse, name, cfg, data) {
      forall a, c | a in data && c in data[a].clusters && parse(c).Some? ensures StackLives(parse, name, data, a, c) {
        var g := Group(name, a, "", parse(c).value.stack, "");
        assert HasStack(parse, c, g.stack) && IsGroup(parse, name, cfg, data, g);
        var r, d :| Lives(parse, name, data, a, r, d) && Contains(parse, g, a, r, d);
        assert Spans(parse, c, d);
      }
    }
    if EveryStackLives(parse, name, data) {
      forall g | IsGroup(parse, name, cfg, data, g) ensures Inhabited(parse, data, g) {
        var c :| c in data[g.account].clusters && HasStack(parse, c, g.stack);
        var r, d :| Lives(parse, name, data, g.account, r, d) && Spans(parse, c, d);
        assert Contains(parse, g, g.account, r, d);
      }
    }
  }

  lemma StackRegionGroupsIff(parse: Parser, name: string, cfg: AppConfig, data: AppMap)
    requires cfg.grouping.ByStack? && cfg.regionsAreIndependent && NonblankNames(data)
    ensures EveryGroupInhabited(parse, name, cfg, data) <==> EveryStackRegionLives(parse, name, data)
  {
    if EveryGroupInhabited(parse, name, cfg, data) {
      forall a, r, c | IsDeployed(data, a, r, c) && parse(c).Some?
        ensures exists d :: Lives(parse, name, data, a, r, d) && Spans(parse, c, d)
      {
        var g := Group(name, a, r, parse(c).value.stack, "");
        assert HasStack(parse, c, g.stack) && IsGroup(parse, name, cfg, data, g);
        var r', d :| Lives(parse, name, data, a, r', d) && Contains(parse, g, a, r', d);
        assert r' == r && Spans(parse, c, d);
      }
    }
    if EveryStackRegionLives(parse, name, data) {
      forall g | IsGroup(parse, name, cfg, data, g) ensures Inhabited(parse, data, g) {
        var c :| c in data[g.account].clusters && HasStack(parse, c, g.stack) && DeployedIn(data[g.account].clusters[c], g.region);
        assert IsDeployed(data, g.account, g.region, c);
        var d :| Lives(parse, name, data, g.account, g.region, d) && Spans(parse, c, d);
        assert Contains(parse, g, g.account, g.region, d);
      }
    }
  }

  // ---------------------------------------------------------------- main result and witnesses

  /** Every group has an instance exactly when everything that the grouping makes a group of has
      one: each account, or each cluster, or each account and stack, and with independent regions
      each of them in each region where it has an ASG. */
  lemma EveryGroupInhabitedIff(parse: Parser, name: string, cfg: AppConfig, data: AppMap)
    requires cfg.regionsAreIndependent || cfg.grouping.ByCluster? ==> NonblankNames(data)
    ensures EveryGroupInhabited(parse, name, cfg, data) <==> EverythingLives(parse, name, cfg, data)
  {
    match cfg.grouping
    case ByApp => if cfg.regionsAreIndependent { RegionGroupsIff(parse, name, cfg, data); } else { AccountGroupsIff(parse, name, cfg, data); }
    case ByStack =>
      if cfg.regionsAreIndependent { StackRegionGroupsIff(parse, name, cfg, data); } else { StackGroupsIff(parse, name, cfg, data); }
    case ByCluster =>
      if cfg.regionsAreIndependent { ClusterRegionGroupsIff(parse, name, cfg, data); } else { ClusterGroupsIff(parse, name, cfg, data); }
    case Unrecognized(_) =>
  }

  /** The same of the groups that are returned for the tree. */
  lemma ReturnedGroupsInhabitedIff(parse: Parser, cfg: AppConfig, data: AppMap, v: AppView, groups: seq<Group>)
    requires Shows(v, v.name, data) && Lists(groups, GroupsOf(parse, cfg, v))
    requires cfg.regionsAreIndependent || cfg.grouping.ByCluster? ==> NonblankNames(data)
    ensures (forall i :: 0 <= i < |groups| ==> Inhabited(parse, data, groups[i])) <==> EverythingLives(parse, v.name, cfg, data)
  {
    EveryGroupInhabitedIff(parse, v.name, cfg, data);
    if forall i :: 0 <= i < |groups| ==> Inhabited(parse, data, groups[i]) {
      forall g | IsGroup(parse, v.name, cfg, data, g) ensures Inhabited(parse, data, g) {
        GroupsAreGroups(parse, v.name, cfg, data, v, g);
        var i :| 0 <= i < |groups| && groups[i] == g;
      }
    }
    if EveryGroupInhabited(parse, v.name, cfg, data) {
      forall i | 0 <= i < |groups| ensures Inhabited(parse, data, groups[i]) {
        GroupsAreGroups(parse, v.name, cfg, data, v, groups[i]);
      }
    }
  }

  /** An account without clusters is a group all the same. */
  lemma EmptyAccountIsAGroup(parse: Parser, name: string, cfg: AppConfig, data: AppMap, account: string)
    requires cfg.grouping.ByApp? && !cfg.regionsAreIndependent
    requires account in data && data[account].clusters == map[]
    ensures var g := Group(name, account, "", "", ""); IsGroup(parse, name, cfg, data, g) && !Inhabited(parse, data, g)
  {
  }

  /** An ASG without instances makes a group without instances under each of the six groupings. */
  lemma EmptyAsgIsAGroup(parse: Parser, name: string, cfg: AppConfig, account: string, provider: string, cluster: string, region: string, asg: string)
    requires parse(cluster).Some? && parse(cluster).value.app == name && !cfg.grouping.Unrecognized?
    ensures var data := map[account := AccountInfo(provider, map[cluster := map[region := map[asg := []]]])];
            var g := OwnGroup(parse, name, cfg, account, region, cluster);
            IsGroup(parse, name, cfg, data, g) && !Inhabited(parse, data, g)
  {
    var data := map[account := AccountInfo(provider, map[cluster := map[region := map[asg := []]]])];
    assert asg in data[account].clusters[cluster][region];
    assert IsDeployed(data, account, region, cluster);
    OwnGroupHolds(parse, name, cfg, data, account, region, cluster);
  }
}
