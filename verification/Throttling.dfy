/** What is scheduled as one group is throttled as one: the groups of an app, the instances that
    are eligible for them, and the key under which the checker looks for earlier kills
    (deploy/eligible_instance_groups.go:68-151, eligible/eligible.go:186-238, mysql/mysql.go:304-332). */
module Throttling {
  import opened Domain
  import opened Listing
  import opened Groups
  import opened Deploy
  import opened AppTree
  import opened InstanceGroups
  import opened Eligible
  import opened MinTime
  import opened Partition

  ghost predicate EligibleFor(parse: Parser, g: Group, exs: seq<Exception>, dep: Deployment, i: Domain.Instance) {
    Answers(parse, g, exs, dep) && i in EligibleInstances(parse, g, exs, dep)
  }

  lemma EligibleIsPickedFor(parse: Parser, g: Group, exs: seq<Exception>, dep: Deployment, i: Domain.Instance)
    requires EligibleFor(parse, g, exs, dep, i)
    ensures PickedFor(parse, g, i)
  {
    EligibleExactly(parse, g, exs, dep, i);
  }

  lemma GroupHasStack(parse: Parser, name: string, cfg: AppConfig, data: AppMap, g: Group, i: Domain.Instance)
    requires IsGroup(parse, name, cfg, data, g) && PickedFor(parse, g, i)
    requires cfg.grouping.ByStack? && StacksAreNamed(parse, data)
    ensures g.stack != ""
  {
    var c :| c in data[g.account].clusters && HasStack(parse, c, g.stack);
  }

  /** The two instances agree in everything but the stack that tells groups and keys apart. */
  predicate AgreeButForStack(cfg: AppConfig, i: Domain.Instance, j: Domain.Instance) {
    && i.app == j.app && i.account == j.account
    && (cfg.regionsAreIndependent ==> i.region == j.region)
    && (cfg.grouping.ByCluster? ==> i.cluster == j.cluster)
  }

  lemma SameKeyIff(cfg: AppConfig, i: Domain.Instance, j: Domain.Instance)
    ensures InstanceKey(cfg, i) == InstanceKey(cfg, j)
       <==> AgreeButForStack(cfg, i, j) && (cfg.grouping.ByStack? ==> i.stack == j.stack)
  {
  }

  lemma SameGroupIff(parse: Parser, name: string, cfg: AppConfig, data: AppMap, g: Group, h: Group, i: Domain.Instance, j: Domain.Instance)
    requires NonblankNames(data)
    requires IsGroup(parse, name, cfg, data, g) && IsGroup(parse, name, cfg, data, h)
    requires PickedFor(parse, g, i) && PickedFor(parse, h, j)
    ensures g == h <==> AgreeButForStack(cfg, i, j) && (cfg.grouping.ByStack? ==> g.stack == h.stack)
  {
    GroupOfPicked(parse, name, cfg, data, g, i);
    GroupOfPicked(parse, name, cfg, data, h, j);
  }

  lemma GroupOfPicked(parse: Parser, name: string, cfg: AppConfig, data: AppMap, g: Group, i: Domain.Instance)
    requires NonblankNames(data) && IsGroup(parse, name, cfg, data, g) && PickedFor(parse, g, i)
    ensures g == Group(i.app, i.account, if cfg.regionsAreIndependent then i.region else "",
                       if cfg.grouping.ByStack? then g.stack else "", if cfg.grouping.ByCluster? then i.cluster else "")
  {
  }

  /** For instances picked for two of an app's groups, at whatever times and with whatever
      exceptions, being in the same group and being throttled under the same key agree exactly
      when, should only the stack tell them apart, the groups' stacks are equal just when those
      in the names of the instances' ASGs are. */
  lemma GroupAgreesWithKeyIff(parse: Parser, cfg: AppConfig, data: AppMap, v: AppView, groups: seq<Group>, a: nat, b: nat,
                              exs: seq<Exception>, dep: Deployment, i: Domain.Instance,
                              exs': seq<Exception>, dep': Deployment, j: Domain.Instance)
    requires Shows(v, v.name, data) && Lists(groups, GroupsOf(parse, cfg, v)) && NonblankNames(data)
    requires a < |groups| && EligibleFor(parse, groups[a], exs, dep, i)
    requires b < |groups| && EligibleFor(parse, groups[b], exs', dep', j)
    ensures (a == b <==> InstanceKey(cfg, i) == InstanceKey(cfg, j))
       <==> (cfg.grouping.ByStack? && AgreeButForStack(cfg, i, j) ==>
               (groups[a].stack == groups[b].stack <==> i.stack == j.stack))
  {
    GroupsAreGroups(parse, v.name, cfg, data, v, groups[a]);
    GroupsAreGroups(parse, v.name, cfg, data, v, groups[b]);
    EligibleIsPickedFor(parse, groups[a], exs, dep, i);
    EligibleIsPickedFor(parse, groups[b], exs', dep', j);
    SameGroupIff(parse, v.name, cfg, data, groups[a], groups[b], i, j);
    SameKeyIff(cfg, i, j);
    ListedGroupsDiffer(groups, GroupsOf(parse, cfg, v));
  }

  lemma StackOfGroup(parse: Parser, cfg: AppConfig, data: AppMap, v: AppView, g: Group, exs: seq<Exception>, dep: Deployment, i: Domain.Instance)
    requires Shows(v, v.name, data) && g in GroupsOf(parse, cfg, v) && EligibleFor(parse, g, exs, dep, i)
    requires cfg.grouping.ByStack? && StacksAreNamed(parse, data)
    ensures HasStack(parse, i.cluster, g.stack)
  {
    GroupsAreGroups(parse, v.name, cfg, data, v, g);
    EligibleIsPickedFor(parse, g, exs, dep, i);
    GroupHasStack(parse, v.name, cfg, data, g, i);
  }

  /** When stacks are not blank, the groups' stacks are those in the names of the instances'
      clusters. So group and key agree for the pair exactly when the stacks of the clusters are
      equal just when those of the ASGs are, and always for ASGs that have their cluster's stack. */
  lemma SameGroupIffThrottledTogether(parse: Parser, cfg: AppConfig, data: AppMap, v: AppView, groups: seq<Group>, a: nat, b: nat,
                                      exs: seq<Exception>, dep: Deployment, i: Domain.Instance,
                                      exs': seq<Exception>, dep': Deployment, j: Domain.Instance)
    requires Shows(v, v.name, data) && Lists(groups, GroupsOf(parse, cfg, v)) && NonblankNames(data)
    requires a < |groups| && EligibleFor(parse, groups[a], exs, dep, i)
    requires b < |groups| && EligibleFor(parse, groups[b], exs', dep', j)
    requires cfg.grouping.ByStack? ==> StacksAreNamed(parse, data)
    ensures (a == b <==> InstanceKey(cfg, i) == InstanceKey(cfg, j))
       <==> (cfg.grouping.ByStack? && AgreeButForStack(cfg, i, j) ==>
               (StackOf(parse, i.cluster) == StackOf(parse, j.cluster) <==> i.stack == j.stack))
    ensures (cfg.grouping.ByStack? ==> HasStack(parse, i.cluster, i.stack) && HasStack(parse, j.cluster, j.stack)) ==>
              (a == b <==> InstanceKey(cfg, i) == InstanceKey(cfg, j))
  {
    GroupAgreesWithKeyIff(parse, cfg, data, v, groups, a, b, exs, dep, i, exs', dep', j);
    if cfg.grouping.ByStack? {
      StackOfGroup(parse, cfg, data, v, groups[a], exs, dep, i);
      StackOfGroup(parse, cfg, data, v, groups[b], exs', dep', j);
    }
  }
}
