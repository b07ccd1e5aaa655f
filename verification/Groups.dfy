/** Groups of instances (grp/grp.go). */
module Groups {
  import opened Domain

  /** A blank region, stack or cluster means that the group spans all of them. */
  datatype Group = Group(app: string, account: string, region: string, stack: string, cluster: string) {
    function Region(): Option<string> {
      if region == "" then None else Some(region)
    }

    function Stack(): Option<string> {
      if stack == "" then None else Some(stack)
    }

    function Cluster(): Option<string> {
      if cluster == "" then None else Some(cluster)
    }
  }

  predicate Equal(g: Group, h: Group) {
    if g == h then true
    else if g.app != h.app then false
    else if g.account != h.account then false
    else if g.Region().Some? != h.Region().Some? then false
    else if g.Region().Some? && g.Region().value != h.Region().value then false
    else if g.Stack().Some? != h.Stack().Some? then false
    else if g.Stack().Some? && g.Stack().value != h.Stack().value then false
    else if g.Cluster().Some? != h.Cluster().Some? then false
    else if g.Cluster().Some? && g.Cluster().value != h.Cluster().value then false
    else true
  }

  /** A group that grp.New makes is Equal to another exactly when the two are the same, so
      pairwise unequal groups are pairwise different values. */
  lemma EqualIffSame(g: Group, h: Group)
    ensures Equal(g, h) <==> g == h
  {
    assert g == h <==> g.app == h.app && g.account == h.account && g.region == h.region && g.stack == h.stack && g.cluster == h.cluster;
  }

  predicate AnyRegion(g: Group) { g.Region().None? }

  predicate AnyStack(g: Group) { g.Stack().None? }

  predicate AnyCluster(g: Group) { g.Cluster().None? }

  /** The stack is the one in the cluster's name; a name that does not parse is in no group. */
  predicate Contains(parse: Parser, g: Group, account: string, region: string, cluster: string) {
    match parse(cluster)
    case None => false
    case Some(names) =>
      && names.app == g.app
      && account == g.account
      && (AnyRegion(g) || region == g.Region().value)
      && (AnyStack(g) || names.stack == g.Stack().value)
      && (AnyCluster(g) || cluster == g.Cluster().value)
  }
}
