/** The groups of an app from which instances may be picked (deploy/eligible_instance_groups.go). */
module InstanceGroups {
  import opened Domain
  import opened Listing
  import opened Groups
  import opened Deploy

  // ---------------------------------------------------------------- which groups there must be

  ghost function ClusterGroups(app: string, account: string, indep: bool, clusters: seq<ClusterView>): set<Group> {
    if indep
    then set c, r | 0 <= c < |clusters| && r in ClusterRegions(clusters[c]) :: Group(app, account, r, "", clusters[c].name)
    else set c | 0 <= c < |clusters| :: Group(app, account, "", "", clusters[c].name)
  }

  ghost function StackGroups(parse: Parser, app: string, account: string, clusters: seq<ClusterView>): set<Group> {
    set c, r | 0 <= c < |clusters| && StackOf(parse, clusters[c].name).Ok? && r in ClusterRegions(clusters[c])
      :: Group(app, account, r, StackOf(parse, clusters[c].name).value, "")
  }

  /** The groups of one account under a configuration. */
  ghost function GroupsOfAccount(parse: Parser, app: string, grouping: Grouping, indep: bool, v: AccountView): set<Group> {
    match grouping
    case ByApp =>
      if indep
      then set r | r in AccountRegions(v.clusters) :: Group(app, v.name, r, "", "")
      else {Group(app, v.name, "", "", "")}
    case ByStack =>
      if indep
      then StackGroups(parse, app, v.name, v.clusters)
      else set s | s in AccountStacks(parse, v.clusters) :: Group(app, v.name, "", s, "")
    case ByCluster => ClusterGroups(app, v.name, indep, v.clusters)
    case Unrecognized(_) => {}
  }

  ghost function GroupsOfAccounts(parse: Parser, app: string, grouping: Grouping, indep: bool, accounts: seq<AccountView>): set<Group> {
    set a, g | 0 <= a < |accounts| && g in GroupsOfAccount(parse, app, grouping, indep, accounts[a]) :: g
  }

  ghost predicate Distinct(v: AppView) {
    && (forall a, b :: 0 <= a < b < |v.accounts| ==> v.accounts[a].name != v.accounts[b].name)
    && (forall a :: 0 <= a < |v.accounts| ==> DistinctClusters(v.accounts[a].clusters))
  }

  ghost predicate DistinctClusters(clusters: seq<ClusterView>) {
    forall c, d :: 0 <= c < d < |clusters| ==> clusters[c].name != clusters[d].name
  }

  lemma GroupsNameTheirAccount(parse: Parser, app: string, grouping: Grouping, indep: bool, v: AccountView)
    ensures forall g :: g in GroupsOfAccount(parse, app, grouping, indep, v) ==> g.app == app && g.account == v.name
  {
  }

  lemma OneMoreAccount(parse: Parser, app: string, grouping: Grouping, indep: bool, v: AppView, i: nat, result: seq<Group>, part: seq<Group>)
    requires Distinct(v) && i < |v.accounts|
    requires Lists(result, GroupsOfAccounts(parse, app, grouping, indep, v.accounts[..i]))
    requires Lists(part, GroupsOfAccount(parse, app, grouping, indep, v.accounts[i]))
    ensures Lists(result + part, GroupsOfAccounts(parse, app, grouping, indep, v.accounts[..i + 1]))
  {
    var before, more := GroupsOfAccounts(parse, app, grouping, indep, v.accounts[..i]), GroupsOfAccount(parse, app, grouping, indep, v.accounts[i]);
    forall g | g in before ensures g !in more {
      var a :| 0 <= a < i && g in GroupsOfAccount(parse, app, grouping, indep, v.accounts[..i][a]);
      GroupsNameTheirAccount(parse, app, grouping, indep, v.accounts[a]);
      GroupsNameTheirAccount(parse, app, grouping, indep, v.accounts[i]);
    }
    ListsConcat(result, before, part, more);
    OneMoreAccountsGroups(parse, app, grouping, indep, v.accounts, i);
  }

  // ---------------------------------------------------------------- the inner loops

  /** One group for each region name. */
  method ForRegions(app: string, account: string, stack: string, cluster: string, names: seq<string>, ghost regions: set<string>)
    returns (result: seq<Group>)
    requires Lists(names, regions)
    ensures Lists(result, set r | r in regions :: Group(app, account, r, stack, cluster))
  {
    result := [];
    for i := 0 to |names|
      invariant |result| == i && forall k :: 0 <= k < i ==> result[k] == Group(app, account, names[k], stack, cluster)
    {
      result := result + [Group(app, account, names[i], stack, cluster)];
    }
    forall i, j | 0 <= i < j < |result| ensures result[i] != result[j] {
      assert result[i].region == names[i] && result[j].region == names[j];
    }
    forall r | r in regions ensures Group(app, account, r, stack, cluster) in result {
      var i :| 0 <= i < |names| && names[i] == r;
      assert result[i].region == r;
    }
  }

  /** One group for each stack name. */
  method ForStacks(app: string, account: string, names: seq<string>, ghost stacks: set<string>) returns (result: seq<Group>)
    requires Lists(names, stacks)
    ensures Lists(result, set s | s in stacks :: Group(app, account, "", s, ""))
  {
    result := [];
    for i := 0 to |names|
      invariant |result| == i && forall k :: 0 <= k < i ==> result[k] == Group(app, account, "", names[k], "")
    {
      result := result + [Group(app, account, "", names[i], "")];
    }
    forall i, j | 0 <= i < j < |result| ensures result[i] != result[j] {
      assert result[i].stack == names[i] && result[j].stack == names[j];
    }
    forall s | s in stacks ensures Group(app, account, "", s, "") in result {
      var i :| 0 <= i < |names| && names[i] == s;
      assert result[i].stack == s;
    }
  }

  lemma OneMoreCluster(app: string, account: string, indep: bool, clusters: seq<ClusterView>, i: nat, result: seq<Group>, part: seq<Group>)
    requires DistinctClusters(clusters) && i < |clusters|
    requires Lists(result, ClusterGroups(app, account, indep, clusters[..i]))
    requires Lists(part, ClusterGroups(app, account, indep, [clusters[i]]))
    ensures Lists(result + part, ClusterGroups(app, account, indep, clusters[..i + 1]))
  {
    var before, more := ClusterGroups(app, account, indep, clusters[..i]), ClusterGroups(app, account, indep, [clusters[i]]);
    assert forall g :: g in more ==> g.cluster == clusters[i].name;
    forall g | g in before ensures g !in more {
      var c :| 0 <= c < i && g.cluster == clusters[..i][c].name;
      assert clusters[c].name != clusters[i].name;
    }
    ListsConcat(result, before, part, more);
    ClusterGroupsSplit(app, account, indep, clusters, i);
  }

  lemma ClusterGroupsSplit(app: string, account: string, indep: bool, clusters: seq<ClusterView>, i: nat)
    requires i < |clusters|
    ensures ClusterGroups(app, account, indep, clusters[..i + 1])
         == ClusterGroups(app, account, indep, clusters[..i]) + ClusterGroups(app, account, indep, [clusters[i]])
  {
    assert clusters[..i + 1] == clusters[..i] + [clusters[i]];
    assert [clusters[i]][0] == clusters[i];
  }

  lemma OneClustersGroups(app: string, account: string, v: ClusterView)
    ensures ClusterGroups(app, account, true, [v]) == set r | r in ClusterRegions(v) :: Group(app, account, r, "", v.name)
    ensures ClusterGroups(app, account, false, [v]) == {Group(app, account, "", "", v.name)}
  {
    assert [v][0] == v;
  }

  method ForClusterRegions(app: string, account: string, cluster: Cluster) returns (result: seq<Group>)
    ensures Lists(result, ClusterGroups(app, account, true, [old(cluster.View())]))
  {
    AsgViewsAt(cluster.asgs);
    ghost var v := cluster.View();
    var names := cluster.RegionNames();
    result := ForRegions(app, account, "", cluster.name, names, ClusterRegions(v));
    OneClustersGroups(app, account, v);
  }

  method ClusterIndepPart(app: string, account: Account) returns (result: seq<Group>)
    requires DistinctClusters(ClusterViews(account.clusters))
    ensures Lists(result, ClusterGroups(app, account.name, true, old(ClusterViews(account.clusters))))
  {
    ghost var vs := ClusterViews(account.clusters);
    ClusterViewsAt(account.clusters);
    result := [];
    for i := 0 to |account.clusters|
      invariant ClusterViews(account.clusters) == vs
      invariant Lists(result, ClusterGroups(app, account.name, true, vs[..i]))
    {
      ClusterViewsAt(account.clusters);
      label before:
      var part := ForClusterRegions(app, account.name, account.clusters[i]);
      SameClusterViews@before(account.clusters);
      OneMoreCluster(app, account.name, true, vs, i, result, part);
      result := result + part;
    }
    assert vs[..|account.clusters|] == vs;
  }

  method ClusterDepPart(app: string, account: Account) returns (result: seq<Group>)
    requires DistinctClusters(ClusterViews(account.clusters))
    ensures Lists(result, ClusterGroups(app, account.name, false, old(ClusterViews(account.clusters))))
  {
    ghost var vs := ClusterViews(account.clusters);
    ClusterViewsAt(account.clusters);
    result := [];
    for i := 0 to |account.clusters|
      invariant Lists(result, ClusterGroups(app, account.name, false, vs[..i]))
    {
      var part := [Group(app, account.name, "", "", account.clusters[i].name)];
      OneClustersGroups(app, account.name, vs[i]);
      OneMoreCluster(app, account.name, false, vs, i, result, part);
      result := result + part;
    }
    assert vs[..|account.clusters|] == vs;
  }

  method StackDepPart(parse: Parser, app: string, account: Account) returns (r: Result<seq<Group>>)
    ensures r.Ok? <==> StacksKnown(parse, old(account.View()).clusters)
    ensures r.Ok? ==> Lists(r.value, GroupsOfAccount(parse, app, ByStack, false, old(account.View())))
  {
    ghost var v := account.View();
    label before:
    var names := account.StackNames(parse);
    SameClusterViews@before(account.clusters);
    if names.Err? { return Err(names.error); }
    var result := ForStacks(app, account.name, names.value, AccountStacks(parse, v.clusters));
    return Ok(result);
  }

  method AppIndepPart(ghost parse: Parser, app: string, account: Account) returns (result: seq<Group>)
    ensures Lists(result, GroupsOfAccount(parse, app, ByApp, true, old(account.View())))
  {
    ghost var v := account.View();
    label before:
    var names := account.RegionNames();
    SameClusterViews@before(account.clusters);
    result := ForRegions(app, account.name, "", "", names, AccountRegions(v.clusters));
  }

  /** The key of the set that stackIndep fills. */
  datatype Asr = Asr(account: string, stack: string, region: string)

  ghost function AsrGroups(app: string, m: set<Asr>): set<Group> {
    set x | x in m :: Group(app, x.account, x.region, x.stack, "")
  }

  method ClusterAsrs(account: string, stack: string, cluster: Cluster) returns (m: set<Asr>)
    ensures m == set r | r in ClusterRegions(old(cluster.View())) :: Asr(account, stack, r)
  {
    ghost var v := cluster.View();
    var names := cluster.RegionNames();
    m := set r | r in names :: Asr(account, stack, r);
    assert forall r :: r in names <==> r in ClusterRegions(v);
  }

  lemma OneMoreStack(parse: Parser, app: string, account: string, clusters: seq<ClusterView>, i: nat, m: set<Asr>, more: set<Asr>)
    requires i < |clusters| && StacksKnown(parse, clusters[..i]) && StackOf(parse, clusters[i].name).Ok?
    requires AsrGroups(app, m) == StackGroups(parse, app, account, clusters[..i])
    requires more == set r | r in ClusterRegions(clusters[i]) :: Asr(account, StackOf(parse, clusters[i].name).value, r)
    ensures StacksKnown(parse, clusters[..i + 1])
    ensures AsrGroups(app, m + more) == StackGroups(parse, app, account, clusters[..i + 1])
  {
    assert clusters[..i + 1] == clusters[..i] + [clusters[i]];
    var stack := StackOf(parse, clusters[i].name).value;
    var added := set r | r in ClusterRegions(clusters[i]) :: Group(app, account, r, stack, "");
    assert AsrGroups(app, more) == added by {
      forall r | r in ClusterRegions(clusters[i]) ensures Group(app, account, r, stack, "") in AsrGroups(app, more) {
        assert Asr(account, stack, r) in more;
      }
    }
    assert AsrGroups(app, m + more) == AsrGroups(app, m) + AsrGroups(app, more);
    StackGroupsSplit(parse, app, account, clusters, i);
  }

  lemma StackGroupsSplit(parse: Parser, app: string, account: string, clusters: seq<ClusterView>, i: nat)
    requires i < |clusters| && StackOf(parse, clusters[i].name).Ok?
    ensures StackGroups(parse, app, account, clusters[..i + 1])
         == StackGroups(parse, app, account, clusters[..i])
            + set r | r in ClusterRegions(clusters[i]) :: Group(app, account, r, StackOf(parse, clusters[i].name).value, "")
  {
    assert clusters[..i + 1] == clusters[..i] + [clusters[i]];
  }

  method StackIndepPart(parse: Parser, ghost app: string, account: Account) returns (r: Result<set<Asr>>)
    ensures r.Ok? <==> StacksKnown(parse, old(ClusterViews(account.clusters)))
    ensures r.Ok? ==> AsrGroups(app, r.value) == StackGroups(parse, app, account.name, old(ClusterViews(account.clusters)))
  {
    ghost var vs := ClusterViews(account.clusters);
    ClusterViewsAt(account.clusters);
    var m: set<Asr> := {};
    for i := 0 to |account.clusters|
      invariant ClusterViews(account.clusters) == vs
      invariant StacksKnown(parse, vs[..i])
      invariant AsrGroups(app, m) == StackGroups(parse, app, account.name, vs[..i])
    {
      ClusterViewsAt(account.clusters);
      var stack := StackOf(parse, account.clusters[i].name);
      if stack.Err? {
        assert StackOf(parse, vs[i].name).Err?;
        return Err(stack.error);
      }
      label before:
      var more := ClusterAsrs(account.name, stack.value, account.clusters[i]);
      SameClusterViews@before(account.clusters);
      OneMoreStack(parse, app, account.name, vs, i, m, more);
      m := m + more;
    }
    assert vs[..|account.clusters|] == vs;
    return Ok(m);
  }

  // ---------------------------------------------------------------- one account of an app

  method StackIndepOf(parse: Parser, app: App, i: nat) returns (part: Result<set<Asr>>)
    requires i < |app.accounts|
    ensures var vs := old(AccountViews(app.accounts));
            && AccountViews(app.accounts) == vs && i < |vs|
            && (part.Ok? <==> StacksKnown(parse, vs[i].clusters))
            && (part.Ok? ==> AsrGroups(app.name, part.value) == GroupsOfAccount(parse, app.name, ByStack, true, vs[i]))
  {
    AccountViewsAt(app.accounts);
    label before:
    part := StackIndepPart(parse, app.name, app.accounts[i]);
    SameAccountViews@before(app.accounts);
  }

  method AppIndepOf(ghost parse: Parser, app: App, i: nat) returns (part: seq<Group>)
    requires i < |app.accounts|
    ensures var vs := old(AccountViews(app.accounts));
            AccountViews(app.accounts) == vs && i < |vs| && Lists(part, GroupsOfAccount(parse, app.name, ByApp, true, vs[i]))
  {
    AccountViewsAt(app.accounts);
    label before:
    part := AppIndepPart(parse, app.name, app.accounts[i]);
    SameAccountViews@before(app.accounts);
  }

  method StackDepOf(parse: Parser, app: App, i: nat) returns (part: Result<seq<Group>>)
    requires i < |app.accounts|
    ensures var vs := old(AccountViews(app.accounts));
            && AccountViews(app.accounts) == vs && i < |vs|
            && (part.Ok? <==> StacksKnown(parse, vs[i].clusters))
            && (part.Ok? ==> Lists(part.value, GroupsOfAccount(parse, app.name, ByStack, false, vs[i])))
  {
    AccountViewsAt(app.accounts);
    label before:
    part := StackDepPart(parse, app.name, app.accounts[i]);
    SameAccountViews@before(app.accounts);
  }

  method ClusterIndepOf(ghost parse: Parser, app: App, i: nat) returns (part: seq<Group>)
    requires i < |app.accounts| && Distinct(app.View())
    ensures var vs := old(AccountViews(app.accounts));
            AccountViews(app.accounts) == vs && i < |vs| && Lists(part, GroupsOfAccount(parse, app.name, ByCluster, true, vs[i]))
  {
    AccountViewsAt(app.accounts);
    assert DistinctClusters(app.View().accounts[i].clusters);
    label before:
    part := ClusterIndepPart(app.name, app.accounts[i]);
    SameAccountViews@before(app.accounts);
  }

  method ClusterDepOf(ghost parse: Parser, app: App, i: nat) returns (part: seq<Group>)
    requires i < |app.accounts| && Distinct(app.View())
    ensures var vs := old(AccountViews(app.accounts));
            AccountViews(app.accounts) == vs && i < |vs| && Lists(part, GroupsOfAccount(parse, app.name, ByCluster, false, vs[i]))
  {
    AccountViewsAt(app.accounts);
    assert DistinctClusters(app.View().accounts[i].clusters);
    label before:
    part := ClusterDepPart(app.name, app.accounts[i]);
    SameAccountViews@before(app.accounts);
  }

  // ---------------------------------------------------------------- the six groupings

  method AppIndep(ghost parse: Parser, app: App) returns (result: seq<Group>)
    requires Distinct(app.View())
    ensures Lists(result, GroupsOfAccounts(parse, app.name, ByApp, true, old(AccountViews(app.accounts))))
  {
    ghost var v := app.View();
    AccountViewsAt(app.accounts);
    result := [];
    for i := 0 to |app.accounts|
      invariant AccountViews(app.accounts) == v.accounts
      invariant Lists(result, GroupsOfAccounts(parse, app.name, ByApp, true, v.accounts[..i]))
    {
      var part := AppIndepOf(parse, app, i);
      OneMoreAccount(parse, app.name, ByApp, true, v, i, result, part);
      result := result + part;
    }
    assert v.accounts[..|app.accounts|] == v.accounts;
  }

  method AppDep(ghost parse: Parser, app: App) returns (result: seq<Group>)
    requires Distinct(app.View())
    ensures Lists(result, GroupsOfAccounts(parse, app.name, ByApp, false, old(AccountViews(app.accounts))))
  {
    ghost var v := app.View();
    AccountViewsAt(app.accounts);
    result := [];
    for i := 0 to |app.accounts|
      invariant Lists(result, GroupsOfAccounts(parse, app.name, ByApp, false, v.accounts[..i]))
    {
      var part := [Group(app.name, app.accounts[i].name, "", "", "")];
      OneMoreAccount(parse, app.name, ByApp, false, v, i, result, part);
      result := result + part;
    }
    assert v.accounts[..|app.accounts|] == v.accounts;
  }

  method StackDep(parse: Parser, app: App) returns (r: Result<seq<Group>>)
    requires Distinct(app.View())
    ensures r.Ok? <==> AllStacksKnown(parse, old(AccountViews(app.accounts)))
    ensures r.Ok? ==> Lists(r.value, GroupsOfAccounts(parse, app.name, ByStack, false, old(AccountViews(app.accounts))))
  {
    ghost var v := app.View();
    AccountViewsAt(app.accounts);
    var result: seq<Group> := [];
    for i := 0 to |app.accounts|
      invariant AccountViews(app.accounts) == v.accounts
      invariant AllStacksKnown(parse, v.accounts[..i])
      invariant Lists(result, GroupsOfAccounts(parse, app.name, ByStack, false, v.accounts[..i]))
    {
      var part := StackDepOf(parse, app, i);
      OneMoreKnown(parse, v.accounts, i);
      if part.Err? { return Err(part.error); }
      OneMoreAccount(parse, app.name, ByStack, false, v, i, result, part.value);
      result := result + part.value;
    }
    assert v.accounts[..|app.accounts|] == v.accounts;
    return Ok(result);
  }

  method ClusterIndep(ghost parse: Parser, app: App) returns (result: seq<Group>)
    requires Distinct(app.View())
    ensures Lists(result, GroupsOfAccounts(parse, app.name, ByCluster, true, old(AccountViews(app.accounts))))
  {
    ghost var v := app.View();
    AccountViewsAt(app.accounts);
    result := [];
    for i := 0 to |app.accounts|
      invariant AccountViews(app.accounts) == v.accounts
      invariant Lists(result, GroupsOfAccounts(parse, app.name, ByCluster, true, v.accounts[..i]))
    {
      var part := ClusterIndepOf(parse, app, i);
      OneMoreAccount(parse, app.name, ByCluster, true, v, i, result, part);
      result := result + part;
    }
    assert v.accounts[..|app.accounts|] == v.accounts;
  }

  method ClusterDep(ghost parse: Parser, app: App) returns (result: seq<Group>)
    requires Distinct(app.View())
    ensures Lists(result, GroupsOfAccounts(parse, app.name, ByCluster, false, old(AccountViews(app.accounts))))
  {
    ghost var v := app.View();
    AccountViewsAt(app.accounts);
    result := [];
    for i := 0 to |app.accounts|
      invariant AccountViews(app.accounts) == v.accounts
      invariant Lists(result, GroupsOfAccounts(parse, app.name, ByCluster, false, v.accounts[..i]))
    {
      var part := ClusterDepOf(parse, app, i);
      OneMoreAccount(parse, app.name, ByCluster, false, v, i, result, part);
      result := result + part;
    }
    assert v.accounts[..|app.accounts|] == v.accounts;
  }

  method StackIndep(parse: Parser, app: App) returns (r: Result<seq<Group>>)
    ensures r.Ok? <==> AllStacksKnown(parse, old(AccountViews(app.accounts)))
    ensures r.Ok? ==> Lists(r.value, GroupsOfAccounts(parse, app.name, ByStack, true, old(AccountViews(app.accounts))))
  {
    ghost var vs := AccountViews(app.accounts);
    AccountViewsAt(app.accounts);
    var m: set<Asr> := {};
    for i := 0 to |app.accounts|
      invariant AccountViews(app.accounts) == vs
      invariant AllStacksKnown(parse, vs[..i])
      invariant AsrGroups(app.name, m) == GroupsOfAccounts(parse, app.name, ByStack, true, vs[..i])
    {
      var part := StackIndepOf(parse, app, i);
      OneMoreKnown(parse, vs, i);
      if part.Err? { return Err(part.error); }
      OneMoreAsrs(parse, app.name, vs, i, m, part.value);
      m := m + part.value;
    }
    assert vs[..|app.accounts|] == vs;
    var keys := Range(m);
    var result := ForAsrs(app.name, keys, m);
    return Ok(result);
  }

  /** One group for each key of the set. */
  method ForAsrs(app: string, keys: seq<Asr>, ghost m: set<Asr>) returns (result: seq<Group>)
    requires Lists(keys, m)
    ensures Lists(result, AsrGroups(app, m))
  {
    result := [];
    for i := 0 to |keys|
      invariant |result| == i
      invariant forall k :: 0 <= k < i ==> result[k] == Group(app, keys[k].account, keys[k].region, keys[k].stack, "")
    {
      result := result + [Group(app, keys[i].account, keys[i].region, keys[i].stack, "")];
    }
    forall i, j | 0 <= i < j < |result| ensures result[i] != result[j] {
      assert keys[i] != keys[j];
    }
    forall x | x in m ensures Group(app, x.account, x.region, x.stack, "") in result {
      var i :| 0 <= i < |keys| && keys[i] == x;
      assert result[i].stack == x.stack;
    }
  }

  lemma OneMoreAccountsGroups(parse: Parser, app: string, grouping: Grouping, indep: bool, accounts: seq<AccountView>, i: nat)
    requires i < |accounts|
    ensures GroupsOfAccounts(parse, app, grouping, indep, accounts[..i + 1])
         == GroupsOfAccounts(parse, app, grouping, indep, accounts[..i]) + GroupsOfAccount(parse, app, grouping, indep, accounts[i])
  {
    assert accounts[..i + 1] == accounts[..i] + [accounts[i]];
  }

  lemma OneMoreAsrs(parse: Parser, app: string, accounts: seq<AccountView>, i: nat, m: set<Asr>, more: set<Asr>)
    requires i < |accounts|
    requires AsrGroups(app, m) == GroupsOfAccounts(parse, app, ByStack, true, accounts[..i])
    requires AsrGroups(app, more) == GroupsOfAccount(parse, app, ByStack, true, accounts[i])
    ensures AsrGroups(app, m + more) == GroupsOfAccounts(parse, app, ByStack, true, accounts[..i + 1])
  {
    OneMoreAccountsGroups(parse, app, ByStack, true, accounts, i);
    assert AsrGroups(app, m + more) == AsrGroups(app, m) + AsrGroups(app, more);
  }

  lemma OneMoreKnown(parse: Parser, accounts: seq<AccountView>, i: nat)
    requires i < |accounts|
    ensures AllStacksKnown(parse, accounts[..i + 1]) <==> AllStacksKnown(parse, accounts[..i]) && StacksKnown(parse, accounts[i].clusters)
    ensures AllStacksKnown(parse, accounts) ==> StacksKnown(parse, accounts[i].clusters)
  {
    assert accounts[..i + 1] == accounts[..i] + [accounts[i]];
    assert forall a :: 0 <= a < i ==> accounts[..i + 1][a] == accounts[..i][a];
  }

  ghost predicate AllStacksKnown(parse: Parser, accounts: seq<AccountView>) {
    forall a :: 0 <= a < |accounts| ==> StacksKnown(parse, accounts[a].clusters)
  }

  // ---------------------------------------------------------------- the dispatch

  ghost function GroupsOf(parse: Parser, cfg: AppConfig, v: AppView): set<Group> {
    GroupsOfAccounts(parse, v.name, cfg.grouping, cfg.regionsAreIndependent, v.accounts)
  }

  /** The groups of the app, each once. A disabled app is a fatal error; an unknown grouping is a
      panic, and so is a cluster name that does not parse when grouping by stack. */
  method EligibleInstanceGroups(parse: Parser, app: App, cfg: AppConfig) returns (r: Result<seq<Group>>)
    requires Distinct(app.View())
    ensures r.Ok? <==> && cfg.enabled && !cfg.grouping.Unrecognized?
                       && (cfg.grouping.ByStack? ==> AllStacksKnown(parse, old(app.View()).accounts))
    ensures r.Ok? ==> Lists(r.value, GroupsOf(parse, cfg, old(app.View())))
  {
    if !cfg.enabled { return Err(FatalAppDisabled); }
    var groups: seq<Group>;
    match cfg.grouping
    case ByApp =>
      if cfg.regionsAreIndependent { groups := AppIndep(parse, app); } else { groups := AppDep(parse, app); }
      return Ok(groups);
    case ByStack =>
      if cfg.regionsAreIndependent { r := StackIndep(parse, app); } else { r := StackDep(parse, app); }
    case ByCluster =>
      if cfg.regionsAreIndependent { groups := ClusterIndep(parse, app); } else { groups := ClusterDep(parse, app); }
      return Ok(groups);
    case Unrecognized(_) =>
      return Err(Panic("Unknown grouping"));
  }
}
