/** However an app is grouped, the same instance ids are eligible in the same places, although each
    call may range over the maps of the in-memory deployment in another order
    (eligible/eligible.go:186-209 over mock/deployment.go:76-154). */
module Regrouping {
  import opened Domain
  import opened Listing
  import opened Groups
  import opened Deploy
  import opened AppTree
  import opened InstanceGroups
  import opened Eligible
  import opened Mock
  import opened Partition
  import opened Conservation
  import opened ListingOrder

  /** An instance but for the name of its ASG, which is the one that came last, and its stack. */
  datatype Address = Address(account: string, cluster: string, region: string, id: string)

  function AddressOf(i: Domain.Instance): Address {
    Address(i.account, i.cluster, i.region, i.id)
  }

  function Addresses(es: seq<Domain.Instance>): (r: seq<Address>)
    ensures |r| == |es| && forall k :: 0 <= k < |es| ==> r[k] == AddressOf(es[k])
  {
    seq(|es|, k requires 0 <= k < |es| => AddressOf(es[k]))
  }

  ghost function Times(w: Address, es: seq<Domain.Instance>): nat {
    multiset(Addresses(es))[w]
  }

  lemma TimesConcat(w: Address, a: seq<Domain.Instance>, b: seq<Domain.Instance>)
    ensures Times(w, a + b) == Times(w, a) + Times(w, b)
  {
    assert Addresses(a + b) == Addresses(a) + Addresses(b);
  }

  // ---------------------------------------------------------------- one site

  predicate IsPlaceOf(s: Site, w: Address) {
    s.account == w.account && s.cluster == w.cluster && s.region == w.region
  }

  lemma {:induction false} TimesOfIds(s: Site, w: Address, es: seq<Domain.Instance>, ids: seq<string>)
    requires |es| == |ids|
    requires forall k :: 0 <= k < |es| ==> AddressOf(es[k]) == Address(s.account, s.cluster, s.region, ids[k])
    ensures Times(w, es) == if IsPlaceOf(s, w) then multiset(ids)[w.id] else 0
    decreases |es|
  {
    if es != [] {
      var n := |es| - 1;
      TimesOfIds(s, w, es[..n], ids[..n]);
      assert es == es[..n] + [es[n]] && ids == ids[..n] + [ids[n]];
      TimesConcat(w, es[..n], [es[n]]);
      assert Addresses([es[n]]) == [AddressOf(es[n])];
    }
  }

  lemma TimesAt(parse: Parser, dep: Deployment, s: Site, w: Address)
    requires AnswerWorks(parse, dep, s)
    ensures Times(w, InstancesAt(parse, dep, s)) == if IsPlaceOf(s, w) then multiset(Answer(dep, s).value.1)[w.id] else 0
  {
    TimesOfIds(s, w, InstancesAt(parse, dep, s), Answer(dep, s).value.1);
  }

  // ---------------------------------------------------------------- all sites

  lemma {:induction false} TimesNowhere(parse: Parser, dep: Deployment, sites: seq<Site>, w: Address)
    requires AnswersWork(parse, dep, sites)
    requires forall k :: 0 <= k < |sites| ==> !IsPlaceOf(sites[k], w)
    ensures Times(w, InstancesAll(parse, dep, sites)) == 0
    decreases |sites|
  {
    if sites != [] {
      var n := |sites| - 1;
      TimesNowhere(parse, dep, sites[..n], w);
      TimesAt(parse, dep, sites[n], w);
      TimesConcat(w, InstancesAll(parse, dep, sites[..n]), InstancesAt(parse, dep, sites[n]));
    }
  }

  lemma {:induction false} TimesOnce(parse: Parser, dep: Deployment, sites: seq<Site>, w: Address, k: nat)
    requires AnswersWork(parse, dep, sites) && k < |sites|
    requires forall l :: 0 <= l < |sites| ==> (IsPlaceOf(sites[l], w) <==> l == k)
    ensures AnswerWorks(parse, dep, sites[k])
    ensures Times(w, InstancesAll(parse, dep, sites)) == multiset(Answer(dep, sites[k]).value.1)[w.id]
    decreases |sites|
  {
    var n := |sites| - 1;
    TimesAt(parse, dep, sites[n], w);
    TimesConcat(w, InstancesAll(parse, dep, sites[..n]), InstancesAt(parse, dep, sites[n]));
    if k == n {
      TimesNowhere(parse, dep, sites[..n], w);
    } else {
      TimesOnce(parse, dep, sites[..n], w, k);
    }
  }

  ghost predicate ClustersAndRegionsAreSets(dep: Deployment) {
    && (forall app, account :: dep.clusterNames(app, account).Ok? ==> NoRepeats(dep.clusterNames(app, account).value))
    && (forall app, account, cluster ::
          dep.regionNames(app, account, cluster).Ok? ==> NoRepeats(dep.regionNames(app, account, cluster).value))
  }

  /** A place has one site at most. */
  lemma OneSiteEach(parse: Parser, dep: Deployment, account: string, listed: seq<string>, spots: seq<Spot>, sites: seq<Site>, k: nat, l: nat)
    requires ClustersAndRegionsAreSets(dep) && NoRepeats(listed)
    requires AreSitesAt(parse, dep, account, listed, spots, sites) && k < l < |sites|
    ensures sites[k].cluster != sites[l].cluster || sites[k].region != sites[l].region
  {
    var s, t := sites[k], sites[l];
    assert IsSiteAt(parse, dep, account, listed, spots[k], s) && IsSiteAt(parse, dep, account, listed, spots[l], t);
    assert Before(spots[k], spots[l]);
    if s.cluster == t.cluster && s.region == t.region {
      SamePlace(listed, spots[k].cluster, spots[l].cluster);
      SamePlace(dep.regionNames(parse(s.cluster).value.app, account, s.cluster).value, spots[k].region, spots[l].region);
    }
  }

  ghost function SiteFor(parse: Parser, dep: Deployment, g: Group, w: Address): Site
    requires parse(w.cluster).Some? && dep.cloudProvider(g.account).Ok?
  {
    Site(parse(w.cluster).value.app, w.account, dep.cloudProvider(g.account).value, w.region, w.cluster)
  }

  /** An id is eligible as often as it is listed at its place, if that is targeted, and else never. */
  lemma EligibleTimes(parse: Parser, g: Group, exs: seq<Exception>, dep: Deployment, w: Address)
    requires Answers(parse, g, exs, dep) && ClustersAndRegionsAreSets(dep)
    ensures var listed := dep.clusterNames(g.app, g.account).value;
            if parse(w.cluster).Some?
               && IsTargetedSite(parse, g, dep.cloudProvider(g.account).value, exs, dep, listed, SiteFor(parse, dep, g, w))
            then && AnswerWorks(parse, dep, SiteFor(parse, dep, g, w))
                 && Times(w, EligibleInstances(parse, g, exs, dep)) == multiset(Answer(dep, SiteFor(parse, dep, g, w)).value.1)[w.id]
            else Times(w, EligibleInstances(parse, g, exs, dep)) == 0
  {
    var provider, listed := dep.cloudProvider(g.account).value, dep.clusterNames(g.app, g.account).value;
    var sites := TargetedSites(parse, g, provider, exs, dep, listed);
    var spots := SpotsOfSites(parse, g, provider, exs, dep, listed);
    forall k | 0 <= k < |sites| && IsPlaceOf(sites[k], w)
      ensures parse(w.cluster).Some? && sites[k] == SiteFor(parse, dep, g, w)
    {
      TargetedSitesExactly(parse, g, provider, exs, dep, listed, sites[k]);
    }
    if k :| 0 <= k < |sites| && IsPlaceOf(sites[k], w) {
      forall l | 0 <= l < |sites| && IsPlaceOf(sites[l], w) ensures l == k {
        if k < l { OneSiteEach(parse, dep, g.account, listed, spots, sites, k, l); }
        if l < k { OneSiteEach(parse, dep, g.account, listed, spots, sites, l, k); }
      }
      TargetedSitesExactly(parse, g, provider, exs, dep, listed, sites[k]);
      TimesOnce(parse, dep, sites, w, k);
    } else {
      if parse(w.cluster).Some? { TargetedSitesExactly(parse, g, provider, exs, dep, listed, SiteFor(parse, dep, g, w)); }
      TimesNowhere(parse, dep, sites, w);
    }
  }

  // ---------------------------------------------------------------- the order of a map does not matter

  /** Permutations stay permutations when an element is taken out of both. */
  lemma PermutationStep<T>(a: seq<T>, b: seq<T>) returns (j: nat)
    requires multiset(a) == multiset(b) && a != []
    ensures j < |b| && b[j] == a[|a| - 1]
    ensures multiset(a[..|a| - 1]) == multiset(b[..j] + b[j + 1..])
  {
    var n := |a| - 1;
    assert a == a[..n] + [a[n]];
    assert a[n] in multiset(b);
    j :| 0 <= j < |b| && b[j] == a[n];
    RemoveAt(b, j);
    Cancel(multiset(a[..n]), multiset(b[..j] + b[j + 1..]), multiset{a[n]});
  }

  lemma RemoveAt<T>(xs: seq<T>, j: nat)
    requires j < |xs|
    ensures multiset(xs) == multiset(xs[..j] + xs[j + 1..]) + multiset{xs[j]}
  {
    assert xs == xs[..j] + [xs[j]] + xs[j + 1..];
  }

  lemma Cancel<T>(a: multiset<T>, b: multiset<T>, common: multiset<T>)
    requires a + common == b + common
    ensures a == b
  {
    forall x: T ensures a[x] == b[x] {
      assert (a + common)[x] == (b + common)[x];
    }
  }

  lemma SameSize<T>(a: seq<T>, b: seq<T>)
    requires multiset(a) == multiset(b)
    ensures |a| == |b|
  {
    assert |multiset(a)| == |a| && |multiset(b)| == |b|;
  }

  /** What the keys map to, all together. */
  ghost function Sum<K, V>(f: K -> multiset<V>, ks: seq<K>): multiset<V> {
    if ks == [] then multiset{} else Sum(f, ks[..|ks| - 1]) + f(ks[|ks| - 1])
  }

  lemma {:induction false} SumConcat<K, V>(f: K -> multiset<V>, a: seq<K>, b: seq<K>)
    ensures Sum(f, a + b) == Sum(f, a) + Sum(f, b)
    decreases |b|
  {
    if b == [] {
      assert a + b == a;
    } else {
      assert (a + b)[..|a + b| - 1] == a + b[..|b| - 1];
      SumConcat(f, a, b[..|b| - 1]);
    }
  }

  lemma SumWithout<K, V>(f: K -> multiset<V>, front: seq<K>, k: K, back: seq<K>)
    ensures Sum(f, front + [k] + back) == Sum(f, front + back) + f(k)
  {
    SumConcat(f, front + [k], back);
    SumConcat(f, front, back);
    assert (front + [k])[..|front|] == front;
  }

  lemma {:induction false} SumOfPermutation<K, V>(f: K -> multiset<V>, a: seq<K>, b: seq<K>)
    requires multiset(a) == multiset(b)
    ensures Sum(f, a) == Sum(f, b)
    decreases |a|
  {
    SameSize(a, b);
    if a != [] {
      var j := PermutationStep(a, b);
      var front, back := b[..j], b[j + 1..];
      SumOfPermutation(f, a[..|a| - 1], front + back);
      SumWithout(f, front, b[j], back);
      assert b == front + [b[j]] + back;
    }
  }

  lemma SameKeysPermuted<T>(a: seq<T>, b: seq<T>, keys: set<T>)
    requires Lists(a, keys) && Lists(b, keys)
    ensures multiset(a) == multiset(b)
  {
    forall k: T ensures multiset(a)[k] == multiset(b)[k] {
      ListsEachOnce(a, keys, k);
      ListsEachOnce(b, keys, k);
    }
  }

  lemma {:induction false} IdsAreSum(order: seq<string>, asgs: map<string, seq<string>>, f: string -> multiset<string>)
    requires forall i :: 0 <= i < |order| ==> order[i] in asgs
    requires forall k :: k in asgs ==> f(k) == multiset(asgs[k])
    ensures multiset(IdsOf(order, asgs)) == Sum(f, order)
    decreases |order|
  {
    if order != [] { IdsAreSum(order[..|order| - 1], asgs, f); }
  }

  lemma AnyOrderSameIds(a: seq<string>, b: seq<string>, asgs: map<string, seq<string>>)
    requires Lists(a, asgs.Keys) && Lists(b, asgs.Keys)
    ensures multiset(IdsOf(a, asgs)) == multiset(IdsOf(b, asgs))
  {
    var f := (k: string) => if k in asgs then multiset(asgs[k]) else multiset{};
    IdsAreSum(a, asgs, f);
    IdsAreSum(b, asgs, f);
    SameKeysPermuted(a, b, asgs.Keys);
    SumOfPermutation(f, a, b);
  }

  lemma AnswersListTheSameIds(asgs: map<string, seq<string>>, a: (string, seq<string>), b: (string, seq<string>))
    requires IsAnswer(asgs, a) && IsAnswer(asgs, b)
    ensures multiset(a.1) == multiset(b.1)
  {
    var order :| Lists(order, asgs.Keys) && a == (if order == [] then "" else order[|order| - 1], IdsOf(order, asgs));
    var other :| Lists(other, asgs.Keys) && b == (if other == [] then "" else other[|other| - 1], IdsOf(other, asgs));
    AnyOrderSameIds(order, other, asgs);
  }

  // ---------------------------------------------------------------- two calls

  lemma BackedListsAreSets(dep: Deployment, apps: map<string, AppMap>)
    requires BackedBy(dep, apps)
    ensures ClustersAndRegionsAreSets(dep)
  {
    forall app, account ensures NoRepeats(dep.clusterNames(app, account).value) {
      assert ListsOk(dep.clusterNames(app, account), ClustersAt(apps, app, account).Keys);
    }
    forall app, account, cluster ensures NoRepeats(dep.regionNames(app, account, cluster).value) {
      assert ListsOk(dep.regionNames(app, account, cluster), RegionsAt(apps, app, account, cluster).Keys);
    }
  }

  lemma BackedAnswers(parse: Parser, g: Group, exs: seq<Exception>, dep: Deployment, apps: map<string, AppMap>)
    requires BackedBy(dep, apps) && g.app in apps && g.account in apps[g.app] && NamesParse(parse, g.app, apps[g.app])
    ensures Answers(parse, g, exs, dep) && ClustersAndRegionsAreSets(dep)
  {
    BackedListsAreSets(dep, apps);
    BackedIsReady(parse, g.app, dep, apps);
    var accounts := Ordered(apps[g.app].Keys);
    GroupTakesItsRow(parse, g.app, dep, exs, g, apps[g.app], accounts);
  }

  /** Whether a place is targeted is in the maps and not in the order of the answers. */
  lemma BackedTargetIff(parse: Parser, g: Group, exs: seq<Exception>, dep: Deployment, apps: map<string, AppMap>, w: Address)
    requires BackedBy(dep, apps) && g.app in apps && g.account in apps[g.app] && NamesParse(parse, g.app, apps[g.app])
    requires Answers(parse, g, exs, dep) && parse(w.cluster).Some?
    ensures IsTargetedSite(parse, g, dep.cloudProvider(g.account).value, exs, dep, dep.clusterNames(g.app, g.account).value,
                           SiteFor(parse, dep, g, w))
       <==> && w.account == g.account
            && Mapped(apps[g.app], Place(w.account, w.cluster, w.region))
            && Targeted(parse, g, exs, w.cluster, w.region)
  {
    var data := apps[g.app];
    TargetedIff(parse, g, exs, w.cluster, w.region);
    assert ListsOk(dep.clusterNames(g.app, g.account), ClustersAt(apps, g.app, g.account).Keys);
    assert w.cluster in dep.clusterNames(g.app, g.account).value <==> w.cluster in data[g.account].clusters.Keys;
    if w.cluster in data[g.account].clusters {
      assert ListsOk(dep.regionNames(g.app, g.account, w.cluster), RegionsAt(apps, g.app, g.account, w.cluster).Keys);
      assert w.region in dep.regionNames(g.app, g.account, w.cluster).value <==> w.region in data[g.account].clusters[w.cluster].Keys;
    }
  }

  /** Two calls for a group find the same ids in the same places equally often, in whichever order
      each ranges over the maps. */
  lemma TwoCallsAgree(parse: Parser, g: Group, exs: seq<Exception>, dep: Deployment, dep': Deployment, apps: map<string, AppMap>)
    requires BackedBy(dep, apps) && BackedBy(dep', apps)
    requires g.app in apps && g.account in apps[g.app] && NamesParse(parse, g.app, apps[g.app])
    ensures Answers(parse, g, exs, dep) && Answers(parse, g, exs, dep')
    ensures multiset(Addresses(EligibleInstances(parse, g, exs, dep))) == multiset(Addresses(EligibleInstances(parse, g, exs, dep')))
  {
    BackedAnswers(parse, g, exs, dep, apps);
    BackedAnswers(parse, g, exs, dep', apps);
    forall w: Address
      ensures Times(w, EligibleInstances(parse, g, exs, dep)) == Times(w, EligibleInstances(parse, g, exs, dep'))
    {
      TwoCallsAgreeAt(parse, g, exs, dep, dep', apps, w);
    }
    SameTimes(EligibleInstances(parse, g, exs, dep), EligibleInstances(parse, g, exs, dep'));
  }

  lemma SameTimes(a: seq<Domain.Instance>, b: seq<Domain.Instance>)
    requires forall w: Address :: Times(w, a) == Times(w, b)
    ensures multiset(Addresses(a)) == multiset(Addresses(b))
  {
    forall w: Address ensures multiset(Addresses(a))[w] == multiset(Addresses(b))[w] {
      assert Times(w, a) == Times(w, b);
    }
  }

  lemma TwoCallsAgreeAt(parse: Parser, g: Group, exs: seq<Exception>, dep: Deployment, dep': Deployment, apps: map<string, AppMap>, w: Address)
    requires BackedBy(dep, apps) && BackedBy(dep', apps) && ClustersAndRegionsAreSets(dep) && ClustersAndRegionsAreSets(dep')
    requires g.app in apps && g.account in apps[g.app] && NamesParse(parse, g.app, apps[g.app])
    requires Answers(parse, g, exs, dep) && Answers(parse, g, exs, dep')
    ensures Times(w, EligibleInstances(parse, g, exs, dep)) == Times(w, EligibleInstances(parse, g, exs, dep'))
  {
    EligibleTimes(parse, g, exs, dep, w);
    EligibleTimes(parse, g, exs, dep', w);
    if parse(w.cluster).Some? {
      BackedTargetIff(parse, g, exs, dep, apps, w);
      BackedTargetIff(parse, g, exs, dep', apps, w);
      if w.account == g.account && Mapped(apps[g.app], Place(w.account, w.cluster, w.region)) && Targeted(parse, g, exs, w.cluster, w.region) {
        var regions := RegionsAt(apps, g.app, w.account, w.cluster);
        var s, s' := SiteFor(parse, dep, g, w), SiteFor(parse, dep', g, w);
        assert AnswersFor(dep.instanceIDs(s.app, s.account, s.provider, s.region, s.cluster), regions, w.region);
        assert AnswersFor(dep'.instanceIDs(s'.app, s'.account, s'.provider, s'.region, s'.cluster), regions, w.region);
        AnswersListTheSameIds(regions[w.region], Answer(dep, s).value, Answer(dep', s').value);
      }
    }
  }

  // ---------------------------------------------------------------- one call for each group

  /** The answers that each group's call gets are answers that the deployment may give. */
  ghost predicate AllBacked(deps: seq<Deployment>, apps: map<string, AppMap>) {
    forall i :: 0 <= i < |deps| ==> BackedBy(deps[i], apps)
  }

  ghost predicate EachAnswered(parse: Parser, exs: seq<Exception>, deps: seq<Deployment>, groups: seq<Group>) {
    |deps| == |groups| && forall i :: 0 <= i < |groups| ==> Answers(parse, groups[i], exs, deps[i])
  }

  /** The eligible instances of the groups, each group's call with its own answers. */
  function EligibleCallByCall(parse: Parser, exs: seq<Exception>, deps: seq<Deployment>, groups: seq<Group>): seq<Domain.Instance>
    requires EachAnswered(parse, exs, deps, groups)
  {
    if groups == [] then []
    else
      var n := |groups| - 1;
      EligibleCallByCall(parse, exs, deps[..n], groups[..n]) + EligibleInstances(parse, groups[n], exs, deps[n])
  }

  lemma CallsAreAnswered(parse: Parser, exs: seq<Exception>, deps: seq<Deployment>, dep: Deployment, groups: seq<Group>,
                         name: string, apps: map<string, AppMap>)
    requires AllBacked(deps, apps) && BackedBy(dep, apps) && |deps| == |groups|
    requires name in apps && OfTheApp(name, apps[name], groups) && NamesParse(parse, name, apps[name])
    ensures EachAnswered(parse, exs, deps, groups) && AllAnswered(parse, exs, dep, groups)
  {
    forall i | 0 <= i < |groups| ensures Answers(parse, groups[i], exs, deps[i]) && Answers(parse, groups[i], exs, dep) {
      BackedAnswers(parse, groups[i], exs, deps[i], apps);
      BackedAnswers(parse, groups[i], exs, dep, apps);
    }
  }

  lemma {:induction false} CallByCallAsInTurn(parse: Parser, exs: seq<Exception>, deps: seq<Deployment>, dep: Deployment, groups: seq<Group>,
                                              name: string, apps: map<string, AppMap>)
    requires AllBacked(deps, apps) && BackedBy(dep, apps) && |deps| == |groups|
    requires name in apps && OfTheApp(name, apps[name], groups) && NamesParse(parse, name, apps[name])
    requires EachAnswered(parse, exs, deps, groups) && AllAnswered(parse, exs, dep, groups)
    ensures multiset(Addresses(EligibleCallByCall(parse, exs, deps, groups))) == multiset(Addresses(EligibleInTurn(parse, exs, dep, groups)))
    decreases |groups|
  {
    if groups != [] {
      var n := |groups| - 1;
      CallByCallAsInTurn(parse, exs, deps[..n], dep, groups[..n], name, apps);
      var more, more' := EligibleInstances(parse, groups[n], exs, deps[n]), EligibleInstances(parse, groups[n], exs, dep);
      assert multiset(Addresses(more)) == multiset(Addresses(more')) by {
        TwoCallsAgree(parse, groups[n], exs, deps[n], dep, apps);
      }
      AddressesConcat(EligibleCallByCall(parse, exs, deps[..n], groups[..n]), more);
      AddressesConcat(EligibleInTurn(parse, exs, dep, groups[..n]), more');
    }
  }

  lemma AddressesConcat(a: seq<Domain.Instance>, b: seq<Domain.Instance>)
    ensures multiset(Addresses(a + b)) == multiset(Addresses(a)) + multiset(Addresses(b))
  {
    assert Addresses(a + b) == Addresses(a) + Addresses(b);
  }

  lemma {:induction false} AddressesAreSum(es: seq<Domain.Instance>, f: Domain.Instance -> multiset<Address>)
    requires forall i :: f(i) == multiset{AddressOf(i)}
    ensures multiset(Addresses(es)) == Sum(f, es)
    decreases |es|
  {
    if es != [] {
      var n := |es| - 1;
      AddressesAreSum(es[..n], f);
      assert Addresses(es) == Addresses(es[..n]) + [AddressOf(es[n])];
    }
  }

  lemma AddressesOfPermutation(a: seq<Domain.Instance>, b: seq<Domain.Instance>)
    requires multiset(a) == multiset(b)
    ensures multiset(Addresses(a)) == multiset(Addresses(b))
  {
    var f := (i: Domain.Instance) => multiset{AddressOf(i)};
    AddressesAreSum(a, f);
    AddressesAreSum(b, f);
    SumOfPermutation(f, a, b);
  }

  /** With every call ranging over the maps in its own order, the ids that are eligible for all the
      groups, with their places, are a permutation of those for the whole-account groups. */
  lemma RegroupingConservesIds(parse: Parser, exs: seq<Exception>, cfg: AppConfig, apps: map<string, AppMap>, v: AppView,
                               groups: seq<Group>, deps: seq<Deployment>, whole: seq<Group>, deps': seq<Deployment>)
    requires v.name in apps && Shows(v, v.name, apps[v.name]) && !cfg.grouping.Unrecognized?
    requires Lists(groups, GroupsOf(parse, cfg, v)) && Lists(whole, GroupsOf(parse, WholeAccounts(cfg), v))
    requires NonblankNames(apps[v.name]) && StacksAreNonblank(parse, cfg, apps[v.name]) && NamesParse(parse, v.name, apps[v.name])
    requires |deps| == |groups| && |deps'| == |whole| && AllBacked(deps, apps) && AllBacked(deps', apps)
    ensures EachAnswered(parse, exs, deps, groups) && EachAnswered(parse, exs, deps', whole)
    ensures multiset(Addresses(EligibleCallByCall(parse, exs, deps, groups)))
         == multiset(Addresses(EligibleCallByCall(parse, exs, deps', whole)))
  {
    if groups != [] || whole != [] {
      var dep := if groups != [] then deps[0] else deps'[0];
      BackedIsReady(parse, v.name, dep, apps);
      ListedGroupsAreOfTheApp(parse, cfg, apps[v.name], v, groups);
      ListedGroupsAreOfTheApp(parse, WholeAccounts(cfg), apps[v.name], v, whole);
      CallsAreAnswered(parse, exs, deps, dep, groups, v.name, apps);
      CallsAreAnswered(parse, exs, deps', dep, whole, v.name, apps);
      CallByCallAsInTurn(parse, exs, deps, dep, groups, v.name, apps);
      CallByCallAsInTurn(parse, exs, deps', dep, whole, v.name, apps);
      RegroupingConservesInstances(parse, dep, exs, cfg, apps[v.name], v, groups, whole);
      AddressesOfPermutation(EligibleInTurn(parse, exs, dep, groups), EligibleInTurn(parse, exs, dep, whole));
    }
  }
}
