/** The reverse-proxy routes (buildRoutes, internal/compiler/build.go), against a description of
    them that mentions no loop: one route per claimed host, in order, to all the replicas of the
    first service that claims it. */
module Routes {
  import opened Text
  import opened Order
  import opened Schema
  import opened Containers

  datatype Route = Route(host: string, upstreams: seq<string>)

  /** Containers of services that are to be reached from outside. */
  predicate IsPublic(c: ContainerModel) {
    !c.isJob && |c.publicDomains| > 0 && c.publicPort != 0
  }

  function Upstream(c: ContainerModel): string {
    c.name + ":" + DecInt(c.publicPort)
  }

  function Owner(c: ContainerModel): string {
    if c.serviceName == "" then c.name else c.serviceName
  }

  predicate ClaimsHost(c: ContainerModel, host: string) {
    IsPublic(c) && host in c.publicDomains
  }

  // ---------------------------------------------------------------------- the specification

  ghost function Hosts(cs: seq<ContainerModel>): set<string> {
    set i, host | 0 <= i < |cs| && IsPublic(cs[i]) && host in cs[i].publicDomains :: host
  }

  /** The owner of the first container to claim `host`. */
  function Winner(cs: seq<ContainerModel>, host: string): Option<string> {
    if cs == [] then None
    else
      var earlier := Winner(cs[..|cs| - 1], host);
      if earlier.Some? then earlier
      else if ClaimsHost(cs[|cs| - 1], host) then Some(Owner(cs[|cs| - 1]))
      else None
  }

  /** The containers of one owner that claim `host`, as upstreams. */
  ghost function UpstreamsOf(cs: seq<ContainerModel>, host: string, owner: string): set<string> {
    set i | 0 <= i < |cs| && ClaimsHost(cs[i], host) && Owner(cs[i]) == owner :: Upstream(cs[i])
  }

  ghost function Upstreams(cs: seq<ContainerModel>, host: string): set<string> {
    match Winner(cs, host)
    case None => {}
    case Some(owner) => UpstreamsOf(cs, host, owner)
  }

  ghost function RoutesOf(cs: seq<ContainerModel>): seq<Route> {
    var hosts := SortedSet(Hosts(cs));
    seq(|hosts|, i requires 0 <= i < |hosts| => Route(hosts[i], SortedSet(Upstreams(cs, hosts[i]))))
  }

  // ------------------------------------------------------------------- one container more

  lemma HostsAppend(cs: seq<ContainerModel>, c: ContainerModel)
    ensures Hosts(cs + [c]) == Hosts(cs) + if IsPublic(c) then Elems(c.publicDomains) else {}
  {
    var all := cs + [c];
    forall host ensures host in Hosts(all) <==> host in Hosts(cs) || (IsPublic(c) && host in c.publicDomains) {
      if i :| 0 <= i < |cs| && IsPublic(cs[i]) && host in cs[i].publicDomains {
        assert all[i] == cs[i];
      }
      if IsPublic(c) && host in c.publicDomains {
        assert all[|cs|] == c;
      }
    }
  }

  lemma WinnerAppend(cs: seq<ContainerModel>, c: ContainerModel, host: string)
    ensures Winner(cs + [c], host) ==
      if Winner(cs, host).Some? then Winner(cs, host)
      else if ClaimsHost(c, host) then Some(Owner(c)) else None
  {
    assert (cs + [c])[..|cs|] == cs;
  }

  lemma UpstreamsAppend(cs: seq<ContainerModel>, c: ContainerModel, host: string, owner: string)
    ensures UpstreamsOf(cs + [c], host, owner)
      == UpstreamsOf(cs, host, owner) + if ClaimsHost(c, host) && Owner(c) == owner then {Upstream(c)} else {}
  {
    var all := cs + [c];
    forall u | u in UpstreamsOf(cs, host, owner) ensures u in UpstreamsOf(all, host, owner) {
      var i :| 0 <= i < |cs| && ClaimsHost(cs[i], host) && Owner(cs[i]) == owner && Upstream(cs[i]) == u;
      assert all[i] == cs[i];
    }
    if ClaimsHost(c, host) && Owner(c) == owner {
      assert all[|cs|] == c;
    }
  }

  lemma {:induction false} WinnerMeans(cs: seq<ContainerModel>, host: string)
    ensures Winner(cs, host).None? <==> host !in Hosts(cs)
    ensures Winner(cs, host).Some? ==> exists i :: 0 <= i < |cs| && IsFirst(cs, host, i)
    ensures forall i | 0 <= i < |cs| && IsFirst(cs, host, i) :: Winner(cs, host) == Some(Owner(cs[i]))
  {
    if cs != [] {
      var front, last := cs[..|cs| - 1], cs[|cs| - 1];
      assert cs == front + [last];
      WinnerMeans(front, host);
      HostsAppend(front, last);
      if i :| 0 <= i < |front| && IsFirst(front, host, i) {
        assert IsFirst(cs, host, i);
      } else if ClaimsHost(last, host) {
        forall k | 0 <= k < |front| ensures !ClaimsHost(cs[k], host) {
          assert front[k] == cs[k];
        }
        assert IsFirst(cs, host, |front|);
      }
      forall i | 0 <= i < |cs| && IsFirst(cs, host, i) ensures Winner(cs, host) == Some(Owner(cs[i])) {
        if i < |front| {
          assert IsFirst(front, host, i);
        }
      }
    }
  }

  /** Container `i` is the first to claim the host. */
  ghost predicate IsFirst(cs: seq<ContainerModel>, host: string, i: nat)
    requires i < |cs|
  {
    ClaimsHost(cs[i], host) && forall k | 0 <= k < i :: !ClaimsHost(cs[k], host)
  }

  // ------------------------------------------------------------------------------ the loops

  /** What byHost points to. */
  class Pair {
    const host: string
    const service: string
    var upstreams: set<string>

    constructor (host: string, service: string)
      ensures this.host == host && this.service == service && upstreams == {}
    {
      this.host, this.service, upstreams := host, service, {};
    }
  }

  /** The containers handled so far, the last one with only the domains handled so far. */
  ghost function View(done: seq<ContainerModel>, c: ContainerModel, domains: seq<string>): seq<ContainerModel> {
    done + [c.(publicDomains := domains)]
  }

  /** byHost and hosts hold what the specification says about `view`. */
  ghost predicate Holds(byHost: map<string, Pair>, hosts: seq<string>, view: seq<ContainerModel>)
    reads byHost.Values
  {
    && Distinct(hosts) && Elems(hosts) == Hosts(view) && byHost.Keys == Hosts(view)
    && forall h | h in byHost ::
         && byHost[h].host == h
         && Winner(view, h) == Some(byHost[h].service)
         && byHost[h].upstreams == Upstreams(view, h)
  }

  lemma OneDomainHosts(done: seq<ContainerModel>, c: ContainerModel, domains: seq<string>, d: string)
    requires !c.isJob && c.publicPort != 0
    ensures Hosts(View(done, c, domains + [d])) == Hosts(View(done, c, domains)) + {d}
  {
    hide Hosts;
    HostsAppend(done, c.(publicDomains := domains));
    HostsAppend(done, c.(publicDomains := domains + [d]));
    ElemsAppend(domains, [d]);
  }

  lemma OneDomainWinner(done: seq<ContainerModel>, c: ContainerModel, domains: seq<string>, d: string, h: string)
    requires !c.isJob && c.publicPort != 0
    ensures var view := View(done, c, domains);
      Winner(View(done, c, domains + [d]), h)
      == if h == d && d !in Hosts(view) then Some(Owner(c)) else Winner(view, h)
  {
    hide Hosts, Winner;
    WinnerAppend(done, c.(publicDomains := domains), h);
    WinnerAppend(done, c.(publicDomains := domains + [d]), h);
    WinnerMeans(View(done, c, domains), h);
    assert h in domains + [d] <==> h in domains || h == d;
  }

  lemma OneDomainUpstreams(done: seq<ContainerModel>, c: ContainerModel, domains: seq<string>, d: string, h: string,
                           owner: string)
    requires !c.isJob && c.publicPort != 0
    ensures UpstreamsOf(View(done, c, domains + [d]), h, owner)
      == UpstreamsOf(View(done, c, domains), h, owner) + if h == d && Owner(c) == owner then {Upstream(c)} else {}
  {
    hide UpstreamsOf;
    UpstreamsAppend(done, c.(publicDomains := domains), h, owner);
    UpstreamsAppend(done, c.(publicDomains := domains + [d]), h, owner);
    assert h in domains + [d] <==> h in domains || h == d;
  }

  /** What one more domain of the last container does to the specification. */
  lemma OneDomain(done: seq<ContainerModel>, c: ContainerModel, domains: seq<string>, d: string, h: string)
    requires !c.isJob && c.publicPort != 0
    ensures var view, next := View(done, c, domains), View(done, c, domains + [d]);
      && Winner(next, h) == (if h == d && d !in Hosts(view) then Some(Owner(c)) else Winner(view, h))
      && Upstreams(next, h) == Upstreams(view, h)
           + (if h == d && Winner(next, h) == Some(Owner(c)) then {Upstream(c)} else {})
  {
    var view, next := View(done, c, domains), View(done, c, domains + [d]);
    hide Hosts, Winner, UpstreamsOf, View, Owner, Upstream;
    OneDomainWinner(done, c, domains, d, h);
    WinnerMeans(view, h);
    match Winner(next, h)
    case None =>
    case Some(owner) =>
      OneDomainUpstreams(done, c, domains, d, h, owner);
      if h == d && d !in Hosts(view) {
        NoClaimNoUpstream(view, h, Owner(c));
      }
  }

  lemma NoClaimNoUpstream(cs: seq<ContainerModel>, host: string, owner: string)
    requires host !in Hosts(cs)
    ensures UpstreamsOf(cs, host, owner) == {}
  {
  }

  lemma NothingClaimed(done: seq<ContainerModel>, c: ContainerModel, h: string)
    requires !IsPublic(c)
    ensures Hosts(done + [c]) == Hosts(done) && Winner(done + [c], h) == Winner(done, h)
    ensures Upstreams(done + [c], h) == Upstreams(done, h)
  {
    hide Hosts, Winner, UpstreamsOf, Owner, Upstream;
    HostsAppend(done, c);
    WinnerAppend(done, c, h);
    if Winner(done, h).Some? {
      UpstreamsAppend(done, c, h, Winner(done, h).value);
    }
  }

  lemma HoldsStill(byHost: map<string, Pair>, hosts: seq<string>, done: seq<ContainerModel>, c: ContainerModel)
    requires !IsPublic(c) && Holds(byHost, hosts, done)
    ensures Holds(byHost, hosts, done + [c])
  {
    hide Hosts, Winner, Upstreams;
    NothingClaimed(done, c, "");
    forall h | h in byHost
      ensures Winner(done + [c], h) == Winner(done, h) && Upstreams(done + [c], h) == Upstreams(done, h)
    {
      NothingClaimed(done, c, h);
    }
  }

  /** The body of the inner loop: one domain of one container. */
  method ClaimDomain(byHost: map<string, Pair>, hosts: seq<string>, domain: string, svc: string, upstream: string,
                     ghost done: seq<ContainerModel>, ghost c: ContainerModel, ghost domains: seq<string>)
    returns (byHost': map<string, Pair>, hosts': seq<string>)
    requires !c.isJob && c.publicPort != 0 && svc == Owner(c) && upstream == Upstream(c)
    requires Holds(byHost, hosts, View(done, c, domains))
    modifies byHost.Values
    ensures Holds(byHost', hosts', View(done, c, domains + [domain]))
    ensures fresh(byHost'.Values - byHost.Values)
  {
    byHost', hosts' := byHost, hosts;
    ghost var view, next := View(done, c, domains), View(done, c, domains + [domain]);
    hide Hosts, Winner, Upstreams, View, Owner, Upstream;
    OneDomainHosts(done, c, domains, domain);
    forall h ensures
        && Winner(next, h) == (if h == domain && domain !in Hosts(view) then Some(Owner(c)) else Winner(view, h))
        && Upstreams(next, h) == Upstreams(view, h)
             + (if h == domain && Winner(next, h) == Some(Owner(c)) then {Upstream(c)} else {})
    {
      OneDomain(done, c, domains, domain, h);
    }
    ElemsAppend(hosts, [domain]);
    assert domain in hosts <==> domain in Elems(hosts);
    var p: Pair;
    if domain !in byHost {
      p := new Pair(domain, svc);
      Unclaimed(view, domain);
      byHost' := byHost[domain := p];
      hosts' := hosts + [domain];
    } else {
      p := byHost[domain];
      if p.service != svc {
        return;
      }
    }
    p.upstreams := p.upstreams + {upstream};
  }

  lemma Unclaimed(cs: seq<ContainerModel>, host: string)
    requires host !in Hosts(cs)
    ensures Upstreams(cs, host) == {}
  {
    WinnerMeans(cs, host);
  }

  /** buildRoutes: exactly the routes described above. */
  method BuildRoutes(containers: seq<ContainerModel>) returns (routes: seq<Route>)
    ensures routes == RoutesOf(containers)
  {
    var byHost: map<string, Pair> := map[];
    var hosts: seq<string> := [];
    hide Hosts, Winner, Upstreams, Holds;
    NothingHeld();
    assert containers[..0] == [];
    for i := 0 to |containers|
      invariant Holds(byHost, hosts, containers[..i])
      invariant fresh(byHost.Values)
    {
      var c := containers[i];
      ghost var done := containers[..i];
      assert containers[..i + 1] == done + [c];
      if c.isJob || |c.publicDomains| == 0 || c.publicPort == 0 {
        HoldsStill(byHost, hosts, done, c);
        continue;
      }
      var upstream := c.name + ":" + DecInt(c.publicPort);
      var svc := c.serviceName;
      if svc == "" {
        svc := c.name;
      }
      HoldsStill(byHost, hosts, done, c.(publicDomains := []));
      assert c.publicDomains[..0] == [];
      for j := 0 to |c.publicDomains|
        invariant Holds(byHost, hosts, View(done, c, c.publicDomains[..j]))
        invariant fresh(byHost.Values)
      {
        ghost var domains := c.publicDomains[..j];
        assert c.publicDomains[..j + 1] == domains + [c.publicDomains[j]];
        byHost, hosts := ClaimDomain(byHost, hosts, c.publicDomains[j], svc, upstream, done, c, domains);
      }
      assert c.publicDomains[..|c.publicDomains|] == c.publicDomains;
      assert c.(publicDomains := c.publicDomains) == c;
    }
    assert containers[..|containers|] == containers;
    routes := Emit(byHost, hosts, containers);
  }

  lemma NothingHeld()
    ensures Holds(map[], [], [])
  {
  }

  /** The second half of buildRoutes, whatever order the upstream sets are read in. */
  method Emit(byHost: map<string, Pair>, unsorted: seq<string>, ghost containers: seq<ContainerModel>)
    returns (routes: seq<Route>)
    requires Holds(byHost, unsorted, containers)
    ensures routes == RoutesOf(containers)
  {
    var hosts := Sort(unsorted);
    hide *;
    SortedHosts(byHost, unsorted, containers, hosts);
    routes := [];
    for i := 0 to |hosts|
      invariant |routes| == i
      invariant forall k | 0 <= k < i :: routes[k] == Route(hosts[k], SortedSet(Upstreams(containers, hosts[k])))
    {
      var p := byHost[hosts[i]];
      var elements := SortedElements(p.upstreams);
      routes := routes + [Route(hosts[i], elements)];
    }
    RoutesAre(containers, routes);
  }

  lemma SortedHosts(byHost: map<string, Pair>, unsorted: seq<string>, cs: seq<ContainerModel>, hosts: seq<string>)
    requires Holds(byHost, unsorted, cs) && hosts == Sort(unsorted)
    ensures hosts == SortedSet(Hosts(cs))
    ensures forall k | 0 <= k < |hosts| ::
      hosts[k] in byHost && byHost[hosts[k]].upstreams == Upstreams(cs, hosts[k])
  {
    hide Hosts, Winner, Upstreams, Sort, Less;
    SortDistinct(unsorted);
    SortedSetIs(hosts, Hosts(cs));
    forall k | 0 <= k < |hosts| ensures hosts[k] in byHost {
      assert hosts[k] in Elems(hosts);
    }
  }

  lemma RoutesAre(cs: seq<ContainerModel>, routes: seq<Route>)
    requires var hosts := SortedSet(Hosts(cs));
      |routes| == |hosts|
      && forall k | 0 <= k < |hosts| :: routes[k] == Route(hosts[k], SortedSet(Upstreams(cs, hosts[k])))
    ensures routes == RoutesOf(cs)
  {
    hide Hosts, Upstreams, SortedSet;
  }

  /** Reads a set into a slice in any order, and sorts it. */
  method SortedElements(s: set<string>) returns (ups: seq<string>)
    ensures ups == SortedSet(s)
  {
    ups := [];
    var rest := s;
    while rest != {}
      invariant rest <= s && Elems(ups) == s - rest && Distinct(ups)
    {
      var u :| u in rest;
      assert u !in Elems(ups);
      ElemsAppend(ups, [u]);
      ups := ups + [u];
      rest := rest - {u};
    }
    SortDistinct(ups);
    ups := Sort(ups);
    SortedSetIs(ups, s);
  }
}
