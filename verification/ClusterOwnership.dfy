/**
 Whose data a run writes: every record it creates belongs to a cluster of the run, under that
 cluster's own FHRP group, and every DNS name it writes is one that a cluster of the run wants.
 */
module ClusterOwnership {
  import opened Basics
  import opened Faults
  import opened Ipam
  import opened ClusterSync
  import opened ClusterEvolution

  predicate OwnedBy(groups: seq<Group>, pk: int, name: string) {
    1 <= pk <= |groups| && groups[pk - 1].name == name
  }

  /** `text` is an address that the cluster gives out. */
  predicate Exposes(env: Env, c: Cluster, text: string) {
    var ip, d := CiliumIP(env, c.name), TailscaleOf(env, c.name);
    && Reachable(env, c) && c.kind == Managed
    && ((ip.Some? && ip.value != "" && text == AddressText(ip.value))
        || (d.Some? && d.value.ip != "" && text == AddressText(d.value.ip)))
  }

  /** The cluster wants one of its addresses to have this DNS name. */
  predicate Wants(env: Env, ps: seq<Prefix>, c: Cluster, dns: string) {
    var ip, d := CiliumIP(env, c.name), TailscaleOf(env, c.name);
    && Reachable(env, c) && c.kind == Managed
    && ((ip.Some? && dns == WantedDns(env, ps, c.name, EndpointOf(env, c).value.host, ip.value))
        || (d.Some? && dns == d.value.fqdn))
  }

  predicate PlacedFor(env: Env, groups: seq<Group>, c: Cluster, a: Address) {
    OwnedBy(groups, a.groupPk, c.name) && a.status == "active" && Exposes(env, c, a.text)
  }

  predicate ServiceFor(env: Env, groups: seq<Group>, c: Cluster, v: Service) {
    && Reachable(env, c) && OwnedBy(groups, v.groupPk, c.name)
    && v.description == Description(c.name) && v.name == SERVICE_TEMPLATE && v.port == EndpointOf(env, c).value.port
  }

  predicate TemplateFor(env: Env, c: Cluster, t: Template) {
    Reachable(env, c) && t.name == SERVICE_TEMPLATE && t.port == EndpointOf(env, c).value.port
  }

  // ---------- the same, for some cluster of a run ----------

  predicate Wanted(env: Env, ps: seq<Prefix>, cs: seq<Cluster>, dns: string) {
    dns == "" || exists c | c in cs :: Wants(env, ps, c, dns)
  }

  predicate Placed(env: Env, groups: seq<Group>, cs: seq<Cluster>, a: Address) {
    exists c | c in cs :: PlacedFor(env, groups, c, a)
  }

  predicate Served(env: Env, groups: seq<Group>, cs: seq<Cluster>, v: Service) {
    exists c | c in cs :: ServiceFor(env, groups, c, v)
  }

  predicate Templated(env: Env, cs: seq<Cluster>, t: Template) { exists c | c in cs :: TemplateFor(env, c, t) }

  predicate Grouped(env: Env, cs: seq<Cluster>, g: Group) { exists c | c in cs :: Reachable(env, c) && c.name == g.name }

  ghost predicate AddressesWritten(env: Env, ps: seq<Prefix>, cs: seq<Cluster>, s: Store, t: Store) {
    && |s.addresses| <= |t.addresses|
    && (forall i | 0 <= i < |s.addresses| ::
          t.addresses[i].dns == s.addresses[i].dns || Wanted(env, ps, cs, t.addresses[i].dns))
    && (forall i | |s.addresses| <= i < |t.addresses| ::
          Wanted(env, ps, cs, t.addresses[i].dns) && Placed(env, t.groups, cs, t.addresses[i]))
  }

  /** What was written between `s` and `t` was written for clusters of `cs`. */
  ghost predicate WrittenFor(env: Env, ps: seq<Prefix>, cs: seq<Cluster>, s: Store, t: Store) {
    && AddressesWritten(env, ps, cs, s, t)
    && (forall i | |s.groups| <= i < |t.groups| :: Grouped(env, cs, t.groups[i]))
    && (forall i | |s.templates| <= i < |t.templates| :: Templated(env, cs, t.templates[i]))
    && (forall i | |s.services| <= i < |t.services| :: Served(env, t.groups, cs, t.services[i]))
  }

  lemma PlacedLater(env: Env, g: seq<Group>, h: seq<Group>, cs: seq<Cluster>, a: Address, b: Address)
    requires g <= h && Placed(env, g, cs, a) && AddressKept(env, a, b)
    ensures Placed(env, h, cs, b)
  {
    var c :| c in cs && PlacedFor(env, g, c, a);
    assert PlacedFor(env, h, c, b);
  }

  lemma ServedLater(env: Env, g: seq<Group>, h: seq<Group>, cs: seq<Cluster>, v: Service)
    requires g <= h && Served(env, g, cs, v)
    ensures Served(env, h, cs, v)
  {
    var c :| c in cs && ServiceFor(env, g, c, v);
    assert ServiceFor(env, h, c, v);
  }

  lemma AddressesCompose(env: Env, ps: seq<Prefix>, cs: seq<Cluster>, s: Store, t: Store, u: Store)
    requires Evolves(env, s, t) && Evolves(env, t, u)
    requires AddressesWritten(env, ps, cs, s, t) && AddressesWritten(env, ps, cs, t, u)
    ensures AddressesWritten(env, ps, cs, s, u)
  {
    forall i | |s.addresses| <= i < |u.addresses|
      ensures Wanted(env, ps, cs, u.addresses[i].dns) && Placed(env, u.groups, cs, u.addresses[i])
    {
      if i < |t.addresses| {
        PlacedLater(env, t.groups, u.groups, cs, t.addresses[i], u.addresses[i]);
      }
    }
  }

  lemma WritesCompose(env: Env, ps: seq<Prefix>, cs: seq<Cluster>, s: Store, t: Store, u: Store)
    requires Evolves(env, s, t) && Evolves(env, t, u)
    requires WrittenFor(env, ps, cs, s, t) && WrittenFor(env, ps, cs, t, u)
    ensures WrittenFor(env, ps, cs, s, u)
  {
    AddressesCompose(env, ps, cs, s, t, u);
    forall i | |s.services| <= i < |u.services| ensures Served(env, u.groups, cs, u.services[i]) {
      if i < |t.services| {
        ServedLater(env, t.groups, u.groups, cs, t.services[i]);
      }
    }
  }

  // ---------- each stage ----------

  /** Both lists of prefixes give every address the same domains. */
  ghost predicate SameDomains(ps: seq<Prefix>, qs: seq<Prefix>) {
    forall ip: string :: DomainsOf(qs, ip) == DomainsOf(ps, ip)
  }

  lemma AddressAdded(env: Env, ps: seq<Prefix>, cs: seq<Cluster>, c: Cluster, s: Store, a: Address)
    requires c in cs && PlacedFor(env, s.groups, c, a) && (a.dns == "" || Wants(env, ps, c, a.dns))
    ensures WrittenFor(env, ps, cs, s, s.(addresses := s.addresses + [a]))
  {
    assert Wanted(env, ps, cs, a.dns) && Placed(env, s.groups, cs, a);
  }

  lemma AddressNamed(env: Env, ps: seq<Prefix>, cs: seq<Cluster>, c: Cluster, s: Store, i: nat, dns: string)
    requires c in cs && Wants(env, ps, c, dns) && i < |s.addresses|
    ensures WrittenFor(env, ps, cs, s, s.(addresses := s.addresses[i := s.addresses[i].(dns := dns)]))
  {
    assert Wanted(env, ps, cs, dns);
  }

  /** The address collection is untouched, one record of it got `dns`, or one record was added. */
  lemma EnsureAddressCases(env: Env, w: World, ip: string, groupPk: nat, dns: string)
    ensures var s, t := w.store, EnsureAddress(env, w, ip, groupPk, dns).0.store;
            var row := Address(AddressText(ip), if IsHostname(env, dns) then dns else "", groupPk, "active");
            || t == s
            || t == s.(addresses := s.addresses + [row])
            || (IsHostname(env, dns)
                && exists i | 0 <= i < |s.addresses| :: t == s.(addresses := s.addresses[i := s.addresses[i].(dns := dns)]))
  {
  }

  lemma EnsureAddressWrites(env: Env, ps: seq<Prefix>, cs: seq<Cluster>, c: Cluster, w: World, ip: string, groupPk: nat, dns: string)
    requires c in cs && OwnedBy(w.store.groups, groupPk, c.name) && Exposes(env, c, AddressText(ip))
    requires IsHostname(env, dns) ==> Wants(env, ps, c, dns)
    ensures WrittenFor(env, ps, cs, w.store, EnsureAddress(env, w, ip, groupPk, dns).0.store)
  {
    var s, t := w.store, EnsureAddress(env, w, ip, groupPk, dns).0.store;
    var row := Address(AddressText(ip), if IsHostname(env, dns) then dns else "", groupPk, "active");
    EnsureAddressCases(env, w, ip, groupPk, dns);
    if t == s.(addresses := s.addresses + [row]) {
      AddressAdded(env, ps, cs, c, s, row);
    } else if t != s {
      var i :| 0 <= i < |s.addresses| && t == s.(addresses := s.addresses[i := s.addresses[i].(dns := dns)]);
      AddressNamed(env, ps, cs, c, s, i, dns);
    }
  }

  lemma ReadDnsWants(env: Env, ps: seq<Prefix>, w: World, c: Cluster, host: string, ip: string)
    requires Reachable(env, c) && c.kind == Managed && host == EndpointOf(env, c).value.host
    requires SameDomains(ps, w.store.prefixes) && CiliumIP(env, c.name) == Some(ip)
    ensures var dns := ReadDns(env, w, c, host, ip).1; IsHostname(env, dns) ==> Wants(env, ps, c, dns)
  {
    assert DomainsOf(w.store.prefixes, ip) == DomainsOf(ps, ip);
  }

  lemma SyncCiliumWrites(env: Env, ps: seq<Prefix>, cs: seq<Cluster>, w: World, c: Cluster, host: string, r: Report)
    requires c in cs && Reachable(env, c) && c.kind == Managed && host == EndpointOf(env, c).value.host
    requires SameDomains(ps, w.store.prefixes) && OwnedBy(w.store.groups, r.groupPk, c.name)
    ensures WrittenFor(env, ps, cs, w.store, SyncCilium(env, w, c, host, r).0.store)
  {
    var w1 := w.(clock := w.clock.Tick());
    var ip := CiliumIP(env, c.name);
    if ip.Some? && ip.value != "" {
      var (w2, dns) := ReadDns(env, w1, c, host, ip.value);
      ReadDnsWants(env, ps, w1, c, host, ip.value);
      EnsureAddressWrites(env, ps, cs, c, w2, ip.value, r.groupPk, dns);
    }
  }

  lemma ReadTailscaleSays(env: Env, clock: Clock, name: string)
    ensures var d := ReadTailscale(env, clock, name).1; d.Some? && d.value.ip != "" ==> TailscaleOf(env, name) == d
  {
  }

  lemma SyncTailscaleWrites(env: Env, ps: seq<Prefix>, cs: seq<Cluster>, w: World, c: Cluster, r: Report)
    requires c in cs && Reachable(env, c) && c.kind == Managed && OwnedBy(w.store.groups, r.groupPk, c.name)
    ensures WrittenFor(env, ps, cs, w.store, SyncTailscale(env, w, c, r).0.store)
  {
    var (clock, device) := ReadTailscale(env, w.clock, c.name);
    ReadTailscaleSays(env, w.clock, c.name);
    if device.Some? && device.value.ip != "" {
      var d := device.value;
      var w2 := EnsurePrefix(w.(clock := clock), d.ip);
      EnsureAddressWrites(env, ps, cs, c, w2, d.ip, r.groupPk, d.fqdn);
    }
  }

  lemma EnsureTemplateWrites(env: Env, ps: seq<Prefix>, cs: seq<Cluster>, w: World, c: Cluster, port: int)
    requires c in cs && Reachable(env, c) && port == EndpointOf(env, c).value.port
    ensures WrittenFor(env, ps, cs, w.store, EnsureTemplate(w, port).0.store)
  {
    var t := EnsureTemplate(w, port).0.store;
    if |t.templates| > |w.store.templates| {
      assert TemplateFor(env, c, t.templates[|w.store.templates|]);
    }
  }

  lemma EnsureServiceWrites(env: Env, ps: seq<Prefix>, cs: seq<Cluster>, w: World, c: Cluster, groupPk: nat, port: int)
    requires c in cs && Reachable(env, c) && port == EndpointOf(env, c).value.port && OwnedBy(w.store.groups, groupPk, c.name)
    ensures WrittenFor(env, ps, cs, w.store, EnsureService(w, groupPk, c.name, port).0.store)
  {
    var t := EnsureService(w, groupPk, c.name, port).0.store;
    if |t.services| > |w.store.services| {
      assert ServiceFor(env, t.groups, c, t.services[|w.store.services|]);
    }
  }

  lemma SyncServiceWrites(env: Env, ps: seq<Prefix>, cs: seq<Cluster>, w: World, c: Cluster, port: int, r: Report)
    requires c in cs && Reachable(env, c) && port == EndpointOf(env, c).value.port
    requires OwnedBy(w.store.groups, r.groupPk, c.name)
    ensures WrittenFor(env, ps, cs, w.store, SyncService(w, c, port, r).0.store)
  {
    var w1 := EnsureTemplate(w, port).0;
    EnsureTemplateEvolves(env, w, port);
    EnsureTemplateWrites(env, ps, cs, w, c, port);
    EnsureServiceEvolves(env, w1, r.groupPk, c.name, port);
    EnsureServiceWrites(env, ps, cs, w1, c, r.groupPk, port);
    WritesCompose(env, ps, cs, w.store, w1.store, EnsureService(w1, r.groupPk, c.name, port).0.store);
  }

  lemma SyncEndpointWrites(env: Env, ps: seq<Prefix>, cs: seq<Cluster>, w: World, c: Cluster, r: Report)
    requires c in cs && Reachable(env, c) && r.groupPk > 0
    requires SameDomains(ps, w.store.prefixes) && OwnedBy(w.store.groups, r.groupPk, c.name)
    ensures WrittenFor(env, ps, cs, w.store, SyncEndpoint(env, w, c, EndpointOf(env, c).value, r).0.store)
  {
    var e := EndpointOf(env, c).value;
    if c.kind != Managed {
      SyncServiceWrites(env, ps, cs, w, c, e.port, r);
    } else {
      var (w1, r1) := SyncCilium(env, w, c, e.host, r);
      SyncCiliumOk(env, w, c, e.host, r);
      SyncCiliumWrites(env, ps, cs, w, c, e.host, r);
      if r1.error.None? {
        var (w2, r2) := SyncTailscale(env, w1, c, r1);
        SyncTailscaleOk(env, w1, c, r1);
        SyncTailscaleWrites(env, ps, cs, w1, c, r1);
        WritesCompose(env, ps, cs, w.store, w1.store, w2.store);
        StagesCompose(env, w, r, w1, r1, w2, r2);
        SyncServiceOk(env, w2, c, e.port, r2);
        SyncServiceWrites(env, ps, cs, w2, c, e.port, r2);
        WritesCompose(env, ps, cs, w.store, w2.store, SyncService(w2, c, e.port, r2).0.store);
      }
    }
  }

  lemma EnsureGroupWrites(env: Env, ps: seq<Prefix>, cs: seq<Cluster>, w: World, c: Cluster, next: Int32)
    requires c in cs && Reachable(env, c)
    ensures WrittenFor(env, ps, cs, w.store, EnsureGroup(w, c.name, next).0.store)
  {
    var t := EnsureGroup(w, c.name, next).0.store;
    assert |t.groups| > |w.store.groups| ==> Grouped(env, cs, t.groups[|w.store.groups|]);
  }

  lemma SyncFoundWrites(env: Env, ps: seq<Prefix>, cs: seq<Cluster>, w: World, c: Cluster, next: Int32)
    requires c in cs && Reachable(env, c) && SameDomains(ps, w.store.prefixes)
    ensures WrittenFor(env, ps, cs, w.store, SyncFound(env, w, c, EndpointOf(env, c).value, next).w.store)
  {
    var e := EndpointOf(env, c).value;
    var (w1, group) := EnsureGroup(w, c.name, next);
    EnsureGroupOk(env, w, c.name, next);
    EnsureGroupWrites(env, ps, cs, w, c, next);
    if group.Record? {
      var r1 := NewReport(c.name).(groupPk := group.pk, updated := group.created);
      SyncEndpointOk(env, w1, c, e, r1);
      SyncEndpointWrites(env, ps, cs, w1, c, r1);
      WritesCompose(env, ps, cs, w.store, w1.store, SyncEndpoint(env, w1, c, e, r1).0.store);
    }
  }

  lemma ReadEndpointSays(env: Env, clock: Clock, c: Cluster)
    ensures var e := ReadEndpoint(env, clock, c).1; e.Some? ==> e == EndpointOf(env, c)
  {
  }

  lemma SyncClusterWrites(env: Env, ps: seq<Prefix>, cs: seq<Cluster>, w: World, c: Cluster, next: Int32)
    requires c in cs && SameDomains(ps, w.store.prefixes)
    ensures WrittenFor(env, ps, cs, w.store, SyncCluster(env, w, c, next).w.store)
  {
    if c.kind != OtherKind {
      var (clock, e) := ReadEndpoint(env, w.clock, c);
      ReadEndpointSays(env, w.clock, c);
      if e.Some? {
        SyncFoundWrites(env, ps, cs, w.(clock := clock), c, next);
      }
    }
  }

  lemma {:induction false} SyncAllWrites(env: Env, ps: seq<Prefix>, cs: seq<Cluster>, w: World, todo: seq<Cluster>, next: Int32)
    requires (forall c | c in todo :: c in cs) && SameDomains(ps, w.store.prefixes)
    ensures WrittenFor(env, ps, cs, w.store, SyncAll(env, w, todo, next).w.store)
    decreases |todo|
  {
    if todo != [] {
      var s1 := SyncCluster(env, w, todo[0], next);
      SyncClusterOk(env, w, todo[0], next);
      SyncClusterWrites(env, ps, cs, w, todo[0], next);
      SyncAllOk(env, s1.w, todo[1..], s1.next);
      SyncAllWrites(env, ps, cs, s1.w, todo[1..], s1.next);
      WritesCompose(env, ps, cs, w.store, s1.w.store, SyncAll(env, s1.w, todo[1..], s1.next).w.store);
    }
  }

  /**
   For every run and every pattern of failures: each group, address, service and template created
   belongs to a selected cluster with an endpoint, addresses and services under the group that
   carries that cluster's name, the service with the port of its endpoint; and each DNS name
   written, also on an older address, is one that a selected cluster wants.
   */
  lemma RunWritesForItsClusters(store: Store, run: Run)
    ensures WrittenFor(run.env, store.prefixes, Selected(run.env.clusters, run.names), store, After(store, run))
  {
    var w := Start(store, run.faults);
    var cs := Selected(run.env.clusters, run.names);
    SyncAllWrites(run.env, store.prefixes, cs, w.(clock := w.clock.Tick().Tick()), cs, NextGroupId(store.groups));
  }
}
