/**
 A run in which no call fails leaves every cluster settled: a second run over the same
 Kubernetes objects writes nothing and repeats the same reports with Updated cleared.
 */
module ClusterIdempotence {
  import opened Basics
  import opened Text
  import opened Faults
  import opened Ipam
  import opened ClusterSync
  import opened ClusterEvolution

  // ---------- what "settled" means ----------

  /** The search for `ip` hits a record, and that record has a DNS name if one is wanted. */
  predicate AddressSettled(env: Env, s: Store, ip: string, dns: string) {
    var i := Search(s.addresses, ip);
    i < |s.addresses| && (IsHostname(env, dns) ==> s.addresses[i].dns != "")
  }

  predicate CiliumSettled(env: Env, s: Store, c: Cluster, host: string) {
    var ip := CiliumIP(env, c.name);
    ip.Some? && ip.value != "" ==>
      AddressSettled(env, s, ip.value, WantedDns(env, s.prefixes, c.name, host, ip.value))
  }

  predicate TailscaleSettled(env: Env, s: Store, c: Cluster) {
    var d := TailscaleOf(env, c.name);
    d.Some? && d.value.ip != "" ==>
      BestFor(s.prefixes, d.value.ip).Some? && AddressSettled(env, s, d.value.ip, d.value.fqdn)
  }

  function FindTemplate(s: Store): nat {
    First(s.templates, (t: Template) => t.name == SERVICE_TEMPLATE)
  }

  function FindService(s: Store, cluster: string): nat {
    First(s.services, (v: Service) => v.description == Description(cluster))
  }

  predicate ServiceSettled(s: Store, c: Cluster) {
    FindTemplate(s) < |s.templates| && FindService(s, c.name) < |s.services|
  }

  predicate SettledAt(env: Env, s: Store, c: Cluster, e: Endpoint) {
    && FindGroup(s.groups, c.name) < |s.groups|
    && (c.kind == Managed ==> CiliumSettled(env, s, c, e.host) && TailscaleSettled(env, s, c))
    && ServiceSettled(s, c)
  }

  /** An iteration for `c` on store `s` has nothing left to write. */
  predicate Settled(env: Env, s: Store, c: Cluster) {
    c.kind != OtherKind && EndpointOf(env, c).Some? ==> SettledAt(env, s, c, EndpointOf(env, c).value)
  }

  // ---------- the reports of a settled store ----------

  function CiliumReport(env: Env, s: Store, c: Cluster, r: Report): Report {
    var ip := CiliumIP(env, c.name);
    if ip.Some? && ip.value != "" then r.(addressPk := Search(s.addresses, ip.value) + 1) else r
  }

  function TailscaleReport(env: Env, c: Cluster, r: Report): Report {
    var d := TailscaleOf(env, c.name);
    if d.Some? && d.value.ip != "" then r.(tailscale := d.value.Address()) else r
  }

  /** The single report of a cluster with an endpoint, on a settled store. */
  function FoundReport(env: Env, s: Store, c: Cluster): (r: Report) {
    var r1 := NewReport(c.name).(groupPk := FindGroup(s.groups, c.name) + 1);
    (if c.kind == Managed then TailscaleReport(env, c, CiliumReport(env, s, c, r1)) else r1)
    .(servicePk := FindService(s, c.name) + 1)
  }

  function SettledReport(env: Env, s: Store, c: Cluster): (r: seq<Report>) {
    if c.kind == OtherKind then []
    else if EndpointOf(env, c).None? then [NewReport(c.name).(error := Some(EndpointStage))]
    else [FoundReport(env, s, c)]
  }

  function SettledReports(env: Env, s: Store, cs: seq<Cluster>): (r: seq<Report>) {
    if cs == [] then [] else SettledReport(env, s, cs[0]) + SettledReports(env, s, cs[1..])
  }

  function AllQuiet(reports: seq<Report>): (r: seq<Report>)
    ensures |r| == |reports| && forall i | 0 <= i < |r| :: r[i] == reports[i].Quiet() && !r[i].updated
  {
    seq(|reports|, i requires 0 <= i < |reports| => reports[i].Quiet())
  }

  lemma SettledReportIsQuiet(env: Env, s: Store, c: Cluster)
    ensures AllQuiet(SettledReport(env, s, c)) == SettledReport(env, s, c)
  {
  }

  // ---------- settled stays settled ----------

  lemma AddressSettledStable(env: Env, s: Store, t: Store, ip: string, dns: string)
    requires Evolves(env, s, t) && AddressSettled(env, s, ip, dns)
    ensures AddressSettled(env, t, ip, dns)
    ensures Search(t.addresses, ip) == Search(s.addresses, ip)
  {
  }

  lemma {:induction false} BestStays(ps: seq<Prefix>, qs: seq<Prefix>, ip: string)
    requires ps <= qs && BestFor(ps, ip).Some?
    ensures BestFor(qs, ip).Some?
  {
    var p := BestFor(ps, ip).value;
    var i :| 0 <= i < |ps| && ps[i] == p;
    assert qs[i] == p;
    BestIsLongest(qs, Locate(ip).value, p);
  }

  lemma CiliumStable(env: Env, s: Store, t: Store, c: Cluster, host: string, r: Report)
    requires Evolves(env, s, t) && CiliumSettled(env, s, c, host)
    ensures CiliumSettled(env, t, c, host) && CiliumReport(env, t, c, r) == CiliumReport(env, s, c, r)
  {
    var ip := CiliumIP(env, c.name);
    if ip.Some? && ip.value != "" {
      assert DomainsOf(t.prefixes, ip.value) == DomainsOf(s.prefixes, ip.value);
      AddressSettledStable(env, s, t, ip.value, WantedDns(env, s.prefixes, c.name, host, ip.value));
    }
  }

  lemma TailscaleStable(env: Env, s: Store, t: Store, c: Cluster)
    requires Evolves(env, s, t) && TailscaleSettled(env, s, c)
    ensures TailscaleSettled(env, t, c)
  {
    var d := TailscaleOf(env, c.name);
    if d.Some? && d.value.ip != "" {
      BestStays(s.prefixes, t.prefixes, d.value.ip);
      AddressSettledStable(env, s, t, d.value.ip, d.value.fqdn);
    }
  }

  lemma SettledAtStable(env: Env, s: Store, t: Store, c: Cluster, e: Endpoint)
    requires Evolves(env, s, t) && SettledAt(env, s, c, e)
    ensures SettledAt(env, t, c, e) && FoundReport(env, t, c) == FoundReport(env, s, c)
  {
    FirstOfPrefix(s.groups, t.groups, (g: Group) => g.name == c.name);
    FirstOfPrefix(s.templates, t.templates, (x: Template) => x.name == SERVICE_TEMPLATE);
    FirstOfPrefix(s.services, t.services, (v: Service) => v.description == Description(c.name));
    if c.kind == Managed {
      CiliumStable(env, s, t, c, e.host, NewReport(c.name).(groupPk := FindGroup(s.groups, c.name) + 1));
      TailscaleStable(env, s, t, c);
    }
  }

  /** Whatever later iterations write, a settled cluster stays settled and keeps its report. */
  lemma SettledStable(env: Env, s: Store, t: Store, c: Cluster)
    requires Evolves(env, s, t) && Settled(env, s, c)
    ensures Settled(env, t, c) && SettledReport(env, t, c) == SettledReport(env, s, c)
  {
    var e := EndpointOf(env, c);
    if c.kind != OtherKind && e.Some? {
      SettledAtStable(env, s, t, c, e.value);
    }
  }

  // ---------- an iteration without failures settles its cluster ----------

  lemma EnsureAddressSettles(env: Env, w: World, ip: string, groupPk: nat, dns: string)
    requires ip != ""
    ensures var (w', got) := EnsureAddress(env, w, ip, groupPk, dns);
            !w'.clock.failed ==>
              got.Record? && AddressSettled(env, w'.store, ip, dns) && Search(w'.store.addresses, ip) == got.pk - 1
  {
    var (w', got) := EnsureAddress(env, w, ip, groupPk, dns);
    var rows := w.store.addresses;
    var i := Search(rows, ip);
    if !w'.clock.failed {
      var rows' := w'.store.addresses;
      if i < |rows| {
        assert forall j | 0 <= j < |rows| :: rows'[j].text == rows[j].text;
        assert Contains(rows'[i].text, ip);
      } else {
        assert ip <= AddressText(ip);
        assert Contains(rows'[|rows|].text, ip);
      }
    }
  }

  lemma EnsurePrefixSettles(w: World, ip: string)
    ensures var w' := EnsurePrefix(w, ip); !w'.clock.failed ==> BestFor(w'.store.prefixes, ip).Some?
  {
    var w' := EnsurePrefix(w, ip);
    if w'.store != w.store {
      HostCidr(ip);
      BestAppend(w.store.prefixes, Prefix(Locate(ip).value, None), Locate(ip).value);
    }
  }

  lemma SyncCiliumSettles(env: Env, w: World, c: Cluster, host: string, r: Report)
    ensures var (w', r') := SyncCilium(env, w, c, host, r);
            !w'.clock.failed ==>
              && CiliumSettled(env, w'.store, c, host)
              && r'.Quiet() == CiliumReport(env, w'.store, c, r).Quiet()
  {
    var ip := CiliumIP(env, c.name);
    var w1 := w.(clock := w.clock.Tick());
    if ip.Some? && ip.value != "" {
      var (w2, dns) := ReadDns(env, w1, c, host, ip.value);
      EnsureAddressSettles(env, w2, ip.value, r.groupPk, dns);
    }
  }

  lemma SyncTailscaleSettles(env: Env, w: World, c: Cluster, r: Report)
    requires 1 <= r.groupPk <= |w.store.groups|
    ensures var (w', r') := SyncTailscale(env, w, c, r);
            !w'.clock.failed ==>
              && TailscaleSettled(env, w'.store, c)
              && r'.Quiet() == TailscaleReport(env, c, r).Quiet()
  {
    var (clock, device) := ReadTailscale(env, w.clock, c.name);
    var w1 := w.(clock := clock);
    if device.Some? && device.value.ip != "" {
      var d := device.value;
      var w2 := EnsurePrefix(w1, d.ip);
      EnsurePrefixSettles(w1, d.ip);
      EnsurePrefixEvolves(env, w1, d.ip);
      EnsureAddressSettles(env, w2, d.ip, r.groupPk, d.fqdn);
      EnsureAddressEvolves(env, w2, d.ip, r.groupPk, d.fqdn);
    }
  }

  lemma SyncServiceSettles(w: World, c: Cluster, port: int, r: Report)
    ensures var (w', r') := SyncService(w, c, port, r);
            !w'.clock.failed ==>
              && ServiceSettled(w'.store, c)
              && r'.Quiet() == r.(servicePk := FindService(w'.store, c.name) + 1).Quiet()
  {
  }

  lemma SyncEndpointSettles(env: Env, w: World, c: Cluster, e: Endpoint, r: Report)
    requires 1 <= r.groupPk <= |w.store.groups| && r.error.None?
    ensures var (w', r') := SyncEndpoint(env, w, c, e, r);
            !w'.clock.failed ==>
              && (c.kind == Managed ==> CiliumSettled(env, w'.store, c, e.host) && TailscaleSettled(env, w'.store, c))
              && ServiceSettled(w'.store, c)
              && r'.Quiet() ==
                 (if c.kind == Managed then TailscaleReport(env, c, CiliumReport(env, w'.store, c, r)) else r)
                 .(servicePk := FindService(w'.store, c.name) + 1).Quiet()
  {
    var w', r' := SyncEndpoint(env, w, c, e, r).0, SyncEndpoint(env, w, c, e, r).1;
    if c.kind != Managed {
      SyncServiceSettles(w, c, e.port, r);
    } else {
      var (w1, r1) := SyncCilium(env, w, c, e.host, r);
      SyncCiliumOk(env, w, c, e.host, r);
      SyncCiliumSettles(env, w, c, e.host, r);
      if r1.error.None? {
        var (w2, r2) := SyncTailscale(env, w1, c, r1);
        SyncTailscaleOk(env, w1, c, r1);
        SyncTailscaleSettles(env, w1, c, r1);
        SyncServiceOk(env, w2, c, e.port, r2);
        SyncServiceSettles(w2, c, e.port, r2);
        if !w'.clock.failed {
          CiliumStable(env, w1.store, w2.store, c, e.host, r);
          CiliumStable(env, w2.store, w'.store, c, e.host, r);
          TailscaleStable(env, w2.store, w'.store, c);
        }
      }
    }
  }

  lemma EnsureGroupFinds(w: World, name: string, next: Int32)
    ensures var (w', got) := EnsureGroup(w, name, next);
            && (got.Failed? ==> w'.clock.failed)
            && (got.Record? ==> FindGroup(w'.store.groups, name) == got.pk - 1 < |w'.store.groups|)
  {
  }

  lemma SyncFoundSettles(env: Env, w: World, c: Cluster, e: Endpoint, next: Int32)
    ensures var s := SyncFound(env, w, c, e, next);
            !s.w.clock.failed ==>
              && SettledAt(env, s.w.store, c, e)
              && s.reports[0].Quiet() == FoundReport(env, s.w.store, c).Quiet()
  {
    var (w1, group) := EnsureGroup(w, c.name, next);
    EnsureGroupFinds(w, c.name, next);
    if group.Record? {
      var r1 := NewReport(c.name).(groupPk := group.pk, updated := group.created);
      SyncEndpointOk(env, w1, c, e, r1);
      SyncEndpointSettles(env, w1, c, e, r1);
    }
  }

  lemma SyncClusterSettles(env: Env, w: World, c: Cluster, next: Int32)
    ensures var s := SyncCluster(env, w, c, next);
            !s.w.clock.failed ==>
              && Settled(env, s.w.store, c)
              && AllQuiet(s.reports) == AllQuiet(SettledReport(env, s.w.store, c))
  {
    if c.kind != OtherKind {
      var (clock, e) := ReadEndpoint(env, w.clock, c);
      if e.Some? {
        SyncFoundSettles(env, w.(clock := clock), c, e.value, next);
      }
    }
  }

  // ---------- a settled cluster causes no write ----------

  /** `w'` differs from `w` only by calls that read. */
  predicate OnlyRead(w: World, w': World) {
    w'.store == w.store && w'.clock == w.clock.(calls := w'.clock.calls)
  }

  lemma SyncCiliumQuiet(env: Env, w: World, c: Cluster, host: string, r: Report)
    requires w.clock.Reliable() && CiliumSettled(env, w.store, c, host)
    ensures var (w', r') := SyncCilium(env, w, c, host, r);
            OnlyRead(w, w') && r' == CiliumReport(env, w.store, c, r)
  {
  }

  lemma SyncTailscaleQuiet(env: Env, w: World, c: Cluster, r: Report)
    requires w.clock.Reliable() && TailscaleSettled(env, w.store, c)
    ensures var (w', r') := SyncTailscale(env, w, c, r);
            OnlyRead(w, w') && r' == TailscaleReport(env, c, r)
  {
  }

  lemma SyncServiceQuiet(w: World, c: Cluster, port: int, r: Report)
    requires w.clock.Reliable() && ServiceSettled(w.store, c)
    ensures var (w', r') := SyncService(w, c, port, r);
            OnlyRead(w, w') && r' == r.(servicePk := FindService(w.store, c.name) + 1)
  {
  }

  lemma SyncEndpointQuiet(env: Env, w: World, c: Cluster, e: Endpoint, r: Report)
    requires w.clock.Reliable() && r.error.None?
    requires c.kind == Managed ==> CiliumSettled(env, w.store, c, e.host) && TailscaleSettled(env, w.store, c)
    requires ServiceSettled(w.store, c)
    ensures var (w', r') := SyncEndpoint(env, w, c, e, r);
            && OnlyRead(w, w')
            && r' == (if c.kind == Managed then TailscaleReport(env, c, CiliumReport(env, w.store, c, r)) else r)
                     .(servicePk := FindService(w.store, c.name) + 1)
  {
    if c.kind != Managed {
      SyncServiceQuiet(w, c, e.port, r);
    } else {
      var (w1, r1) := SyncCilium(env, w, c, e.host, r);
      SyncCiliumQuiet(env, w, c, e.host, r);
      var (w2, r2) := SyncTailscale(env, w1, c, r1);
      SyncTailscaleQuiet(env, w1, c, r1);
      SyncServiceQuiet(w2, c, e.port, r2);
    }
  }

  lemma EnsureGroupQuiet(w: World, name: string, next: Int32)
    requires w.clock.Reliable() && FindGroup(w.store.groups, name) < |w.store.groups|
    ensures EnsureGroup(w, name, next) ==
            (w.(clock := w.clock.Tick()), Record(FindGroup(w.store.groups, name) + 1, false))
  {
  }

  lemma SyncFoundQuiet(env: Env, w: World, c: Cluster, e: Endpoint, next: Int32)
    requires w.clock.Reliable() && SettledAt(env, w.store, c, e)
    ensures var s := SyncFound(env, w, c, e, next);
            OnlyRead(w, s.w) && s.next == next && s.reports == [FoundReport(env, w.store, c)]
  {
    EnsureGroupQuiet(w, c.name, next);
    var (w1, group) := EnsureGroup(w, c.name, next);
    SyncEndpointQuiet(env, w1, c, e, NewReport(c.name).(groupPk := group.pk));
  }

  lemma SyncClusterQuiet(env: Env, w: World, c: Cluster, next: Int32)
    requires w.clock.Reliable() && Settled(env, w.store, c)
    ensures var s := SyncCluster(env, w, c, next);
            OnlyRead(w, s.w) && s.next == next && s.reports == SettledReport(env, w.store, c)
  {
    if c.kind != OtherKind {
      var (clock, e) := ReadEndpoint(env, w.clock, c);
      if e.Some? {
        SyncFoundQuiet(env, w.(clock := clock), c, e.value, next);
      }
    }
  }

  // ---------- the loop ----------

  ghost predicate AllSettled(env: Env, s: Store, cs: seq<Cluster>) {
    forall c | c in cs :: Settled(env, s, c)
  }

  /** After a pass without failures every cluster is settled, and the reports are those of a settled store. */
  lemma {:induction false} SyncAllSettles(env: Env, w: World, cs: seq<Cluster>, next: Int32)
    ensures var s := SyncAll(env, w, cs, next);
            !s.w.clock.failed ==>
              && AllSettled(env, s.w.store, cs)
              && AllQuiet(s.reports) == SettledReports(env, s.w.store, cs)
    decreases |cs|
  {
    if cs != [] {
      var s1 := SyncCluster(env, w, cs[0], next);
      var s2 := SyncAll(env, s1.w, cs[1..], s1.next);
      SyncClusterSettles(env, w, cs[0], next);
      SyncAllSettles(env, s1.w, cs[1..], s1.next);
      SyncAllOk(env, s1.w, cs[1..], s1.next);
      if !s2.w.clock.failed {
        SettledStable(env, s1.w.store, s2.w.store, cs[0]);
        assert AllQuiet(s1.reports + s2.reports) == AllQuiet(s1.reports) + AllQuiet(s2.reports);
        SettledReportIsQuiet(env, s1.w.store, cs[0]);
      }
    }
  }

  lemma {:induction false} SyncAllQuiet(env: Env, w: World, cs: seq<Cluster>, next: Int32)
    requires w.clock.Reliable() && AllSettled(env, w.store, cs)
    ensures var s := SyncAll(env, w, cs, next);
            OnlyRead(w, s.w) && s.reports == SettledReports(env, w.store, cs)
    decreases |cs|
  {
    if cs != [] {
      var s1 := SyncCluster(env, w, cs[0], next);
      SyncClusterQuiet(env, w, cs[0], next);
      SyncAllQuiet(env, s1.w, cs[1..], s1.next);
    }
  }

  /**
   Whole-run idempotence. If no call of a run failed, then a later run on the store it left,
   with the same names and the same Kubernetes objects, makes no write at all, leaves the
   store as it is, and returns the same reports with Updated=false in each.
   */
  lemma RunTwice(env: Env, w: World, names: seq<string>, clock: Clock)
    requires clock.Reliable()
    ensures var (w1, out1) := SyncStatus(env, w, names);
            var (w2, out2) := SyncStatus(env, World(w1.store, clock), names);
            !w1.clock.failed ==>
              && OnlyRead(World(w1.store, clock), w2)
              && out1.Reports? && out2 == Reports(AllQuiet(out1.reports))
  {
    var (w1, out1) := SyncStatus(env, w, names);
    var cs := Selected(env.clusters, names);
    if !w1.clock.failed && cs != [] {
      var v := w.(clock := w.clock.Tick().Tick());
      SyncAllOk(env, v, cs, NextGroupId(w.store.groups));
      SyncAllSettles(env, v, cs, NextGroupId(w.store.groups));
      SyncAllQuiet(env, World(w1.store, clock.Tick().Tick()), cs, NextGroupId(w1.store.groups));
    }
  }
}
