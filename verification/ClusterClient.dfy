/** The imperative program: a client that changes the NetBox collections step by step. */
module ClusterClient {
  import opened Basics
  import opened Text
  import opened Faults
  import opened Ipam
  import opened ClusterSync

  /** `results` so far and the clusters still to do add up to the whole run `total`. */
  ghost predicate Continues(env: Env, w: World, cs: seq<Cluster>, next: Int32, results: seq<Report>, total: Step) {
    var rest := SyncAll(env, w, cs, next);
    total == Step(rest.w, rest.next, results + rest.reports)
  }

  lemma ContinuesWith(env: Env, w: World, cs: seq<Cluster>, next: Int32, results: seq<Report>, total: Step)
    requires cs != [] && Continues(env, w, cs, next, results, total)
    ensures var s := SyncCluster(env, w, cs[0], next);
            Continues(env, s.w, cs[1..], s.next, results + s.reports, total)
  {
  }

  class NetBox {
    var groups: seq<Group>
    var addresses: seq<Address>
    var prefixes: seq<Prefix>
    var templates: seq<Template>
    var services: seq<Service>
    var clock: Clock

    ghost function State(): World
      reads this
    {
      World(Store(groups, addresses, prefixes, templates, services), clock)
    }

    constructor (w: World)
      ensures State() == w
    {
      groups, addresses, prefixes := w.store.groups, w.store.addresses, w.store.prefixes;
      templates, services, clock := w.store.templates, w.store.services, w.clock;
    }

    /** One API call that only reads. */
    method Call() returns (ok: bool)
      modifies this`clock
      ensures ok == old(clock).Up() && clock == old(clock).Tick()
    {
      ok := clock.Up();
      clock := clock.Tick();
    }

    /** One API call that is about to change an object, when it goes through. */
    method WriteCall() returns (ok: bool)
      modifies this`clock
      ensures ok == old(clock).Up()
      ensures clock == if ok then old(clock).Wrote() else old(clock).Tick()
    {
      ok := clock.Up();
      clock := if ok then clock.Wrote() else clock.Tick();
    }

    method GetOrCreateGroup(name: string, groupId: Int32) returns (got: Lookup)
      modifies this
      ensures (State(), got) == EnsureGroup(old(State()), name, groupId)
    {
      var ok := Call();
      if !ok { return Failed; }
      var i := FindGroup(groups, name);
      if i < |groups| { return Record(i + 1, false); }
      ok := WriteCall();
      if !ok { return Failed; }
      groups := groups + [Group(groupId, name)];
      return Record(|groups|, true);
    }

    method GetOrCreateTemplate(port: int) returns (got: Lookup)
      modifies this
      ensures (State(), got) == EnsureTemplate(old(State()), port)
    {
      var ok := Call();
      if !ok { return Failed; }
      var i := First(templates, (t: Template) => t.name == SERVICE_TEMPLATE);
      if i < |templates| { return Record(i + 1, false); }
      ok := WriteCall();
      if !ok { return Failed; }
      templates := templates + [Template(SERVICE_TEMPLATE, port)];
      return Record(|templates|, true);
    }

    method GetOrCreateService(groupPk: nat, cluster: string, port: int) returns (got: Lookup)
      modifies this
      ensures (State(), got) == EnsureService(old(State()), groupPk, cluster, port)
    {
      var description := Description(cluster);
      var ok := Call();
      if !ok { return Failed; }
      var i := First(services, (s: Service) => s.description == Description(cluster));
      if i < |services| { return Record(i + 1, false); }
      ok := WriteCall();
      if !ok { return Failed; }
      services := services + [Service(description, groupPk, SERVICE_TEMPLATE, port)];
      return Record(|services|, true);
    }

    method GetOrCreateAddress(env: Env, ip: string, groupPk: nat, dns: string) returns (got: Lookup)
      modifies this
      ensures (State(), got) == EnsureAddress(env, old(State()), ip, groupPk, dns)
    {
      var ok := Call();
      if !ok { return Failed; }
      var i := Search(addresses, ip);
      if i < |addresses| {
        if IsHostname(env, dns) && addresses[i].dns == "" {
          ok := WriteCall();
          if !ok { return Record(i + 1, false); }
          addresses := addresses[i := addresses[i].(dns := dns)];
          return Record(i + 1, true);
        }
        return Record(i + 1, false);
      }
      var cidr := if '/' in ip then ip else ip + "/32";
      if ParseCIDR(cidr).None? {
        ok := Call();
        if ok { clock := clock.(failed := true); }
        return Failed;
      }
      ok := WriteCall();
      if !ok { return Failed; }
      addresses := addresses + [Address(cidr, if IsHostname(env, dns) then dns else "", groupPk, "active")];
      return Record(|addresses|, true);
    }

    method GetOrCreatePrefix(ip: string)
      modifies this
      ensures State() == EnsurePrefix(old(State()), ip)
    {
      var ok := Call();
      if !ok || BestFor(prefixes, ip).Some? { return; }
      var net := ParseCIDR(ip + "/32");
      if net.None? {
        ok := Call();
        if ok { clock := clock.(failed := true); }
        return;
      }
      ok := WriteCall();
      if ok { prefixes := prefixes + [Prefix(net.value, None)]; }
    }

    /** The loop over the Domains field of the longest prefix. */
    method GetDnsFromPrefix(ip: string, cluster: string) returns (dns: string)
      modifies this`clock
      ensures clock == old(clock).Tick()
      ensures dns == if old(clock).Up() then DnsFromPrefix(prefixes, ip, cluster) else ""
    {
      var ok := Call();
      if !ok { return ""; }
      var text := DomainsOf(prefixes, ip);
      if text.None? { return ""; }
      var domains := Fields(text.value);
      for i := 0 to |domains|
        invariant UsableDomain(domains) == UsableDomain(domains[i..])
      {
        assert domains[i] in domains;
        if !("~" <= domains[i]) { return cluster + "." + domains[i]; }
        assert domains[i..][1..] == domains[i + 1..];
      }
      return "";
    }

    method SyncCiliumAddress(env: Env, c: Cluster, host: string, report: Report) returns (r: Report)
      modifies this
      ensures (State(), r) == SyncCilium(env, old(State()), c, host, report)
    {
      r := report;
      var ok := Call();
      var ip := CiliumIP(env, c.name);
      if !ok || ip.None? || ip.value == "" { return; }
      var dns := host;
      if !IsHostname(env, dns) {
        dns := GetDnsFromPrefix(ip.value, c.name);
      }
      var got := GetOrCreateAddress(env, ip.value, r.groupPk, dns);
      if got.Failed? {
        r := r.(error := Some(AddressStage));
        return;
      }
      if got.created { r := r.(updated := true); }
      r := r.(addressPk := got.pk);
    }

    method SyncTailscaleAddress(env: Env, c: Cluster, report: Report) returns (r: Report)
      modifies this
      ensures (State(), r) == SyncTailscale(env, old(State()), c, report)
    {
      r := report;
      var read := ReadTailscale(env, clock, c.name);
      clock := read.0;
      var device := read.1;
      if device.None? || device.value.Address() == "" || device.value.ip == "" { return; }
      GetOrCreatePrefix(device.value.ip);
      var got := GetOrCreateAddress(env, device.value.ip, r.groupPk, device.value.fqdn);
      if got.Failed? { return; }
      r := r.(tailscale := device.value.Address());
      if got.created { r := r.(updated := true); }
    }

    method SyncServiceRecords(c: Cluster, port: int, report: Report) returns (r: Report)
      modifies this
      ensures (State(), r) == SyncService(old(State()), c, port, report)
    {
      r := report;
      var template := GetOrCreateTemplate(port);
      if template.Failed? {
        r := r.(error := Some(TemplateStage));
        return;
      }
      if template.created { r := r.(updated := true); }
      var service := GetOrCreateService(r.groupPk, c.name, port);
      if service.Failed? {
        r := r.(error := Some(ServiceStage));
        return;
      }
      if service.created { r := r.(updated := true); }
      r := r.(servicePk := service.pk);
    }

    /** The loop body of SyncStatus, for a cluster of a known kind. */
    method SyncOne(env: Env, c: Cluster, nextId: Int32) returns (next: Int32, r: Report)
      requires c.kind != OtherKind
      modifies this
      ensures Step(State(), next, [r]) == SyncCluster(env, old(State()), c, nextId)
    {
      next, r := nextId, NewReport(c.name);
      var read := ReadEndpoint(env, clock, c);
      clock := read.0;
      if read.1.None? {
        r := r.(error := Some(EndpointStage));
        return;
      }
      var endpoint := read.1.value;
      var group := GetOrCreateGroup(c.name, nextId);
      if group.Failed? {
        r := r.(error := Some(GroupStage));
        return;
      }
      if group.created {
        next := Wrap32(nextId + 1);
        r := r.(updated := true);
      }
      r := r.(groupPk := group.pk);
      if c.kind == Managed {
        r := SyncCiliumAddress(env, c, endpoint.host, r);
        if r.error.Some? { return; }
        r := SyncTailscaleAddress(env, c, r);
      }
      r := SyncServiceRecords(c, endpoint.port, r);
    }

    /** The loop of SyncStatus. */
    method SyncLoop(env: Env, clusters: seq<Cluster>, first: Int32) returns (results: seq<Report>)
      requires forall c | c in clusters :: c.kind != OtherKind
      modifies this
      ensures var total := SyncAll(env, old(State()), clusters, first);
              State() == total.w && results == total.reports
    {
      results := [];
      var nextId := first;
      ghost var total := SyncAll(env, State(), clusters, nextId);
      for i := 0 to |clusters|
        invariant Continues(env, State(), clusters[i..], nextId, results, total)
      {
        var c := clusters[i];
        assert c in clusters && clusters[i..][0] == c && clusters[i..][1..] == clusters[i + 1..];
        ContinuesWith(env, State(), clusters[i..], nextId, results, total);
        var r;
        nextId, r := SyncOne(env, c, nextId);
        results := results + [r];
      }
      assert clusters[|clusters|..] == [] && results + [] == results;
    }

    /** cluster.SyncStatus: the run over all selected clusters. */
    method Sync(env: Env, names: seq<string>) returns (out: Outcome)
      modifies this
      ensures (State(), out) == SyncStatus(env, old(State()), names)
    {
      var ok := Call();
      if !ok { return RunFailed; }
      var clusters := Selected(env.clusters, names);
      if clusters == [] { return Reports([]); }
      ok := Call();
      if !ok { return RunFailed; }
      var results := SyncLoop(env, clusters, NextGroupId(groups));
      return Reports(results);
    }
  }
}
