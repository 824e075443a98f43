/**
 What a run makes of the texts it reads: annotations, endpoints, Tailscale secrets and domains, each
 stated over the text itself and followed to what is stored, reported and shown.
 */
module ClusterMeaning {
  import opened Basics
  import opened Text
  import opened Faults
  import opened Ipam
  import opened ClusterSync
  import opened ClusterEvolution
  import opened ClusterIdempotence
  import opened ClusterOwnership
  import opened ClusterShow

  // ---------- the Cilium annotation ----------

  /** The control plane of the cluster can be read and has this value under this key; a missing key has "". */
  predicate Annotated(env: Env, name: string, key: string, value: string) {
    exists i | 0 <= i < |env.planes| ::
      && env.planes[i].name == name && (forall j | 0 <= j < i :: env.planes[j].name != name)
      && env.planes[i].annotations.Annotations?
      && value == if key in env.planes[i].annotations.values then env.planes[i].annotations.values[key] else ""
  }

  lemma FirstPlane(env: Env, name: string, i: nat)
    requires i < |env.planes| && env.planes[i].name == name && forall j | 0 <= j < i :: env.planes[j].name != name
    ensures Plane(env, name) == i
  {
  }

  lemma AnnotatedPlane(env: Env, name: string, key: string, value: string)
    requires Annotated(env, name, key, value)
    ensures var i := Plane(env, name);
            && i < |env.planes| && env.planes[i].annotations.Annotations?
            && Annotation(env.planes[i].annotations.values, key) == value
  {
    var i :| 0 <= i < |env.planes| && env.planes[i].name == name && (forall j | 0 <= j < i :: env.planes[j].name != name)
             && env.planes[i].annotations.Annotations?
             && value == if key in env.planes[i].annotations.values then env.planes[i].annotations.values[key] else "";
    FirstPlane(env, name, i);
  }

  lemma AnnotationFirst(env: Env, name: string, text: string, first: string)
    requires Annotated(env, name, "io.cilium/lb-ipam-ips", text) && UpTo(text, ',', first)
    ensures CiliumIP(env, name) == Some(TrimSpace(first))
  {
    AnnotatedPlane(env, name, "io.cilium/lb-ipam-ips", text);
    UpToIsFirst(text, ',', first);
  }

  lemma RunSettles(env: Env, w: World, names: seq<string>, c: Cluster)
    requires !SyncStatus(env, w, names).0.clock.failed && c in Selected(env.clusters, names)
    ensures Settled(env, SyncStatus(env, w, names).0.store, c)
  {
    SyncAllSettles(env, w.(clock := w.clock.Tick().Tick()), Selected(env.clusters, names), NextGroupId(w.store.groups));
  }

  /**
   For every annotation: after a run in which no call failed, the first entry, if it is not blank, can be
   found in NetBox, for every managed cluster of the run that has an endpoint.
   */
  lemma AnnotatedAddressFound(env: Env, w: World, names: seq<string>, c: Cluster, text: string, first: string)
    requires !SyncStatus(env, w, names).0.clock.failed
    requires c in Selected(env.clusters, names) && c.kind == Managed && Reachable(env, c)
    requires Annotated(env, c.name, "io.cilium/lb-ipam-ips", text) && UpTo(text, ',', first) && TrimSpace(first) != ""
    ensures var rows := SyncStatus(env, w, names).0.store.addresses; Search(rows, TrimSpace(first)) < |rows|
  {
    AnnotationFirst(env, c.name, text, first);
    RunSettles(env, w, names, c);
  }

  // ---------- the Tailscale annotations and secret ----------

  /** A cluster is exposed exactly when it says so and has a hostname. */
  lemma ExposedIff(env: Env, name: string, expose: string, hostname: string)
    requires Annotated(env, name, "tailscale.com/expose", expose) && Annotated(env, name, "tailscale.com/hostname", hostname)
    ensures PlaneExposed(env, name) <==> expose == "true" && hostname != ""
  {
    AnnotatedPlane(env, name, "tailscale.com/expose", expose);
    AnnotatedPlane(env, name, "tailscale.com/hostname", hostname);
  }

  /** The state of its proxy: the secret of the first pod of its first StatefulSet. */
  predicate ProxyState(env: Env, name: string, secret: ProxySecret) {
    && name in env.proxies && env.proxies[name] != []
    && env.proxies[name][0] + "-0" in env.secrets && env.secrets[env.proxies[name][0] + "-0"] == secret
  }

  /**
   The first Tailscale IP of an exposed cluster can be found after a run in which no call failed, and some
   prefix contains it.
   */
  lemma TailscaleAddressFound(env: Env, w: World, names: seq<string>, c: Cluster, hostname: string, secret: ProxySecret)
    requires !SyncStatus(env, w, names).0.clock.failed
    requires c in Selected(env.clusters, names) && c.kind == Managed && Reachable(env, c)
    requires Annotated(env, c.name, "tailscale.com/expose", "true")
    requires Annotated(env, c.name, "tailscale.com/hostname", hostname) && hostname != ""
    requires ProxyState(env, c.name, secret) && secret.ips != [] && secret.ips[0] != ""
    ensures var s := SyncStatus(env, w, names).0.store;
            Search(s.addresses, secret.ips[0]) < |s.addresses| && BestFor(s.prefixes, secret.ips[0]).Some?
  {
    ExposedIff(env, c.name, "true", hostname);
    assert TailscaleOf(env, c.name) == SecretDevice(secret);
    RunSettles(env, w, names, c);
  }

  // ---------- endpoints ----------

  /** The primary IPv4 address of a node, or else its primary address. */
  predicate HasAddress(n: Node, address: string) {
    address != "" && (n.primaryIp4 == Some(address) || (n.primaryIp4.None? && n.primaryIp == Some(address)))
  }

  /** The headnode of a cluster: its first such device, or its first such virtual machine if there is no device. */
  predicate Headnode(env: Env, id: int, n: Node) {
    || (id in env.headDevices && env.headDevices[id] != [] && env.headDevices[id][0] == n)
    || ((id !in env.headDevices || env.headDevices[id] == []) && id in env.headMachines && env.headMachines[id] != []
        && env.headMachines[id][0] == n)
  }

  /** A managed cluster: the host and port of its CAPI object; 6443 when the port is absent or zero. */
  lemma ManagedEndpoint(env: Env, c: Cluster)
    requires c.kind == Managed
    ensures EndpointOf(env, c).Some? <==> c.name in env.capi
    ensures c.name in env.capi ==>
              var capi, e := env.capi[c.name], EndpointOf(env, c).value;
              && e.host == capi.host
              && (capi.port.None? || capi.port == Some(0) ==> e.port == 6443)
              && (capi.port.Some? && capi.port.value != 0 && IsInt32(capi.port.value) ==> e.port == capi.port.value)
  {
  }

  /** A standalone cluster: the address of its headnode without the mask, and 6443. */
  lemma StandaloneEndpoint(env: Env, c: Cluster, n: Node, address: string)
    requires c.kind == Standalone && Headnode(env, c.id, n) && HasAddress(n, address)
    ensures EndpointOf(env, c).Some? && UpTo(address, '/', EndpointOf(env, c).value.host) && EndpointOf(env, c).value.port == 6443
  {
    SplitFirst(address, '/');
  }

  /** And no endpoint without a headnode that has an address. */
  lemma NoStandaloneEndpoint(env: Env, c: Cluster)
    requires c.kind == Standalone && !(exists n, address :: Headnode(env, c.id, n) && HasAddress(n, address))
    ensures EndpointOf(env, c).None?
  {
    var nodes := if NodesOf(env.headDevices, c.id) != [] then NodesOf(env.headDevices, c.id) else NodesOf(env.headMachines, c.id);
    if nodes != [] {
      assert Headnode(env, c.id, nodes[0]);
      assert !HasAddress(nodes[0], NodeAddress(nodes[0]));
    }
  }

  // ---------- DNS names ----------

  /** `d` is the first entry of the field that is not routing-only. */
  predicate FirstUsable(fields: seq<string>, d: string) {
    exists i | 0 <= i < |fields| :: fields[i] == d && !("~" <= d) && forall j | 0 <= j < i :: "~" <= fields[j]
  }

  /** The longest prefix of the address has this Domains field. */
  predicate Governs(ps: seq<Prefix>, ip: string, domains: string) {
    BestFor(ps, ip).Some? && BestFor(ps, ip).value.domains == Some(domains)
  }

  lemma UsableIs(fields: seq<string>, d: string)
    requires FirstUsable(fields, d)
    ensures UsableDomain(fields) == d
  {
  }

  /**
   The name for an address: the host of the endpoint if it is a hostname, and otherwise the cluster in the
   first usable domain of the longest prefix, with a dot between them.
   */
  lemma NameWanted(env: Env, ps: seq<Prefix>, cluster: string, host: string, ip: string, domains: string, d: string)
    ensures IsHostname(env, host) ==> WantedDns(env, ps, cluster, host, ip) == host
    ensures !IsHostname(env, host) && Governs(ps, ip, domains) && FirstUsable(Fields(domains), d) && d != "" ==>
              WantedDns(env, ps, cluster, host, ip) == cluster + "." + d
  {
    if FirstUsable(Fields(domains), d) {
      UsableIs(Fields(domains), d);
    }
  }

  /** The record that a reliable stage adds for a first entry that is found nowhere. */
  lemma NewRecord(env: Env, w: World, c: Cluster, host: string, r: Report, text: string, first: string)
    requires w.clock.Reliable() && Annotated(env, c.name, "io.cilium/lb-ipam-ips", text) && UpTo(text, ',', first)
    requires TrimSpace(first) != "" && ParseCIDR(AddressText(TrimSpace(first))).Some?
    requires Search(w.store.addresses, TrimSpace(first)) == |w.store.addresses|
    ensures var ip := TrimSpace(first);
            var dns := WantedDns(env, w.store.prefixes, c.name, host, ip);
            var (w', r') := SyncCilium(env, w, c, host, r);
            && w'.store.addresses == w.store.addresses +
                 [Address(if '/' in ip then ip else ip + "/32", if IsHostname(env, dns) then dns else "", r.groupPk, "active")]
            && r'.updated && r'.addressPk == |w'.store.addresses|
  {
    AnnotationFirst(env, c.name, text, first);
  }

  // ---------- reports ----------

  /** The service of the cluster has this key, and the service template exists. */
  predicate HasService(s: Store, cluster: string, servicePk: nat) {
    && 1 <= servicePk <= |s.services| && s.services[servicePk - 1].description == "Kubernetes endpoint for " + cluster
    && exists t | t in s.templates :: t.name == "Kubernetes endpoint"
  }

  lemma TemplateExists(w: World, port: int)
    ensures var (w', got) := EnsureTemplate(w, port);
            && (got.Record? ==> exists t | t in w'.store.templates :: t.name == "Kubernetes endpoint")
            && (got.Failed? ==> w'.clock.failed)
  {
    var (w', got) := EnsureTemplate(w, port);
    if got.Record? {
      assert w'.store.templates[got.pk - 1] in w'.store.templates;
    }
  }

  lemma ServiceExists(w: World, groupPk: nat, cluster: string, port: int)
    ensures var (w', got) := EnsureService(w, groupPk, cluster, port);
            && (got.Record? ==>
                  1 <= got.pk <= |w'.store.services|
                  && w'.store.services[got.pk - 1].description == "Kubernetes endpoint for " + cluster)
            && (got.Failed? ==> w'.clock.failed)
            && w'.store.templates == w.store.templates
  {
  }

  lemma ServiceReport(w: World, c: Cluster, port: int, r: Report)
    requires r.error.None?
    ensures var (w', r') := SyncService(w, c, port, r);
            (r'.error.None? ==> HasService(w'.store, c.name, r'.servicePk)) && (r'.error.Some? ==> w'.clock.failed)
  {
    TemplateExists(w, port);
    ServiceExists(EnsureTemplate(w, port).0, r.groupPk, c.name, port);
  }

  lemma AddressReported(env: Env, w: World, ip: string, groupPk: nat, dns: string)
    ensures var (w', got) := EnsureAddress(env, w, ip, groupPk, dns); got.Failed? ==> w'.clock.failed
  {
  }

  lemma CiliumReported(env: Env, w: World, c: Cluster, host: string, r: Report)
    requires r.error.None?
    ensures var (w', r') := SyncCilium(env, w, c, host, r); r'.error.Some? ==> w'.clock.failed
  {
    var ip := CiliumIP(env, c.name);
    if ip.Some? && ip.value != "" {
      var (w2, dns) := ReadDns(env, w.(clock := w.clock.Tick()), c, host, ip.value);
      AddressReported(env, w2, ip.value, r.groupPk, dns);
    }
  }

  lemma EndpointReport(env: Env, w: World, c: Cluster, e: Endpoint, r: Report)
    requires r.error.None?
    ensures var (w', r') := SyncEndpoint(env, w, c, e, r);
            (r'.error.None? ==> HasService(w'.store, c.name, r'.servicePk)) && (r'.error.Some? ==> w'.clock.failed)
  {
    if c.kind != Managed {
      ServiceReport(w, c, e.port, r);
    } else {
      CiliumReported(env, w, c, e.host, r);
      var (w1, r1) := SyncCilium(env, w, c, e.host, r);
      if r1.error.None? {
        var (w2, r2) := SyncTailscale(env, w1, c, r1);
        assert r2.error.None?;
        ServiceReport(w2, c, e.port, r2);
      }
    }
  }

  lemma FoundReported(env: Env, w: World, c: Cluster, e: Endpoint, next: Int32)
    ensures var s := SyncFound(env, w, c, e, next);
            var r := s.reports[0];
            && r.cluster == c.name
            && (r.error.None? ==> OwnedBy(s.w.store.groups, r.groupPk, c.name) && HasService(s.w.store, c.name, r.servicePk))
            && (r.error.Some? ==> s.w.clock.failed)
  {
    var (w1, group) := EnsureGroup(w, c.name, next);
    EnsureGroupOk(env, w, c.name, next);
    EnsureGroupFinds(w, c.name, next);
    if group.Record? {
      var r1 := NewReport(c.name).(groupPk := group.pk, updated := group.created);
      SyncEndpointOk(env, w1, c, e, r1);
      EndpointReport(env, w1, c, e, r1);
    }
  }

  /**
   Whatever fails: a report without an error means that the cluster has its group, its service and the
   service template, under the reported keys; a report with one means that a call failed or that there is
   no endpoint.
   */
  lemma ReportIsTrue(env: Env, w: World, c: Cluster, next: Int32)
    requires c.kind != OtherKind
    ensures var s := SyncCluster(env, w, c, next);
            && |s.reports| == 1 && s.reports[0].cluster == c.name
            && var r := s.reports[0];
            && (r.error.None? ==> OwnedBy(s.w.store.groups, r.groupPk, c.name) && HasService(s.w.store, c.name, r.servicePk))
            && (r.error.Some? ==> s.w.clock.failed || EndpointOf(env, c).None?)
  {
    var (clock, e) := ReadEndpoint(env, w.clock, c);
    if e.Some? {
      FoundReported(env, w.(clock := clock), c, e.value, next);
    }
  }

  // ---------- which clusters, in which order ----------

  lemma SelectedOne(c: Cluster, names: seq<string>)
    ensures Selected([c], names) ==
            if (c.kind == Managed || c.kind == Standalone) && (names == [] || names[0] == "" || c.name in names) then [c] else []
  {
    assert [c][1..] == [];
  }

  lemma SelectedCons(c: Cluster, rest: seq<Cluster>, names: seq<string>)
    ensures Selected([c] + rest, names) == Selected([c], names) + Selected(rest, names)
  {
    SelectedOne(c, names);
    assert ([c] + rest)[1..] == rest;
  }

  /** A run takes the clusters of the two kinds that have one of the names, in the order of NetBox; no name means all. */
  lemma {:induction false} SelectedInOrder(a: seq<Cluster>, b: seq<Cluster>, names: seq<string>)
    ensures Selected(a + b, names) == Selected(a, names) + Selected(b, names)
  {
    if a == [] {
      assert a + b == b;
    } else {
      assert a == [a[0]] + a[1..];
      assert a + b == [a[0]] + (a[1..] + b);
      SelectedInOrder(a[1..], b, names);
      SelectedCons(a[0], a[1..], names);
      SelectedCons(a[0], a[1..] + b, names);
      ConcatAssociative(Selected([a[0]], names), Selected(a[1..], names), Selected(b, names));
    }
  }

  // ---------- the table ----------

  /** The row of an address: known, with the stored status, exactly when the search finds a record. */
  predicate TellsOf(s: Store, row: Row, ip: string) {
    var i := Search(s.addresses, ip);
    && (row.known <==> i < |s.addresses|)
    && row.status == if i < |s.addresses| then s.addresses[i].status else ""
  }

  predicate CiliumRowOf(s: Store, p: ControlPlane, row: Row) {
    && row.source == CiliumSource && p.annotations.Annotations? && row.ip != "" && TellsOf(s, row, row.ip)
    && exists e | e in Split(Annotation(p.annotations.values, "io.cilium/lb-ipam-ips"), ',') :: row.ip == TrimSpace(e)
  }

  predicate TailscaleRowOf(env: Env, s: Store, p: ControlPlane, row: Row) {
    && row.source == TailscaleSource && TailscaleExposed(p.annotations)
    && exists secret: ProxySecret | secret in env.secrets.Values ::
         ProxyState(env, p.name, secret) && SecretDevice(secret).Some?
         && var d := SecretDevice(secret).value;
            row.ip == d.Address() && (if d.ip == "" then !row.known && row.status == "" else TellsOf(s, row, d.ip))
  }

  predicate RowOf(env: Env, s: Store, p: ControlPlane, row: Row) {
    row.cluster == p.name && (CiliumRowOf(s, p, row) || TailscaleRowOf(env, s, p, row))
  }

  lemma {:induction false} CiliumRowsTell(clock: Clock, s: Store, p: ControlPlane, entries: seq<string>, row: Row)
    requires clock.Reliable() && row in CiliumRows(clock, s, p.name, entries).rows
    ensures row.cluster == p.name && row.source == CiliumSource && row.ip != "" && TellsOf(s, row, row.ip)
    ensures exists e | e in entries :: row.ip == TrimSpace(e)
    decreases |entries|
  {
    var ip := TrimSpace(entries[0]);
    if ip == "" {
      CiliumRowsTell(clock, s, p, entries[1..], row);
    } else if row != ReadRow(clock, s, p.name, ip, CiliumSource, ip) {
      CiliumRowsTell(clock.Tick(), s, p, entries[1..], row);
    }
  }

  lemma TailscaleRowsTell(env: Env, clock: Clock, s: Store, p: ControlPlane, row: Row)
    requires clock.Reliable() && row in TailscaleRows(env, clock, s, p).rows
    ensures row.cluster == p.name && TailscaleRowOf(env, s, p, row)
  {
    var (c1, device) := ReadProxy(env, clock, p.name);
    var secret := env.secrets[env.proxies[p.name][0] + "-0"];
    assert secret in env.secrets.Values && ProxyState(env, p.name, secret);
  }

  lemma PlaneRowsTell(env: Env, clock: Clock, s: Store, p: ControlPlane, row: Row)
    requires clock.Reliable() && row in PlaneRows(env, clock, s, p).rows
    ensures RowOf(env, s, p, row)
  {
    var cilium := CiliumRows(clock, s, p.name, PlaneEntries(p));
    CiliumRowsReliable(clock, s, p.name, PlaneEntries(p));
    if row in cilium.rows {
      CiliumRowsTell(clock, s, p, PlaneEntries(p), row);
    } else {
      TailscaleRowsTell(env, cilium.clock, s, p, row);
    }
  }

  lemma PlaneRowsReliable(env: Env, clock: Clock, s: Store, p: ControlPlane)
    requires clock.Reliable()
    ensures PlaneRows(env, clock, s, p).clock.Reliable()
  {
    CiliumRowsReliable(clock, s, p.name, PlaneEntries(p));
  }

  /**
   Every row of the table is about an annotation entry or the Tailscale device of a control plane that was
   asked for, and says of it what NetBox says.
   */
  lemma {:induction false} RowsTell(env: Env, clock: Clock, s: Store, planes: seq<ControlPlane>, names: seq<string>, row: Row)
      returns (p: ControlPlane)
    requires clock.Reliable() && row in ShowPlanes(env, clock, s, planes, names).rows
    ensures p in planes && RowOf(env, s, p, row)
    ensures (forall n | n in names :: n == "") || (row.cluster != "" && row.cluster in names)
    decreases |planes|
  {
    p := planes[0];
    if !Picked(names, p.name) {
      p := RowsTell(env, clock, s, planes[1..], names, row);
    } else if row in PlaneRows(env, clock, s, p).rows {
      PlaneRowsTell(env, clock, s, p, row);
    } else {
      PlaneRowsReliable(env, clock, s, p);
      p := RowsTell(env, PlaneRows(env, clock, s, p).clock, s, planes[1..], names, row);
    }
  }

  /** The entries that are not blank, trimmed, in their order. */
  function Entries(entries: seq<string>): (ips: seq<string>) {
    if entries == [] then []
    else (if TrimSpace(entries[0]) == "" then [] else [TrimSpace(entries[0])]) + Entries(entries[1..])
  }

  ghost predicate Lists(rows: seq<Row>, cluster: string, ips: seq<string>) {
    |rows| == |ips| && forall i | 0 <= i < |rows| :: rows[i].ip == ips[i] && rows[i].cluster == cluster
  }

  lemma ListsCons(row: Row, rows: seq<Row>, cluster: string, ips: seq<string>)
    requires Lists(rows, cluster, ips) && row.cluster == cluster
    ensures Lists([row] + rows, cluster, [row.ip] + ips)
  {
  }

  /** Whatever queries fail, every entry that is not blank has its row, in order. */
  lemma {:induction false} EveryEntryShown(clock: Clock, s: Store, cluster: string, entries: seq<string>)
    ensures Lists(CiliumRows(clock, s, cluster, entries).rows, cluster, Entries(entries))
    decreases |entries|
  {
    if entries != [] {
      var ip, rest := TrimSpace(entries[0]), entries[1..];
      if ip == "" {
        EveryEntryShown(clock, s, cluster, rest);
        assert Entries(entries) == Entries(rest);
      } else {
        EveryEntryShown(clock.Tick(), s, cluster, rest);
        ListsCons(ReadRow(clock, s, cluster, ip, CiliumSource, ip), CiliumRows(clock.Tick(), s, cluster, rest).rows, cluster, Entries(rest));
      }
    }
  }

  /** An exposed control plane that is asked for has the row of its device, also when the device has no IP. */
  lemma DeviceShown(env: Env, clock: Clock, s: Store, planes: seq<ControlPlane>, names: seq<string>, i: nat, secret: ProxySecret)
    requires clock.Reliable() && i < |planes| && Picked(names, planes[i].name) && TailscaleExposed(planes[i].annotations)
    requires ProxyState(env, planes[i].name, secret) && SecretDevice(secret).Some?
    ensures exists row | row in ShowPlanes(env, clock, s, planes, names).rows ::
              row.cluster == planes[i].name && row.source == TailscaleSource && row.ip == SecretDevice(secret).value.Address()
  {
    var p := planes[i];
    var at := RowsOfPlaneShown(env, clock, s, planes, names, i);
    CiliumRowsReliable(at, s, p.name, PlaneEntries(p));
    var rows := TailscaleRows(env, CiliumRows(at, s, p.name, PlaneEntries(p)).clock, s, p).rows;
    assert rows[0] in PlaneRows(env, at, s, p).rows;
  }

  // ---------- an error does not stop the run ----------

  lemma SyncAllCons(env: Env, w: World, c: Cluster, rest: seq<Cluster>, next: Int32)
    ensures var s1 := SyncCluster(env, w, c, next);
            var s2 := SyncAll(env, s1.w, rest, s1.next);
            SyncAll(env, w, [c] + rest, next) == Step(s2.w, s2.next, s1.reports + s2.reports)
  {
    assert ([c] + rest)[1..] == rest;
  }

  /** The loop over two lists is the loop over the first and then, from what that left, over the second. */
  lemma {:induction false} SyncAllConcat(env: Env, w: World, a: seq<Cluster>, b: seq<Cluster>, next: Int32)
    ensures var s1 := SyncAll(env, w, a, next);
            var s2 := SyncAll(env, s1.w, b, s1.next);
            SyncAll(env, w, a + b, next) == Step(s2.w, s2.next, s1.reports + s2.reports)
    decreases |a|
  {
    if a == [] {
      var s2 := SyncAll(env, w, b, next);
      assert a + b == b && [] + s2.reports == s2.reports;
    } else {
      var s := SyncCluster(env, w, a[0], next);
      assert a == [a[0]] + a[1..];
      assert a + b == [a[0]] + (a[1..] + b);
      SyncAllConcat(env, s.w, a[1..], b, s.next);
      SyncAllCons(env, w, a[0], a[1..], next);
      SyncAllCons(env, w, a[0], a[1..] + b, next);
      var s1 := SyncAll(env, s.w, a[1..], s.next);
      ConcatAssociative(s.reports, s1.reports, SyncAll(env, s1.w, b, s1.next).reports);
    }
  }

  /** Whatever fails, every cluster has its report, in order: an error of one does not stop the others. */
  lemma {:induction false} EveryClusterReported(env: Env, w: World, cs: seq<Cluster>, next: Int32)
    requires forall c | c in cs :: c.kind != OtherKind
    ensures var reports := SyncAll(env, w, cs, next).reports;
            |reports| == |cs| && forall i | 0 <= i < |cs| :: reports[i].cluster == cs[i].name
    decreases |cs|
  {
    if cs != [] {
      var s := SyncCluster(env, w, cs[0], next);
      ReportIsTrue(env, w, cs[0], next);
      EveryClusterReported(env, s.w, cs[1..], s.next);
      SyncAllCons(env, w, cs[0], cs[1..], next);
      assert cs == [cs[0]] + cs[1..];
    }
  }

  /** One cluster in the middle of a loop: its iteration runs on what the clusters before it left. */
  lemma IterationInLoop(env: Env, w: World, before: seq<Cluster>, c: Cluster, rest: seq<Cluster>, next: Int32)
    requires c.kind != OtherKind && forall x | x in before :: x.kind != OtherKind
    ensures var s := SyncAll(env, w, before, next);
            var reports := SyncAll(env, w, before + ([c] + rest), next).reports;
            |reports| > |before| && reports[|before|] == SyncCluster(env, s.w, c, s.next).reports[0]
  {
    var s := SyncAll(env, w, before, next);
    SyncAllConcat(env, w, before, [c] + rest, next);
    SyncAllCons(env, s.w, c, rest, s.next);
    EveryClusterReported(env, w, before, next);
  }
}
