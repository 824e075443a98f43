/**
 The write-back of Kubernetes cluster endpoints into NetBox IPAM, as functions of the
 store and of the calls that fail. `ClusterClient` holds the imperative program; these
 functions say what each of its operations does.
 */
module ClusterSync {
  import opened Basics
  import opened Text
  import opened Faults
  import opened Ipam

  // ---------- what is read ----------

  datatype Kind = Managed | Standalone | OtherKind
  datatype Cluster = Cluster(id: int, name: string, kind: Kind)

  /** A DCIM device or a virtual machine with the headnode role. */
  datatype Node = Node(primaryIp4: Option<string>, primaryIp: Option<string>)

  datatype CapiCluster = CapiCluster(host: string, port: Option<int>)
  datatype Annotations = Unreadable | Annotations(values: map<string, string>)
  datatype ControlPlane = ControlPlane(name: string, annotations: Annotations)
  datatype ProxySecret = ProxySecret(fqdn: string, ips: seq<string>)

  /** The Kubernetes objects and the NetBox inventory that a run reads and never writes. */
  datatype Env = Env(
    clusters: seq<Cluster>,
    headDevices: map<int, seq<Node>>,
    headMachines: map<int, seq<Node>>,
    capi: map<string, CapiCluster>,
    planes: seq<ControlPlane>,
    proxies: map<string, seq<string>>,
    secrets: map<string, ProxySecret>,
    isIPv6: string -> bool   // net.ParseIP accepts the text as an IPv6 literal
  )

  datatype Endpoint = Endpoint(host: string, port: int)
  datatype Device = Device(ip: string, fqdn: string) {
    function Address(): string { if fqdn != "" then fqdn else ip }
  }

  const SERVICE_TEMPLATE := "Kubernetes endpoint"
  const DEFAULT_PORT := 6443
  const CILIUM_IPS := "io.cilium/lb-ipam-ips"
  const TAILSCALE_EXPOSE := "tailscale.com/expose"
  const TAILSCALE_HOSTNAME := "tailscale.com/hostname"

  // ---------- what a run produces ----------

  datatype World = World(store: Store, clock: Clock)

  datatype Stage = EndpointStage | GroupStage | AddressStage | TemplateStage | ServiceStage

  datatype Report = Report(
    cluster: string,
    groupPk: nat,
    servicePk: nat,
    addressPk: nat,
    tailscale: string,
    updated: bool,
    error: Option<Stage>
  ) {
    function Quiet(): Report { this.(updated := false) }
  }

  function NewReport(name: string): Report { Report(name, 0, 0, 0, "", false, None) }

  /** Outcome of a lookup that creates what it does not find. */
  datatype Lookup = Failed | Record(pk: nat, created: bool)

  datatype Ensured<T> = Ensured(clock: Clock, rows: seq<T>, got: Lookup)

  // ---------- Kubernetes and inventory reads ----------

  function Annotation(values: map<string, string>, key: string): string {
    if key in values then values[key] else ""
  }

  function Plane(env: Env, name: string): (i: nat)
    ensures i <= |env.planes|
  {
    First(env.planes, (p: ControlPlane) => p.name == name)
  }

  function NodeAddress(n: Node): string {
    if n.primaryIp4.Some? then n.primaryIp4.value
    else if n.primaryIp.Some? then n.primaryIp.value
    else ""
  }

  function NodesOf(m: map<int, seq<Node>>, id: int): seq<Node> { if id in m then m[id] else [] }

  function HeadEndpoint(nodes: seq<Node>): (r: Option<Endpoint>) {
    if nodes == [] || NodeAddress(nodes[0]) == "" then None
    else Some(Endpoint(Split(NodeAddress(nodes[0]), '/')[0], DEFAULT_PORT))
  }

  /** The control-plane endpoint the two systems describe, when they describe one. */
  function EndpointOf(env: Env, c: Cluster): (r: Option<Endpoint>) {
    match c.kind
    case Managed =>
      if c.name !in env.capi then None
      else
        var capi := env.capi[c.name];
        Some(Endpoint(capi.host, if capi.port.None? || capi.port.value == 0 then DEFAULT_PORT else Wrap32(capi.port.value)))
    case Standalone =>
      if NodesOf(env.headDevices, c.id) != [] then HeadEndpoint(NodesOf(env.headDevices, c.id))
      else HeadEndpoint(NodesOf(env.headMachines, c.id))
    case OtherKind => None
  }

  predicate Reachable(env: Env, c: Cluster) { c.kind != OtherKind && EndpointOf(env, c).Some? }

  function ReadEndpoint(env: Env, clock: Clock, c: Cluster): (r: (Clock, Option<Endpoint>))
    ensures Later(clock, r.0) && r.0.writes == clock.writes
    ensures !r.0.failed ==> r.1 == EndpointOf(env, c)
    ensures clock.Reliable() ==> r.0.failed == clock.failed && r.1 == EndpointOf(env, c)
  {
    var c1 := clock.Tick();
    if !clock.Up() then (c1, None)
    else if c.kind == Standalone && NodesOf(env.headDevices, c.id) == [] then
      (c1.Tick(), if c1.Up() then EndpointOf(env, c) else None)
    else (c1, EndpointOf(env, c))
  }

  /** The first entry of the Cilium annotation; None when the object or the annotation map is unreadable. */
  function CiliumIP(env: Env, name: string): (r: Option<string>) {
    var i := Plane(env, name);
    if i == |env.planes| || env.planes[i].annotations.Unreadable? then None
    else Some(TrimSpace(Split(Annotation(env.planes[i].annotations.values, CILIUM_IPS), ',')[0]))
  }

  predicate TailscaleExposed(a: Annotations) {
    && a.Annotations?
    && Annotation(a.values, TAILSCALE_EXPOSE) == "true"
    && Annotation(a.values, TAILSCALE_HOSTNAME) != ""
  }

  function SecretDevice(secret: ProxySecret): (r: Option<Device>)
    ensures var ip := if secret.ips == [] then "" else secret.ips[0];
            var fqdn := TrimDots(TrimSpace(secret.fqdn));
            && (r.None? <==> ip == "" && fqdn == "")
            && (r.Some? ==> r.value.ip == ip && r.value.Address() == if fqdn != "" then fqdn else ip)
  {
    var d := Device(if secret.ips == [] then "" else secret.ips[0], TrimDots(TrimSpace(secret.fqdn)));
    if d.Address() == "" then None else Some(d)
  }

  /** The device of an exposed cluster: its StatefulSet's state Secret, decoded. */
  function ProxyDevice(env: Env, name: string): (r: Option<Device>) {
    if name !in env.proxies || env.proxies[name] == [] then None
    else
      var secret := env.proxies[name][0] + "-0";
      if secret !in env.secrets then None else SecretDevice(env.secrets[secret])
  }

  const NO_DEVICE := Device("", "")

  predicate PlaneExposed(env: Env, name: string) {
    var i := Plane(env, name);
    i < |env.planes| && TailscaleExposed(env.planes[i].annotations)
  }

  /** The Tailscale device of a cluster: NO_DEVICE when it is not exposed, None when it cannot be read. */
  function TailscaleOf(env: Env, name: string): (r: Option<Device>) {
    if PlaneExposed(env, name) then ProxyDevice(env, name) else Some(NO_DEVICE)
  }

  /** Reads a StatefulSet list and then a Secret. */
  function ReadProxy(env: Env, clock: Clock, name: string): (r: (Clock, Option<Device>))
    ensures Later(clock, r.0) && r.0.writes == clock.writes
    ensures !r.0.failed ==> r.1 == ProxyDevice(env, name)
    ensures clock.Reliable() ==> r.0.failed == clock.failed && r.1 == ProxyDevice(env, name)
  {
    var c1 := clock.Tick();
    if !clock.Up() || name !in env.proxies || env.proxies[name] == [] then (c1, None)
    else (c1.Tick(), if c1.Up() then ProxyDevice(env, name) else None)
  }

  function ReadTailscale(env: Env, clock: Clock, name: string): (r: (Clock, Option<Device>))
    ensures Later(clock, r.0) && r.0.writes == clock.writes
    ensures !r.0.failed ==> r.1 == TailscaleOf(env, name)
    ensures clock.Reliable() ==> r.0.failed == clock.failed && r.1 == TailscaleOf(env, name)
  {
    if clock.Up() && PlaneExposed(env, name) then ReadProxy(env, clock.Tick(), name)
    else (clock.Tick(), Some(NO_DEVICE))
  }

  // ---------- DNS names ----------

  predicate IsHostname(env: Env, s: string) {
    s != "" && ParseIPv4(s).None? && !env.isIPv6(s)
  }

  /** The first domain that is not routing-only ("~..."), or "". */
  function UsableDomain(domains: seq<string>): (r: string)
    ensures var i := First(domains, (d: string) => !("~" <= d)); r == if i < |domains| then domains[i] else ""
    ensures (forall i | 0 <= i < |domains| :: domains[i] != "") ==>
              (r == "" <==> forall i | 0 <= i < |domains| :: "~" <= domains[i])
  {
    if domains == [] then "" else if !("~" <= domains[0]) then domains[0] else UsableDomain(domains[1..])
  }

  function DnsFromPrefix(prefixes: seq<Prefix>, ip: string, cluster: string): (r: string) {
    match DomainsOf(prefixes, ip)
    case None => ""
    case Some(text) =>
      var domain := UsableDomain(Fields(text));
      if domain == "" then "" else cluster + "." + domain
  }

  /** The dns_name a cluster wants on its Cilium address. */
  function WantedDns(env: Env, prefixes: seq<Prefix>, cluster: string, host: string, ip: string): (r: string) {
    if IsHostname(env, host) then host else DnsFromPrefix(prefixes, ip, cluster)
  }

  // ---------- get-or-create ----------

  /** List by a filter, return the first row found, create `row` otherwise. */
  function EnsureRow<T>(clock: Clock, rows: seq<T>, p: T -> bool, row: T): (r: Ensured<T>)
    requires p(row)
    ensures Later(clock, r.clock)
    ensures r.got.Failed? ==> r.rows == rows && r.clock.failed
    ensures r.got.Record? ==> First(r.rows, p) == r.got.pk - 1 < |r.rows|
    ensures r.rows == if r.got.Record? && r.got.created then rows + [row] else rows
    ensures r.got.Record? && r.got.created ==> First(rows, p) == |rows|
    ensures clock.Reliable() && First(rows, p) < |rows| ==>
              r == Ensured(clock.Tick(), rows, Record(First(rows, p) + 1, false))
  {
    var c1 := clock.Tick();
    var i := First(rows, p);
    if !clock.Up() then Ensured(c1, rows, Failed)
    else if i < |rows| then Ensured(c1, rows, Record(i + 1, false))
    else if !c1.Up() then Ensured(c1.Tick(), rows, Failed)
    else
      FirstOfPrefix(rows, rows + [row], p);
      assert p((rows + [row])[|rows|]);
      Ensured(c1.Wrote(), rows + [row], Record(|rows| + 1, true))
  }

  function EnsureGroup(w: World, name: string, groupId: Int32): (r: (World, Lookup)) {
    var e := EnsureRow(w.clock, w.store.groups, (g: Group) => g.name == name, Group(groupId, name));
    (World(w.store.(groups := e.rows), e.clock), e.got)
  }

  function EnsureTemplate(w: World, port: int): (r: (World, Lookup)) {
    var e := EnsureRow(w.clock, w.store.templates, (t: Template) => t.name == SERVICE_TEMPLATE, Template(SERVICE_TEMPLATE, port));
    (World(w.store.(templates := e.rows), e.clock), e.got)
  }

  function Description(cluster: string): string { "Kubernetes endpoint for " + cluster }

  function EnsureService(w: World, groupPk: nat, cluster: string, port: int): (r: (World, Lookup)) {
    var e := EnsureRow(w.clock, w.store.services, (s: Service) => s.description == Description(cluster),
                       Service(Description(cluster), groupPk, SERVICE_TEMPLATE, port));
    (World(w.store.(services := e.rows), e.clock), e.got)
  }

  function AddressText(ip: string): string { if '/' in ip then ip else ip + "/32" }

  function EnsureAddress(env: Env, w: World, ip: string, groupPk: nat, dns: string): (r: (World, Lookup)) {
    var c1 := w.clock.Tick();
    var rows := w.store.addresses;
    var i := Search(rows, ip);
    if !w.clock.Up() then (w.(clock := c1), Failed)
    else if i < |rows| then
      if !(IsHostname(env, dns) && rows[i].dns == "") then (w.(clock := c1), Record(i + 1, false))
      else if !c1.Up() then (w.(clock := c1.Tick()), Record(i + 1, false))
      else (World(w.store.(addresses := rows[i := rows[i].(dns := dns)]), c1.Wrote()), Record(i + 1, true))
    else if !c1.Up() then (w.(clock := c1.Tick()), Failed)
    else if ParseCIDR(AddressText(ip)).None? then (w.(clock := c1.Refused()), Failed)
    else
      var row := Address(AddressText(ip), if IsHostname(env, dns) then dns else "", groupPk, "active");
      (World(w.store.(addresses := rows + [row]), c1.Wrote()), Record(|rows| + 1, true))
  }

  function EnsurePrefix(w: World, ip: string): (r: World) {
    var c1 := w.clock.Tick();
    if !w.clock.Up() || BestFor(w.store.prefixes, ip).Some? then w.(clock := c1)
    else if !c1.Up() then w.(clock := c1.Tick())
    else
      match ParseCIDR(ip + "/32")
      case None => w.(clock := c1.Refused())
      case Some(net) => World(w.store.(prefixes := w.store.prefixes + [Prefix(net, None)]), c1.Wrote())
  }

  // ---------- one cluster ----------

  /** The DNS name wanted for a Cilium address; a failed prefix query counts as no name. */
  function ReadDns(env: Env, w: World, c: Cluster, host: string, ip: string): (o: (World, string))
    ensures o.0.store == w.store && Later(w.clock, o.0.clock) && o.0.clock.writes == w.clock.writes
    ensures !o.0.clock.failed || w.clock.Reliable() ==> o.1 == WantedDns(env, w.store.prefixes, c.name, host, ip)
    ensures w.clock.Reliable() ==> o.0.clock.failed == w.clock.failed
  {
    if IsHostname(env, host) then (w, host)
    else (w.(clock := w.clock.Tick()), if w.clock.Up() then DnsFromPrefix(w.store.prefixes, ip, c.name) else "")
  }

  function RecordCilium(env: Env, w: World, ip: string, dns: string, r: Report): (o: (World, Report)) {
    var (w1, got) := EnsureAddress(env, w, ip, r.groupPk, dns);
    match got
    case Failed => (w1, r.(error := Some(AddressStage)))
    case Record(pk, created) => (w1, r.(addressPk := pk, updated := r.updated || created))
  }

  function SyncCilium(env: Env, w: World, c: Cluster, host: string, r: Report): (o: (World, Report)) {
    var w1 := w.(clock := w.clock.Tick());
    var ip := CiliumIP(env, c.name);
    if !w.clock.Up() || ip.None? || ip.value == "" then (w1, r)
    else
      var (w2, dns) := ReadDns(env, w1, c, host, ip.value);
      RecordCilium(env, w2, ip.value, dns, r)
  }

  function SyncTailscale(env: Env, w: World, c: Cluster, r: Report): (o: (World, Report)) {
    var (clock, device) := ReadTailscale(env, w.clock, c.name);
    var w1 := w.(clock := clock);
    if device.None? || device.value.Address() == "" || device.value.ip == "" then (w1, r)
    else
      var d := device.value;
      var (w2, got) := EnsureAddress(env, EnsurePrefix(w1, d.ip), d.ip, r.groupPk, d.fqdn);
      match got
      case Failed => (w2, r)
      case Record(_, created) => (w2, r.(tailscale := d.Address(), updated := r.updated || created))
  }

  function SyncService(w: World, c: Cluster, port: int, r: Report): (o: (World, Report)) {
    var (w1, template) := EnsureTemplate(w, port);
    match template
    case Failed => (w1, r.(error := Some(TemplateStage)))
    case Record(_, templateCreated) =>
      var r1 := r.(updated := r.updated || templateCreated);
      var (w2, service) := EnsureService(w1, r.groupPk, c.name, port);
      match service
      case Failed => (w2, r1.(error := Some(ServiceStage)))
      case Record(pk, created) => (w2, r1.(servicePk := pk, updated := r1.updated || created))
  }

  /** The stages after the FHRP group is known. */
  function SyncEndpoint(env: Env, w: World, c: Cluster, e: Endpoint, r: Report): (o: (World, Report)) {
    if c.kind != Managed then SyncService(w, c, e.port, r)
    else
      var (w1, r1) := SyncCilium(env, w, c, e.host, r);
      if r1.error.Some? then (w1, r1)
      else
        var (w2, r2) := SyncTailscale(env, w1, c, r1);
        SyncService(w2, c, e.port, r2)
  }

  datatype Step = Step(w: World, next: Int32, reports: seq<Report>)

  /** The rest of an iteration, once the endpoint is known. */
  function SyncFound(env: Env, w: World, c: Cluster, e: Endpoint, next: Int32): (s: Step)
    ensures |s.reports| == 1
  {
    var r := NewReport(c.name);
    var (w1, group) := EnsureGroup(w, c.name, next);
    match group
    case Failed => Step(w1, next, [r.(error := Some(GroupStage))])
    case Record(pk, created) =>
      var (w2, r2) := SyncEndpoint(env, w1, c, e, r.(groupPk := pk, updated := created));
      Step(w2, if created then Wrap32(next + 1) else next, [r2])
  }

  /** One iteration of the loop: what it leaves, the next group id, and the report it appends. */
  function SyncCluster(env: Env, w: World, c: Cluster, next: Int32): (s: Step)
    ensures |s.reports| == if c.kind == OtherKind then 0 else 1
  {
    if c.kind == OtherKind then Step(w, next, [])
    else
      var (clock, e) := ReadEndpoint(env, w.clock, c);
      match e
      case None => Step(w.(clock := clock), next, [NewReport(c.name).(error := Some(EndpointStage))])
      case Some(endpoint) => SyncFound(env, w.(clock := clock), c, endpoint, next)
  }

  function SyncAll(env: Env, w: World, cs: seq<Cluster>, next: Int32): (s: Step)
    decreases |cs|
  {
    if cs == [] then Step(w, next, [])
    else
      var s1 := SyncCluster(env, w, cs[0], next);
      var s2 := SyncAll(env, s1.w, cs[1..], s1.next);
      Step(s2.w, s2.next, s1.reports + s2.reports)
  }

  // ---------- a whole run ----------

  /** The highest group id; the lowest int32 when there is no group. */
  function MaxGroupId(groups: seq<Group>): (m: Int32)
    ensures forall g | g in groups :: g.groupId <= m
    ensures groups != [] ==> exists g | g in groups :: g.groupId == m
  {
    if groups == [] then INT32_MIN
    else if |groups| == 1 then groups[0].groupId
    else
      var m := MaxGroupId(groups[1..]);
      if groups[0].groupId > m then groups[0].groupId else m
  }

  function NextGroupId(groups: seq<Group>): (n: Int32) {
    if groups == [] then 1 else Wrap32(MaxGroupId(groups) + 1)
  }

  predicate NameSelected(names: seq<string>, name: string) {
    names == [] || names[0] == "" || name in names
  }

  /** The clusters NetBox lists for the type and name filters of a run. */
  function Selected(clusters: seq<Cluster>, names: seq<string>): (r: seq<Cluster>)
    ensures forall c :: c in r <==> c in clusters && c.kind != OtherKind && NameSelected(names, c.name)
  {
    if clusters == [] then []
    else
      var rest := Selected(clusters[1..], names);
      assert clusters == [clusters[0]] + clusters[1..];
      if clusters[0].kind != OtherKind && NameSelected(names, clusters[0].name) then [clusters[0]] + rest else rest
  }

  datatype Outcome = RunFailed | Reports(reports: seq<Report>)

  /** cluster.SyncStatus */
  function SyncStatus(env: Env, w: World, names: seq<string>): (r: (World, Outcome)) {
    var w1 := w.(clock := w.clock.Tick());
    if !w.clock.Up() then (w1, RunFailed)
    else if Selected(env.clusters, names) == [] then (w1, Reports([]))
    else
      var w2 := w1.(clock := w1.clock.Tick());
      if !w1.clock.Up() then (w2, RunFailed)
      else
        var s := SyncAll(env, w2, Selected(env.clusters, names), NextGroupId(w.store.groups));
        (s.w, Reports(s.reports))
  }
}
