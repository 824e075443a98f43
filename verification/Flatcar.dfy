/** The Flatcar compiler: a device's network data as a set of systemd-networkd files. */
module Flatcar {
  import opened Basics
  import opened Text
  import opened Networkd
  import opened NetworkData

  /** An address on a tagged VLAN of its interface. */
  datatype Entry = Entry(vlan: Vlan, addr: Addr, prefix: Prefix)

  /** An address on the interface itself. */
  datatype Physical = Physical(iface: Iface, addr: Addr, prefix: Prefix)

  predicate OnVlan(f: Iface, p: Prefix) { p.vlan.Some? && p.vlan.value.vid in f.tagged }

  /** The VLAN entry of one address, if its prefix is on a tagged VLAN of the interface. */
  function EntryFor(f: Iface, a: Addr): (r: seq<Entry>) {
    var p := Covering(a);
    if p.Some? && OnVlan(f, p.value) then [Entry(p.value.vlan.value, a, p.value)] else []
  }

  function PhysicalFor(f: Iface, a: Addr): (r: Option<Physical>) {
    var p := Covering(a);
    if p.Some? && !OnVlan(f, p.value) then Some(Physical(f, a, p.value)) else None
  }

  function EntriesOf(f: Iface, addrs: seq<Addr>): (r: seq<Entry>) {
    if addrs == [] then [] else EntryFor(f, addrs[0]) + EntriesOf(f, addrs[1..])
  }

  function Entries(ifaces: seq<Iface>): (r: seq<Entry>) {
    if ifaces == [] then [] else EntriesOf(ifaces[0], AddrsOf(ifaces[0])) + Entries(ifaces[1..])
  }

  function Later<T>(first: Option<T>, later: Option<T>): Option<T> { if later.Some? then later else first }

  function PhysicalOf(f: Iface, addrs: seq<Addr>): (r: Option<Physical>) {
    if addrs == [] then None else Later(PhysicalFor(f, addrs[0]), PhysicalOf(f, addrs[1..]))
  }

  /** The last address on an interface itself wins. */
  function LastPhysical(ifaces: seq<Iface>): (r: Option<Physical>) {
    if ifaces == [] then None
    else Later(PhysicalOf(ifaces[0], AddrsOf(ifaces[0])), LastPhysical(ifaces[1..]))
  }

  // ---------- the physical interface ----------

  datatype Link = Link(
    name: string, mac: string, dhcp: string,
    addresses: seq<string>, gateway: string, dns: seq<string>, domains: seq<string>
  )

  const YES := "yes"
  const NO := "no"
  const KIND := "vlan"

  const NO_LINK := Link("", "", "", [], "", [], [])

  function StripMask(a: string): string { Split(a, '/')[0] }

  function StripMasks(addrs: seq<string>): (r: seq<string>) {
    if addrs == [] then [] else [StripMask(addrs[0])] + StripMasks(addrs[1..])
  }

  function LinkOf(p: Physical): (l: Link) {
    var mac := if p.iface.mac.Some? then p.iface.mac.value else "";
    if HasDhcpTag(p.addr.tags) then NO_LINK.(name := p.iface.name, mac := mac, dhcp := YES)
    else
      Link(p.iface.name, mac, NO, [p.addr.text],
           if p.prefix.gateways == [] then "" else p.prefix.gateways[|p.prefix.gateways| - 1],
           StripMasks(p.prefix.dns),
           if p.prefix.dns != [] && p.prefix.domains.Some? then [p.prefix.domains.value] else [])
  }

  /** setValuesToNetworkDevice: the loops over gateway and dns addresses. */
  method SetValues(p: Physical) returns (l: Link)
    ensures l == LinkOf(p)
  {
    l := NO_LINK.(name := p.iface.name);
    if p.iface.mac.Some? { l := l.(mac := p.iface.mac.value); }
    var dhcp := FindDhcpTag(p.addr.tags);
    if dhcp {
      l := l.(dhcp := YES);
      return;
    }
    l := l.(dhcp := NO, addresses := l.addresses + [p.addr.text]);
    var g := "";
    for i := 0 to |p.prefix.gateways|
      invariant g == if i == 0 then "" else p.prefix.gateways[i - 1]
    {
      g := p.prefix.gateways[i];
    }
    var dns: seq<string> := [];
    for i := 0 to |p.prefix.dns|
      invariant StripMasks(p.prefix.dns) == dns + StripMasks(p.prefix.dns[i..])
    {
      assert p.prefix.dns[i..][1..] == p.prefix.dns[i + 1..];
      ConcatAssociative(dns, [StripMask(p.prefix.dns[i])], StripMasks(p.prefix.dns[i + 1..]));
      dns := dns + [StripMask(p.prefix.dns[i])];
    }
    l := l.(gateway := g, dns := dns);
    if |p.prefix.dns| > 0 && p.prefix.domains.Some? {
      l := l.(domains := l.domains + [p.prefix.domains.value]);
    }
  }

  // ---------- the lines of each kind of file ----------

  function Each(f: Field, vs: seq<string>): (ls: seq<Line>) {
    if vs == [] then [] else [Setting(f, vs[0])] + Each(f, vs[1..])
  }

  /** The same with an empty line before each setting. */
  function Spaced(f: Field, vs: seq<string>): (ls: seq<Line>) {
    if vs == [] then [] else [Blank, Setting(f, vs[0])] + Spaced(f, vs[1..])
  }

  /** A setting that is left out when empty. */
  function Present(s: string): (vs: seq<string>) { if s == "" then [] else [s] }

  function StaticStart(): seq<Line> { [Blank, Setting(DhcpF, NO)] }

  function DomainLines(domains: string): seq<Line> { [Blank, Setting(DomainsF, domains), Setting(DnsDefaultRouteF, NO)] }

  function StaticEnd(l: Link): seq<Line> {
    if l.domains == [] then [Blank, Setting(DnsDefaultRouteF, YES)]
    else DomainLines(Join(l.domains, " "))
  }

  function StaticLines(l: Link): (ls: seq<Line>) {
    StaticStart() + Spaced(AddressF, l.addresses) + Each(GatewayF, Present(l.gateway)) + Each(DnsF, l.dns) + StaticEnd(l)
  }

  function LinkStart(l: Link): seq<Line> { [Header(MatchT), Setting(NameF, l.name)] }

  function LinkNetwork(): seq<Line> { [Blank, Header(NetworkT), Setting(LldpF, YES), Setting(EmitLldpF, YES)] }

  function LinkMode(l: Link): seq<Line> { if l.dhcp == YES then [Setting(DhcpF, YES)] else StaticLines(l) }

  function LinkLines(l: Link, vlans: seq<string>): (ls: seq<Line>) {
    LinkStart(l) + Each(MacAddressF, Present(l.mac)) + LinkNetwork() + LinkMode(l) + Each(VlanF, vlans)
  }

  function VlanStart(e: Entry): seq<Line> {
    [Header(MatchT), Setting(NameF, e.vlan.name), Header(NetworkT), Setting(DhcpF, NO), Setting(AddressF, e.addr.text)]
  }

  function VlanEnd(e: Entry): seq<Line> {
    if e.prefix.dns == [] then []
    else if e.prefix.domains.Some? then DomainLines(e.prefix.domains.value)
    else [Setting(DnsDefaultRouteF, YES)]
  }

  function VlanLines(e: Entry): (ls: seq<Line>) {
    VlanStart(e) + Spaced(GatewayF, StripMasks(e.prefix.gateways)) + Spaced(DnsF, StripMasks(e.prefix.dns)) + VlanEnd(e)
  }

  function NetdevLines(v: Vlan): (ls: seq<Line>) {
    [Header(NetDevT), Setting(NameF, v.name), Setting(KindF, KIND), Header(VlanT), Setting(IdF, Itoa(v.vid))]
  }

  // ---------- the files ----------

  datatype File = File(path: string, content: string)

  function NetworkPath(name: string): string { "/etc/systemd/network/01-" + name + ".network" }

  function NetdevPath(name: string): string { "/etc/systemd/network/00-" + name + ".netdev" }

  const DCIM_PATH := "/etc/dcim.yaml"
  const HOSTNAME_PATH := "/etc/hostname"

  function VlanFile(e: Entry): File { File(NetworkPath(e.vlan.name), Render(VlanLines(e))) }

  function NetdevFile(v: Vlan): File { File(NetdevPath(v.name), Render(NetdevLines(v))) }

  function LinkFile(l: Link, vlans: seq<string>): File { File(NetworkPath(l.name), Render(LinkLines(l, vlans))) }

  function VlanFiles(es: seq<Entry>): (r: seq<File>)
    ensures |r| == |es| && forall i | 0 <= i < |es| :: r[i] == VlanFile(es[i])
  {
    if es == [] then [] else [VlanFile(es[0])] + VlanFiles(es[1..])
  }

  function NetdevFiles(es: seq<Entry>): (r: seq<File>)
    ensures |r| == |es| && forall i | 0 <= i < |es| :: r[i] == NetdevFile(es[i].vlan)
  {
    if es == [] then [] else [NetdevFile(es[0].vlan)] + NetdevFiles(es[1..])
  }

  function Names(es: seq<Entry>): (r: seq<string>)
    ensures |r| == |es| && forall i | 0 <= i < |es| :: r[i] == es[i].vlan.name
  {
    if es == [] then [] else [es[0].vlan.name] + Names(es[1..])
  }

  function PhysicalLink(ifaces: seq<Iface>): Link {
    match LastPhysical(ifaces)
    case None => NO_LINK
    case Some(p) => LinkOf(p)
  }

  function FileSet(es: seq<Entry>, l: Link, dcim: string, hostname: string): (fs: seq<File>) {
    VlanFiles(es) + NetdevFiles(es) + [LinkFile(l, Names(es)), File(DCIM_PATH, dcim), File(HOSTNAME_PATH, hostname)]
  }

  /** The whole output for a device whose interfaces can all be listed. */
  function Files(ifaces: seq<Iface>, dcim: string, hostname: string): (fs: seq<File>) {
    FileSet(Entries(ifaces), PhysicalLink(ifaces), dcim, hostname)
  }
}
