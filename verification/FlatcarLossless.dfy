/** Nothing is lost between a device's network settings and the text of its Flatcar files. */
module FlatcarLossless {
  import opened Basics
  import opened Text
  import opened Networkd
  import opened NetworkData
  import opened Flatcar

  predicate Plain(s: string) { '\n' !in s }

  predicate AllPlain(vs: seq<string>) { vs == [] || (Plain(vs[0]) && AllPlain(vs[1..])) }

  predicate PlainLink(l: Link) {
    && Plain(l.name) && Plain(l.mac) && Plain(l.gateway)
    && AllPlain(l.addresses) && AllPlain(l.dns) && AllPlain(l.domains)
  }

  predicate PlainEntry(e: Entry) {
    && Plain(e.vlan.name) && Plain(e.addr.text)
    && AllPlain(e.prefix.gateways) && AllPlain(e.prefix.dns)
    && (e.prefix.domains.Some? ==> Plain(e.prefix.domains.value))
  }

  // ---------- what a group of lines holds under a key ----------

  lemma PickTwo(a: Line, b: Line, f: Field)
    ensures Pick([a], f) == One(a, f) && OneLines([a]) == OneLine(a)
    ensures Pick([a, b], f) == Merge(One(a, f), One(b, f)) && OneLines([a, b]) == (OneLine(a) && OneLine(b))
  {
    PickCons(a, [], f);
    PickCons(b, [], f);
    PickCons(a, [b], f);
    assert [a] + [] == [a] && [b] + [] == [b] && [a] + [b] == [a, b];
  }

  lemma PickThree(a: Line, b: Line, c: Line, f: Field)
    ensures Pick([a, b, c], f) == Merge(One(a, f), Merge(One(b, f), One(c, f)))
    ensures OneLines([a, b, c]) == (OneLine(a) && OneLine(b) && OneLine(c))
  {
    PickTwo(b, c, f);
    PickCons(a, [b, c], f);
    assert [a] + [b, c] == [a, b, c];
  }

  lemma PickFour(a: Line, b: Line, c: Line, d: Line, f: Field)
    ensures Pick([a, b, c, d], f) == Merge(One(a, f), Merge(One(b, f), Merge(One(c, f), One(d, f))))
    ensures OneLines([a, b, c, d]) == (OneLine(a) && OneLine(b) && OneLine(c) && OneLine(d))
  {
    PickThree(b, c, d, f);
    PickCons(a, [b, c, d], f);
    assert [a] + [b, c, d] == [a, b, c, d];
  }

  lemma PickFive(a: Line, b: Line, c: Line, d: Line, e: Line, f: Field)
    ensures Pick([a, b, c, d, e], f) == Merge(One(a, f), Merge(One(b, f), Merge(One(c, f), Merge(One(d, f), One(e, f)))))
    ensures OneLines([a, b, c, d, e]) == (OneLine(a) && OneLine(b) && OneLine(c) && OneLine(d) && OneLine(e))
  {
    PickFour(b, c, d, e, f);
    PickCons(a, [b, c, d, e], f);
    assert [a] + [b, c, d, e] == [a, b, c, d, e];
  }

  lemma HeadAndTail(vs: seq<string>)
    requires vs != []
    ensures Merge([vs[0]], vs[1..]) == vs
  {
  }

  lemma {:induction false} PickEach(g: Field, vs: seq<string>, f: Field)
    ensures Pick(Each(g, vs), f) == if f == g then vs else []
    ensures AllPlain(vs) ==> OneLines(Each(g, vs))
  {
    if vs != [] {
      PickEach(g, vs[1..], f);
      PickCons(Setting(g, vs[0]), Each(g, vs[1..]), f);
      HeadAndTail(vs);
    }
  }

  lemma {:induction false} PickSpaced(g: Field, vs: seq<string>, f: Field)
    ensures Pick(Spaced(g, vs), f) == if f == g then vs else []
    ensures AllPlain(vs) ==> OneLines(Spaced(g, vs))
  {
    if vs != [] {
      PickSpaced(g, vs[1..], f);
      PickTwo(Blank, Setting(g, vs[0]), f);
      PickConcat([Blank, Setting(g, vs[0])], Spaced(g, vs[1..]), f);
      HeadAndTail(vs);
    }
  }

  lemma {:induction false} PlainJoin(parts: seq<string>)
    requires AllPlain(parts)
    ensures Plain(Join(parts, " "))
  {
    if |parts| > 1 {
      PlainJoin(parts[1..]);
    }
  }

  lemma {:induction false} PlainHead(s: string)
    requires Plain(s)
    ensures Plain(Split(s, '/')[0])
  {
    if s != "" {
      PlainHead(s[1..]);
    }
  }

  lemma {:induction false} PlainMasks(addrs: seq<string>)
    requires AllPlain(addrs)
    ensures AllPlain(StripMasks(addrs))
  {
    if addrs != [] {
      PlainHead(addrs[0]);
      PlainMasks(addrs[1..]);
    }
  }

  // ---------- the physical .network file ----------

  /** The lines of the group that carry the key hold what is expected of it. */
  ghost predicate Holds(ls: seq<Line>, f: Field, vs: seq<string>) { OneLines(ls) && Pick(ls, f) == vs }

  lemma HoldsFour(a: seq<Line>, b: seq<Line>, c: seq<Line>, d: seq<Line>, f: Field,
                  va: seq<string>, vb: seq<string>, vc: seq<string>, vd: seq<string>)
    requires Holds(a, f, va) && Holds(b, f, vb) && Holds(c, f, vc) && Holds(d, f, vd)
    ensures Holds(a + b + c + d, f, Merge(Merge(Merge(va, vb), vc), vd))
  {
    PickConcat(a, b, f);
    PickConcat(a + b, c, f);
    PickConcat(a + b + c, d, f);
  }

  function If(c: bool, vs: seq<string>): (r: seq<string>) { if c then vs else [] }

  lemma EachHolds(g: Field, vs: seq<string>, f: Field)
    requires AllPlain(vs)
    ensures Holds(Each(g, vs), f, If(f == g, vs)) && Holds(Spaced(g, vs), f, If(f == g, vs))
  {
    PickEach(g, vs, f);
    PickSpaced(g, vs, f);
  }

  function StaticEndValues(l: Link, f: Field): (vs: seq<string>) {
    if f == DomainsF && l.domains != [] then [Join(l.domains, " ")]
    else if f == DnsDefaultRouteF then (if l.domains == [] then [YES] else [NO])
    else []
  }

  lemma DomainLinesHold(domains: string, f: Field)
    requires Plain(domains)
    ensures Holds(DomainLines(domains), f, if f == DomainsF then [domains] else If(f == DnsDefaultRouteF, [NO]))
  {
    PickThree(Blank, Setting(DomainsF, domains), Setting(DnsDefaultRouteF, NO), f);
  }

  lemma StaticEndHolds(l: Link, f: Field)
    requires PlainLink(l)
    ensures Holds(StaticEnd(l), f, StaticEndValues(l, f))
  {
    PlainJoin(l.domains);
    PickTwo(Blank, Setting(DnsDefaultRouteF, YES), f);
    DomainLinesHold(Join(l.domains, " "), f);
  }

  lemma StaticStartHolds(f: Field)
    ensures Holds(StaticStart(), f, If(f == DhcpF, [NO]))
  {
  }

  /** What the static part of the file should hold under a key. */
  function StaticValues(l: Link, f: Field): (vs: seq<string>) {
    match f
    case DhcpF => [NO]
    case AddressF => l.addresses
    case GatewayF => Present(l.gateway)
    case DnsF => l.dns
    case _ => StaticEndValues(l, f)
  }

  lemma HoldsFive(a: seq<Line>, b: seq<Line>, c: seq<Line>, d: seq<Line>, e: seq<Line>, f: Field,
                  va: seq<string>, vb: seq<string>, vc: seq<string>, vd: seq<string>, ve: seq<string>)
    requires Holds(a, f, va) && Holds(b, f, vb) && Holds(c, f, vc) && Holds(d, f, vd) && Holds(e, f, ve)
    ensures Holds(a + b + c + d + e, f, Merge(Merge(Merge(Merge(va, vb), vc), vd), ve))
  {
    HoldsFour(a, b, c, d, f, va, vb, vc, vd);
    PickConcat(a + b + c + d, e, f);
  }

  function StaticGroups(l: Link, f: Field): seq<string> {
    Merge(Merge(Merge(Merge(If(f == DhcpF, [NO]), If(f == AddressF, l.addresses)), If(f == GatewayF, Present(l.gateway))),
                If(f == DnsF, l.dns)), StaticEndValues(l, f))
  }

  lemma StaticGroupsHold(l: Link, f: Field)
    requires PlainLink(l)
    ensures Holds(StaticLines(l), f, StaticGroups(l, f))
  {
    StaticStartHolds(f);
    EachHolds(AddressF, l.addresses, f);
    EachHolds(GatewayF, Present(l.gateway), f);
    EachHolds(DnsF, l.dns, f);
    StaticEndHolds(l, f);
    HoldsFive(StaticStart(), Spaced(AddressF, l.addresses), Each(GatewayF, Present(l.gateway)), Each(DnsF, l.dns), StaticEnd(l), f,
              If(f == DhcpF, [NO]), If(f == AddressF, l.addresses), If(f == GatewayF, Present(l.gateway)), If(f == DnsF, l.dns),
              StaticEndValues(l, f));
  }

  lemma StaticGroupsAre(l: Link, f: Field)
    ensures StaticGroups(l, f) == StaticValues(l, f)
  {
  }

  lemma StaticHolds(l: Link, f: Field)
    requires PlainLink(l)
    ensures Holds(StaticLines(l), f, StaticValues(l, f))
  {
    StaticGroupsHold(l, f);
    StaticGroupsAre(l, f);
  }

  function LinkModeValues(l: Link, f: Field): (vs: seq<string>) {
    if l.dhcp == YES then If(f == DhcpF, [YES]) else StaticValues(l, f)
  }

  /** What the file should hold under a key: DHCP mode has no static settings. */
  function LinkValues(l: Link, vlans: seq<string>, f: Field): (vs: seq<string>) {
    match f
    case NameF => [l.name]
    case MacAddressF => Present(l.mac)
    case LldpF => [YES]
    case EmitLldpF => [YES]
    case VlanF => vlans
    case _ => LinkModeValues(l, f)
  }

  lemma LinkModeHolds(l: Link, f: Field)
    requires PlainLink(l)
    ensures Holds(LinkMode(l), f, LinkModeValues(l, f))
  {
    PickTwo(Setting(DhcpF, YES), Blank, f);
    StaticHolds(l, f);
  }

  lemma LinkStartHolds(l: Link, f: Field)
    requires PlainLink(l)
    ensures Holds(LinkStart(l), f, If(f == NameF, [l.name]))
  {
    PickTwo(Header(MatchT), Setting(NameF, l.name), f);
  }

  lemma LinkNetworkHolds(f: Field)
    ensures Holds(LinkNetwork(), f, If(f == LldpF || f == EmitLldpF, [YES]))
  {
    PickFour(Blank, Header(NetworkT), Setting(LldpF, YES), Setting(EmitLldpF, YES), f);
  }

  function LinkGroups(l: Link, vlans: seq<string>, f: Field): seq<string> {
    Merge(Merge(Merge(Merge(If(f == NameF, [l.name]), If(f == MacAddressF, Present(l.mac))), If(f == LldpF || f == EmitLldpF, [YES])),
                LinkModeValues(l, f)), If(f == VlanF, vlans))
  }

  lemma LinkGroupsHold(l: Link, vlans: seq<string>, f: Field)
    requires PlainLink(l) && AllPlain(vlans)
    ensures Holds(LinkLines(l, vlans), f, LinkGroups(l, vlans, f))
  {
    LinkStartHolds(l, f);
    LinkNetworkHolds(f);
    EachHolds(MacAddressF, Present(l.mac), f);
    LinkModeHolds(l, f);
    EachHolds(VlanF, vlans, f);
    HoldsFive(LinkStart(l), Each(MacAddressF, Present(l.mac)), LinkNetwork(), LinkMode(l), Each(VlanF, vlans), f,
              If(f == NameF, [l.name]), If(f == MacAddressF, Present(l.mac)), If(f == LldpF || f == EmitLldpF, [YES]),
              LinkModeValues(l, f), If(f == VlanF, vlans));
  }

  lemma LinkGroupsAre(l: Link, vlans: seq<string>, f: Field)
    ensures LinkGroups(l, vlans, f) == LinkValues(l, vlans, f)
  {
  }

  lemma LinkHolds(l: Link, vlans: seq<string>, f: Field)
    requires PlainLink(l) && AllPlain(vlans)
    ensures Holds(LinkLines(l, vlans), f, LinkValues(l, vlans, f))
  {
    LinkGroupsHold(l, vlans, f);
    LinkGroupsAre(l, vlans, f);
  }

  /** Every key of the generated file reads back as the setting it was written from. */
  lemma LinkTextHolds(l: Link, vlans: seq<string>, f: Field)
    requires PlainLink(l) && AllPlain(vlans)
    ensures Lookup(LinkFile(l, vlans).content, f) == LinkValues(l, vlans, f)
  {
    LinkHolds(l, vlans, f);
    LookupRender(LinkLines(l, vlans), f);
  }

  function Head(vs: seq<string>): string { if vs == [] then "" else vs[0] }

  /** A reader of the file that knows nothing of how it was written. */
  function ReadLink(text: string): (r: (Link, seq<string>)) {
    (Link(Head(Lookup(text, NameF)), Head(Lookup(text, MacAddressF)), Head(Lookup(text, DhcpF)),
          Lookup(text, AddressF), Head(Lookup(text, GatewayF)), Lookup(text, DnsF), Lookup(text, DomainsF)),
     Lookup(text, VlanF))
  }

  /** No newline in the fields of a device that end up in its physical .network file. */
  predicate PlainPhysical(p: Physical) {
    && Plain(p.iface.name) && Plain(p.addr.text)
    && (p.iface.mac.Some? ==> Plain(p.iface.mac.value))
    && AllPlain(p.prefix.gateways) && AllPlain(p.prefix.dns)
    && (p.prefix.domains.Some? ==> Plain(p.prefix.domains.value))
  }

  /** In DHCP mode there are no static settings, and there is at most one list of domains. */
  predicate Normal(l: Link) {
    && (l.dhcp == YES || l.dhcp == NO)
    && (l.dhcp == YES ==> l == NO_LINK.(name := l.name, mac := l.mac, dhcp := YES))
    && |l.domains| <= 1
  }

  lemma {:induction false} PlainLast(vs: seq<string>)
    requires vs != [] && AllPlain(vs)
    ensures Plain(vs[|vs| - 1])
  {
    if |vs| > 1 {
      PlainLast(vs[1..]);
    }
  }

  lemma LinkOfNormal(p: Physical)
    requires PlainPhysical(p)
    ensures PlainLink(LinkOf(p)) && Normal(LinkOf(p))
  {
    PlainMasks(p.prefix.dns);
    if p.prefix.gateways != [] {
      PlainLast(p.prefix.gateways);
    }
  }

  lemma ReadsNames(l: Link, vlans: seq<string>)
    requires PlainLink(l) && AllPlain(vlans)
    ensures var text := LinkFile(l, vlans).content;
            Head(Lookup(text, NameF)) == l.name && Head(Lookup(text, MacAddressF)) == l.mac && Lookup(text, VlanF) == vlans
  {
    LinkTextHolds(l, vlans, NameF);
    LinkTextHolds(l, vlans, MacAddressF);
    LinkTextHolds(l, vlans, VlanF);
  }

  lemma ReadsNetwork(l: Link, vlans: seq<string>)
    requires PlainLink(l) && AllPlain(vlans) && Normal(l)
    ensures var text := LinkFile(l, vlans).content;
            && Head(Lookup(text, DhcpF)) == l.dhcp && Lookup(text, AddressF) == l.addresses
            && Head(Lookup(text, GatewayF)) == l.gateway && Lookup(text, DnsF) == l.dns
  {
    LinkTextHolds(l, vlans, DhcpF);
    LinkTextHolds(l, vlans, AddressF);
    LinkTextHolds(l, vlans, GatewayF);
    LinkTextHolds(l, vlans, DnsF);
  }

  lemma ReadsDomains(l: Link, vlans: seq<string>)
    requires PlainLink(l) && AllPlain(vlans) && Normal(l)
    ensures Lookup(LinkFile(l, vlans).content, DomainsF) == l.domains
  {
    LinkTextHolds(l, vlans, DomainsF);
    if l.domains != [] {
      assert l.domains == [l.domains[0]];
    }
  }

  lemma ReadsBack(l: Link, vlans: seq<string>)
    requires PlainLink(l) && AllPlain(vlans) && Normal(l)
    ensures ReadLink(LinkFile(l, vlans).content) == (l, vlans)
  {
    ReadsNames(l, vlans);
    ReadsNetwork(l, vlans);
    ReadsDomains(l, vlans);
  }

  /** The whole physical interface and its VLAN names can be read back from the text. */
  lemma LinkRoundTrip(p: Physical, vlans: seq<string>)
    requires PlainPhysical(p) && AllPlain(vlans)
    ensures ReadLink(LinkFile(LinkOf(p), vlans).content) == (LinkOf(p), vlans)
  {
    LinkOfNormal(p);
    ReadsBack(LinkOf(p), vlans);
  }

  // ---------- the VLAN .network file ----------

  function VlanValues(e: Entry, f: Field): (vs: seq<string>) {
    var domains := if e.prefix.dns != [] && e.prefix.domains.Some? then [e.prefix.domains.value] else [];
    match f
    case NameF => [e.vlan.name]
    case DhcpF => [NO]
    case AddressF => [e.addr.text]
    case GatewayF => StripMasks(e.prefix.gateways)
    case DnsF => StripMasks(e.prefix.dns)
    case DomainsF => domains
    case DnsDefaultRouteF => if e.prefix.dns == [] then [] else if domains == [] then [YES] else [NO]
    case _ => []
  }

  function VlanStartValues(e: Entry, f: Field): (vs: seq<string>) {
    match f
    case NameF => [e.vlan.name]
    case DhcpF => [NO]
    case AddressF => [e.addr.text]
    case _ => []
  }

  lemma VlanStartHolds(e: Entry, f: Field)
    requires PlainEntry(e)
    ensures Holds(VlanStart(e), f, VlanStartValues(e, f))
  {
    PickFive(Header(MatchT), Setting(NameF, e.vlan.name), Header(NetworkT), Setting(DhcpF, NO), Setting(AddressF, e.addr.text), f);
  }

  function VlanEndValues(e: Entry, f: Field): (vs: seq<string>) {
    if e.prefix.dns == [] then []
    else if f == DomainsF && e.prefix.domains.Some? then [e.prefix.domains.value]
    else If(f == DnsDefaultRouteF, [if e.prefix.domains.Some? then NO else YES])
  }

  lemma VlanEndHolds(e: Entry, f: Field)
    requires PlainEntry(e)
    ensures Holds(VlanEnd(e), f, VlanEndValues(e, f))
  {
    if e.prefix.dns == [] {
    } else if e.prefix.domains.Some? {
      DomainLinesHold(e.prefix.domains.value, f);
    } else {
      PickTwo(Setting(DnsDefaultRouteF, YES), Blank, f);
    }
  }

  function VlanGroups(e: Entry, f: Field): seq<string> {
    Merge(Merge(Merge(VlanStartValues(e, f), If(f == GatewayF, StripMasks(e.prefix.gateways))), If(f == DnsF, StripMasks(e.prefix.dns))),
          VlanEndValues(e, f))
  }

  lemma VlanGroupsHold(e: Entry, f: Field)
    requires PlainEntry(e)
    ensures Holds(VlanLines(e), f, VlanGroups(e, f))
  {
    var gateways, dns := StripMasks(e.prefix.gateways), StripMasks(e.prefix.dns);
    PlainMasks(e.prefix.gateways);
    PlainMasks(e.prefix.dns);
    VlanStartHolds(e, f);
    EachHolds(GatewayF, gateways, f);
    EachHolds(DnsF, dns, f);
    VlanEndHolds(e, f);
    HoldsFour(VlanStart(e), Spaced(GatewayF, gateways), Spaced(DnsF, dns), VlanEnd(e), f,
              VlanStartValues(e, f), If(f == GatewayF, gateways), If(f == DnsF, dns), VlanEndValues(e, f));
  }

  lemma VlanGroupsAre(e: Entry, f: Field)
    ensures VlanGroups(e, f) == VlanValues(e, f)
  {
  }

  /** Every key of a VLAN's .network file reads back as the setting it was written from. */
  lemma VlanTextHolds(e: Entry, f: Field)
    requires PlainEntry(e)
    ensures Lookup(VlanFile(e).content, f) == VlanValues(e, f)
  {
    VlanGroupsHold(e, f);
    VlanGroupsAre(e, f);
    LookupRender(VlanLines(e), f);
  }

  // ---------- the .netdev file ----------

  lemma ItoaPlain(n: int)
    ensures Plain(Itoa(n))
  {
    assert IsDigits(NatDigits(if n < 0 then -n else n));
  }

  function NetdevValues(name: string, kind: string, id: string, f: Field): seq<string> {
    match f
    case NameF => [name]
    case KindF => [kind]
    case IdF => [id]
    case _ => []
  }

  lemma NetdevHolds(name: string, kind: string, id: string, f: Field)
    requires Plain(name) && Plain(kind) && Plain(id)
    ensures Holds([Header(NetDevT), Setting(NameF, name), Setting(KindF, kind), Header(VlanT), Setting(IdF, id)], f,
                  NetdevValues(name, kind, id, f))
  {
    PickFive(Header(NetDevT), Setting(NameF, name), Setting(KindF, kind), Header(VlanT), Setting(IdF, id), f);
  }

  lemma NetdevLookup(v: Vlan, f: Field)
    requires Plain(v.name) && IsInt32(v.vid)
    ensures Lookup(NetdevFile(v).content, f) == NetdevValues(v.name, KIND, Itoa(v.vid), f)
  {
    ItoaPlain(v.vid);
    NetdevHolds(v.name, KIND, Itoa(v.vid), f);
    LookupRender(NetdevLines(v), f);
  }

  /** The VLAN id of a .netdev file, parsed as a 32-bit integer. */
  function ReadId(text: string): (r: Option<Int32>) {
    var vs := Lookup(text, IdF);
    if |vs| == 1 then ParseInt32(vs[0]) else None
  }

  lemma ReadsId(v: Vlan)
    requires Plain(v.name) && IsInt32(v.vid)
    ensures ReadId(NetdevFile(v).content) == Some(v.vid)
  {
    NetdevLookup(v, IdF);
    IdRoundTrip(v.vid);
  }

  /** The name, kind and id of a VLAN device read back; the id is parsed as the 32-bit integer it was. */
  lemma NetdevTextHolds(v: Vlan)
    requires Plain(v.name) && IsInt32(v.vid)
    ensures var text := NetdevFile(v).content;
            Lookup(text, NameF) == [v.name] && Lookup(text, KindF) == [KIND] && ReadId(text) == Some(v.vid)
  {
    NetdevLookup(v, NameF);
    NetdevLookup(v, KindF);
    ReadsId(v);
  }

  // ---------- the set of files ----------

  ghost predicate PlainEntries(es: seq<Entry>) { forall e | e in es :: PlainEntry(e) && IsInt32(e.vlan.vid) }

  /** No newline in any field of the device that its files hold. */
  ghost predicate PlainDevice(ifaces: seq<Iface>) {
    && PlainEntries(Entries(ifaces))
    && (LastPhysical(ifaces).Some? ==> PlainPhysical(LastPhysical(ifaces).value))
  }

  /** The VLAN named `name` has its own .network file in `network` and its own device in `netdev`. */
  predicate Defines(network: File, netdev: File, name: string, vid: int) {
    && network.path == NetworkPath(name) && Lookup(network.content, NameF) == [name]
    && netdev.path == NetdevPath(name) && Lookup(netdev.content, NameF) == [name]
    && Lookup(netdev.content, KindF) == [KIND] && ReadId(netdev.content) == Some(vid)
  }

  lemma FileAt(es: seq<Entry>, l: Link, dcim: string, hostname: string, i: nat)
    requires i < |es|
    ensures var fs := FileSet(es, l, dcim, hostname);
            |fs| == 2 * |es| + 3 && fs[i] == VlanFile(es[i]) && fs[|es| + i] == NetdevFile(es[i].vlan)
  {
  }

  lemma LastFiles(es: seq<Entry>, l: Link, dcim: string, hostname: string)
    ensures var fs, n := FileSet(es, l, dcim, hostname), |es|;
            && |fs| == 2 * n + 3 && fs[2 * n] == LinkFile(l, Names(es))
            && fs[2 * n + 1] == File(DCIM_PATH, dcim) && fs[2 * n + 2] == File(HOSTNAME_PATH, hostname)
  {
  }

  lemma {:induction false} PlainNames(es: seq<Entry>)
    requires forall e | e in es :: Plain(e.vlan.name)
    ensures AllPlain(Names(es))
  {
    if es != [] {
      PlainNames(es[1..]);
    }
  }

  lemma EntryDefined(e: Entry)
    requires PlainEntry(e) && IsInt32(e.vlan.vid)
    ensures Defines(VlanFile(e), NetdevFile(e.vlan), e.vlan.name, e.vlan.vid)
  {
    VlanTextHolds(e, NameF);
    NetdevTextHolds(e.vlan);
  }

  lemma PhysicalLinkPlain(ifaces: seq<Iface>)
    requires PlainDevice(ifaces)
    ensures PlainLink(PhysicalLink(ifaces))
  {
    if LastPhysical(ifaces).Some? {
      LinkOfNormal(LastPhysical(ifaces).value);
    }
  }

  lemma VlansRead(l: Link, es: seq<Entry>)
    requires PlainLink(l) && AllPlain(Names(es))
    ensures Lookup(LinkFile(l, Names(es)).content, VlanF) == Names(es)
  {
    LinkTextHolds(l, Names(es), VlanF);
  }

  lemma EntryNamesPlain(ifaces: seq<Iface>)
    requires PlainDevice(ifaces)
    ensures AllPlain(Names(Entries(ifaces)))
  {
    PlainNames(Entries(ifaces));
  }

  lemma VlanNamesRead(ifaces: seq<Iface>)
    requires PlainDevice(ifaces)
    ensures Lookup(LinkFile(PhysicalLink(ifaces), Names(Entries(ifaces))).content, VlanF) == Names(Entries(ifaces))
  {
    PhysicalLinkPlain(ifaces);
    EntryNamesPlain(ifaces);
    VlansRead(PhysicalLink(ifaces), Entries(ifaces));
  }

  /** Every VLAN= line of the physical file has its two files, in the order of the lines, and there are no others. */
  lemma FileSetClosed(ifaces: seq<Iface>, dcim: string, hostname: string)
    requires PlainDevice(ifaces)
    ensures var fs, es := Files(ifaces, dcim, hostname), Entries(ifaces);
            var n := |es|;
            && |fs| == 2 * n + 3
            && var vlans := Lookup(fs[2 * n].content, VlanF);
               |vlans| == n && forall i | 0 <= i < n :: Defines(fs[i], fs[n + i], vlans[i], es[i].vlan.vid)
  {
    var fs, es := Files(ifaces, dcim, hostname), Entries(ifaces);
    var n := |es|;
    LastFiles(es, PhysicalLink(ifaces), dcim, hostname);
    VlanNamesRead(ifaces);
    forall i | 0 <= i < n ensures Defines(fs[i], fs[n + i], Names(es)[i], es[i].vlan.vid) {
      FileAt(es, PhysicalLink(ifaces), dcim, hostname, i);
      EntryDefined(es[i]);
    }
  }

  // ---------- the paths ----------

  lemma PathsApart(a: string, b: string)
    ensures NetworkPath(a) == NetworkPath(b) <==> a == b
    ensures NetdevPath(a) == NetdevPath(b) <==> a == b
    ensures NetworkPath(a) != NetdevPath(b)
    ensures NetworkPath(a) !in {DCIM_PATH, HOSTNAME_PATH} && NetdevPath(a) !in {DCIM_PATH, HOSTNAME_PATH}
  {
    var p, q := NetworkPath(a), NetworkPath(b);
    var s, t := NetdevPath(a), NetdevPath(b);
    assert p[24..|p| - 8] == a && q[24..|q| - 8] == b;
    assert s[24..|s| - 7] == a && t[24..|t| - 7] == b;
    assert p[22] == '1' && t[22] == '0';
    assert p[5] == 's' && s[5] == 's' && DCIM_PATH[5] == 'd' && HOSTNAME_PATH[5] == 'h';
  }

  predicate Distinct(xs: seq<string>) { forall i, j | 0 <= i < j < |xs| :: xs[i] != xs[j] }

  predicate DistinctPaths(fs: seq<File>) { forall i, j | 0 <= i < j < |fs| :: fs[i].path != fs[j].path }

  /** The paths of the files, in order, for these VLAN names and this interface name. */
  ghost predicate PathsAre(fs: seq<File>, names: seq<string>, link: string) {
    && |fs| == 2 * |names| + 3
    && (forall i | 0 <= i < |names| :: fs[i].path == NetworkPath(names[i]) && fs[|names| + i].path == NetdevPath(names[i]))
    && fs[2 * |names|].path == NetworkPath(link) && fs[2 * |names| + 1].path == DCIM_PATH && fs[2 * |names| + 2].path == HOSTNAME_PATH
  }

  lemma FilesPaths(es: seq<Entry>, l: Link, dcim: string, hostname: string)
    ensures PathsAre(FileSet(es, l, dcim, hostname), Names(es), l.name)
  {
    var fs, n := FileSet(es, l, dcim, hostname), |es|;
    LastFiles(es, l, dcim, hostname);
    forall i | 0 <= i < n
      ensures fs[i].path == NetworkPath(Names(es)[i]) && fs[n + i].path == NetdevPath(Names(es)[i])
    {
      FileAt(es, l, dcim, hostname, i);
    }
  }

  lemma DistinctNeeds(fs: seq<File>, names: seq<string>, link: string)
    requires PathsAre(fs, names, link) && DistinctPaths(fs)
    ensures Distinct(names) && link !in names
  {
  }

  lemma PathsDiffer(fs: seq<File>, names: seq<string>, link: string, i: nat, j: nat)
    requires PathsAre(fs, names, link) && Distinct(names) && link !in names
    requires i < j < |fs|
    ensures fs[i].path != fs[j].path
  {
    var n := |names|;
    var a := if i < n then names[i] else if i < 2 * n then names[i - n] else link;
    var b := if j < n then names[j] else if j < 2 * n then names[j - n] else link;
    PathsApart(a, b);
    PathsApart(b, a);
    if i < n {
      assert fs[i].path == NetworkPath(a);
    } else if i < 2 * n {
      assert fs[n + (i - n)].path == NetdevPath(a);
    }
    if j < n {
      assert fs[j].path == NetworkPath(b);
    } else if j < 2 * n {
      assert fs[n + (j - n)].path == NetdevPath(b);
    }
  }

  /** No file overwrites another exactly when the VLAN names differ from each other and from the interface. */
  lemma PathsDistinctIff(ifaces: seq<Iface>, dcim: string, hostname: string)
    ensures DistinctPaths(Files(ifaces, dcim, hostname))
            <==> Distinct(Names(Entries(ifaces))) && PhysicalLink(ifaces).name !in Names(Entries(ifaces))
  {
    var fs, names, link := Files(ifaces, dcim, hostname), Names(Entries(ifaces)), PhysicalLink(ifaces).name;
    FilesPaths(Entries(ifaces), PhysicalLink(ifaces), dcim, hostname);
    if DistinctPaths(fs) {
      DistinctNeeds(fs, names, link);
    }
    if Distinct(names) && link !in names {
      forall i, j | 0 <= i < j < |fs| ensures fs[i].path != fs[j].path {
        PathsDiffer(fs, names, link, i, j);
      }
    }
  }

  /** A VLAN named like the interface that carries it, on an interface with an address of its own. */
  const CLASH := Iface("eth0", None, [], [10], Some([
    Addr("10.0.0.1/24", [], Found([Prefix(Some(Vlan(10, "eth0")), [], [], None)])),
    Addr("192.0.2.1/24", [], Found([Prefix(None, [], [], None)]))
  ]))

  lemma ClashNames()
    ensures Names(Entries([CLASH])) == ["eth0"] && PhysicalLink([CLASH]).name == "eth0"
  {
    var addrs := CLASH.addrs.value;
    assert addrs == [addrs[0], addrs[1]] && addrs[1..] == [addrs[1]] && [addrs[1]][1..] == [] && [CLASH][1..] == [];
    assert EntryFor(CLASH, addrs[0]) == [Entry(Vlan(10, "eth0"), addrs[0], addrs[0].query.prefixes[0])];
    assert EntriesOf(CLASH, [addrs[1]]) == [];
    assert EntriesOf(CLASH, addrs) == EntryFor(CLASH, addrs[0]);
    var p := Physical(CLASH, addrs[1], addrs[1].query.prefixes[0]);
    assert PhysicalOf(CLASH, []) == None;
    assert PhysicalOf(CLASH, [addrs[1]]) == Some(p);
    assert PhysicalOf(CLASH, addrs) == Some(p);
    assert LastPhysical([CLASH]) == Some(p);
    assert LinkOf(p).name == CLASH.name;
  }

  /** Two of its files have the same path. */
  lemma ClashExample(dcim: string, hostname: string)
    ensures !DistinctPaths(Files([CLASH], dcim, hostname))
  {
    ClashNames();
    PathsDistinctIff([CLASH], dcim, hostname);
    assert Names(Entries([CLASH]))[0] == "eth0";
  }
}
