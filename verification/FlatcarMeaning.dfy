/** What a Flatcar configuration says, read from its text and stated over the data of the device alone. */
module FlatcarMeaning {
  import opened Basics
  import opened Text
  import opened Networkd
  import opened NetworkData
  import opened Flatcar
  import opened FlatcarLossless

  // ---------- which addresses become what ----------

  /** One address: on a carried VLAN of its first prefix, on the interface itself, or in no prefix at all. */
  lemma AddressKinds(f: Iface, a: Addr)
    ensures a.query.QueryFailed? || a.query == Found([]) ==> EntryFor(f, a) == [] && PhysicalFor(f, a) == None
    ensures a.query.Found? && a.query.prefixes != [] ==>
              var p := a.query.prefixes[0];
              if p.vlan.Some? && p.vlan.value.vid in f.tagged
              then EntryFor(f, a) == [Entry(p.vlan.value, a, p)] && PhysicalFor(f, a) == None
              else EntryFor(f, a) == [] && PhysicalFor(f, a) == Some(Physical(f, a, p))
  {
  }

  lemma EntriesOfCons(f: Iface, a: Addr, rest: seq<Addr>)
    ensures EntriesOf(f, [a] + rest) == EntryFor(f, a) + EntriesOf(f, rest)
    ensures PhysicalOf(f, [a] + rest) == Later(PhysicalFor(f, a), PhysicalOf(f, rest))
  {
    assert ([a] + rest)[1..] == rest;
  }

  /** The addresses of an interface are handled in order: the entries follow each other, the last own address wins. */
  lemma {:induction false} AddressesInOrder(f: Iface, x: seq<Addr>, y: seq<Addr>)
    ensures EntriesOf(f, x + y) == EntriesOf(f, x) + EntriesOf(f, y)
    ensures PhysicalOf(f, x + y) == if PhysicalOf(f, y).Some? then PhysicalOf(f, y) else PhysicalOf(f, x)
  {
    if x == [] {
      assert x + y == y;
    } else {
      assert x == [x[0]] + x[1..] && x + y == [x[0]] + (x[1..] + y);
      AddressesInOrder(f, x[1..], y);
      EntriesOfCons(f, x[0], x[1..]);
      EntriesOfCons(f, x[0], x[1..] + y);
      ConcatAssociative(EntryFor(f, x[0]), EntriesOf(f, x[1..]), EntriesOf(f, y));
    }
  }

  lemma EntriesCons(f: Iface, rest: seq<Iface>)
    ensures Entries([f] + rest) == EntriesOf(f, AddrsOf(f)) + Entries(rest)
    ensures LastPhysical([f] + rest) == Later(PhysicalOf(f, AddrsOf(f)), LastPhysical(rest))
  {
    assert ([f] + rest)[1..] == rest;
  }

  /** And so are the interfaces. */
  lemma {:induction false} InterfacesInOrder(x: seq<Iface>, y: seq<Iface>)
    ensures Entries(x + y) == Entries(x) + Entries(y)
    ensures LastPhysical(x + y) == if LastPhysical(y).Some? then LastPhysical(y) else LastPhysical(x)
  {
    if x == [] {
      assert x + y == y;
    } else {
      assert x == [x[0]] + x[1..] && x + y == [x[0]] + (x[1..] + y);
      InterfacesInOrder(x[1..], y);
      EntriesCons(x[0], x[1..]);
      EntriesCons(x[0], x[1..] + y);
      ConcatAssociative(EntriesOf(x[0], AddrsOf(x[0])), Entries(x[1..]), Entries(y));
    }
  }

  /** One interface alone, so that the laws above give the whole. */
  lemma OneInterface(f: Iface)
    ensures Entries([f]) == EntriesOf(f, AddrsOf(f)) && LastPhysical([f]) == PhysicalOf(f, AddrsOf(f))
  {
    EntriesCons(f, []);
    assert [f] + [] == [f];
  }

  // ---------- addresses without their mask ----------

  lemma {:induction false} MasksStripped(addrs: seq<string>)
    ensures |StripMasks(addrs)| == |addrs| && forall i | 0 <= i < |addrs| :: UpTo(addrs[i], '/', StripMasks(addrs)[i])
  {
    if addrs != [] {
      SplitFirst(addrs[0], '/');
      MasksStripped(addrs[1..]);
      assert StripMasks(addrs)[0] == StripMask(addrs[0]);
      assert forall i | 0 < i < |addrs| :: addrs[i] == addrs[1..][i - 1] && StripMasks(addrs)[i] == StripMasks(addrs[1..])[i - 1];
    }
  }

  /** The values are the addresses without their mask, in the same order. */
  ghost predicate Stripped(values: seq<string>, addrs: seq<string>) {
    |values| == |addrs| && forall i | 0 <= i < |addrs| :: UpTo(addrs[i], '/', values[i])
  }

  // ---------- the physical file ----------

  /** A key that is present at most once, with its value; an empty value is left out. */
  function Optional(value: Option<string>): (vs: seq<string>) {
    if value.None? || value.value == "" then [] else [value.value]
  }

  function Last(vs: seq<string>): (v: Option<string>) { if vs == [] then None else Some(vs[|vs| - 1]) }

  /** The text of the physical file against the address, the prefix and the interface it is about. */
  ghost predicate Describes(text: string, p: Physical) {
    && Lookup(text, NameF) == [p.iface.name] && Lookup(text, MacAddressF) == Optional(p.iface.mac)
    && if HasDhcpTag(p.addr.tags) then
         && Lookup(text, DhcpF) == ["yes"]
         && Lookup(text, AddressF) == [] && Lookup(text, GatewayF) == []
         && Lookup(text, DnsF) == [] && Lookup(text, DomainsF) == []
       else
         && Lookup(text, DhcpF) == ["no"]
         && Lookup(text, AddressF) == [p.addr.text]
         && Lookup(text, GatewayF) == Optional(Last(p.prefix.gateways))
         && Stripped(Lookup(text, DnsF), p.prefix.dns)
         && Lookup(text, DomainsF) == (if p.prefix.dns != [] && p.prefix.domains.Some? then [p.prefix.domains.value] else [])
  }

  /** What ended up in the link, against the same data. */
  ghost predicate Gathers(l: Link, p: Physical) {
    && l.name == p.iface.name && Present(l.mac) == Optional(p.iface.mac)
    && if HasDhcpTag(p.addr.tags) then l.dhcp == YES
       else
         && l.dhcp == NO && l.addresses == [p.addr.text]
         && Present(l.gateway) == Optional(Last(p.prefix.gateways))
         && Stripped(l.dns, p.prefix.dns)
         && l.domains == (if p.prefix.dns != [] && p.prefix.domains.Some? then [p.prefix.domains.value] else [])
  }

  lemma LinkGathers(p: Physical)
    ensures Gathers(LinkOf(p), p)
  {
    MasksStripped(p.prefix.dns);
  }

  lemma NamesRead(l: Link, vlans: seq<string>)
    requires PlainLink(l) && AllPlain(vlans)
    ensures var text := LinkFile(l, vlans).content;
            && Lookup(text, NameF) == [l.name] && Lookup(text, MacAddressF) == Present(l.mac)
            && Lookup(text, DhcpF) == if l.dhcp == YES then [YES] else [NO]
  {
    LinkTextHolds(l, vlans, NameF);
    LinkTextHolds(l, vlans, MacAddressF);
    LinkTextHolds(l, vlans, DhcpF);
  }

  lemma AddressesRead(l: Link, vlans: seq<string>)
    requires PlainLink(l) && AllPlain(vlans)
    ensures var text := LinkFile(l, vlans).content;
            && Lookup(text, AddressF) == (if l.dhcp == YES then [] else l.addresses)
            && Lookup(text, GatewayF) == (if l.dhcp == YES then [] else Present(l.gateway))
  {
    LinkTextHolds(l, vlans, AddressF);
    LinkTextHolds(l, vlans, GatewayF);
  }

  lemma DnsRead(l: Link, vlans: seq<string>)
    requires PlainLink(l) && AllPlain(vlans)
    ensures var text := LinkFile(l, vlans).content;
            && Lookup(text, DnsF) == (if l.dhcp == YES then [] else l.dns)
            && Lookup(text, DomainsF) == (if l.dhcp == YES || l.domains == [] then [] else [Join(l.domains, " ")])
  {
    LinkTextHolds(l, vlans, DnsF);
    LinkTextHolds(l, vlans, DomainsF);
  }

  lemma GatheredDescribes(l: Link, p: Physical, vlans: seq<string>)
    requires Gathers(l, p) && PlainLink(l) && AllPlain(vlans)
    ensures Describes(LinkFile(l, vlans).content, p)
  {
    NamesRead(l, vlans);
    AddressesRead(l, vlans);
    DnsRead(l, vlans);
  }

  lemma LinkDescribes(p: Physical, vlans: seq<string>)
    requires PlainPhysical(p) && AllPlain(vlans)
    ensures Describes(LinkFile(LinkOf(p), vlans).content, p)
  {
    LinkOfNormal(p);
    LinkGathers(p);
    GatheredDescribes(LinkOf(p), p, vlans);
  }

  /** The physical file of a device tells of the last address that is on an interface itself. */
  lemma PhysicalFileDescribes(ifaces: seq<Iface>)
    requires PlainDevice(ifaces) && LastPhysical(ifaces).Some?
    ensures Describes(LinkFile(PhysicalLink(ifaces), Names(Entries(ifaces))).content, LastPhysical(ifaces).value)
  {
    EntryNamesPlain(ifaces);
    LinkDescribes(LastPhysical(ifaces).value, Names(Entries(ifaces)));
  }

  // ---------- the VLAN files ----------

  lemma VlanNameDescribes(e: Entry)
    requires PlainEntry(e)
    ensures var text := VlanFile(e).content;
            Lookup(text, NameF) == [e.vlan.name] && Lookup(text, DhcpF) == ["no"] && Lookup(text, AddressF) == [e.addr.text]
  {
    VlanTextHolds(e, NameF);
    VlanTextHolds(e, DhcpF);
    VlanTextHolds(e, AddressF);
  }

  lemma VlanDnsDescribes(e: Entry)
    requires PlainEntry(e)
    ensures var text := VlanFile(e).content;
            && Stripped(Lookup(text, GatewayF), e.prefix.gateways) && Stripped(Lookup(text, DnsF), e.prefix.dns)
            && Lookup(text, DomainsF) == (if e.prefix.dns != [] && e.prefix.domains.Some? then [e.prefix.domains.value] else [])
  {
    MasksStripped(e.prefix.gateways);
    MasksStripped(e.prefix.dns);
    VlanTextHolds(e, GatewayF);
    VlanTextHolds(e, DnsF);
    VlanTextHolds(e, DomainsF);
  }

  /** The file of a VLAN tells of its address and its prefix. */
  lemma VlanFileDescribes(e: Entry)
    requires PlainEntry(e)
    ensures var text := VlanFile(e).content;
            && Lookup(text, NameF) == [e.vlan.name] && Lookup(text, DhcpF) == ["no"] && Lookup(text, AddressF) == [e.addr.text]
            && Stripped(Lookup(text, GatewayF), e.prefix.gateways) && Stripped(Lookup(text, DnsF), e.prefix.dns)
            && Lookup(text, DomainsF) == (if e.prefix.dns != [] && e.prefix.domains.Some? then [e.prefix.domains.value] else [])
  {
    VlanNameDescribes(e);
    VlanDnsDescribes(e);
  }
}
