/** The Talos compiler: the same network data as a list of machine-configuration interfaces. */
module Talos {
  import opened Basics
  import opened NetworkData

  datatype TalosVlan = TalosVlan(id: int, address: string)

  datatype TalosDevice = TalosDevice(name: string, cidr: string, vlans: seq<TalosVlan>)

  /** Go's uint16 conversion. */
  function Wrap16(n: int): (r: int)
    ensures 0 <= r < 0x1_0000 && (0 <= n < 0x1_0000 ==> r == n)
  {
    n % 0x1_0000
  }

  /** The VLAN id of a prefix, with 0 for none. */
  function Vid(p: Prefix): int { if p.vlan.Some? then p.vlan.value.vid else 0 }

  function VlanFor(f: Iface, a: Addr): (r: seq<TalosVlan>) {
    var p := Covering(a);
    if p.Some? && Vid(p.value) in f.tagged then [TalosVlan(Wrap16(Vid(p.value)), a.text)] else []
  }

  function VlansOf(f: Iface, addrs: seq<Addr>): (r: seq<TalosVlan>) {
    if addrs == [] then [] else VlanFor(f, addrs[0]) + VlansOf(f, addrs[1..])
  }

  function CidrAfter(f: Iface, a: Addr, cidr: string): string {
    var p := Covering(a);
    if p.Some? && Vid(p.value) !in f.tagged then a.text else cidr
  }

  /** The last address on the interface itself, or `cidr` when there is none. */
  function CidrFrom(f: Iface, addrs: seq<Addr>, cidr: string): (r: string) {
    if addrs == [] then cidr else CidrFrom(f, addrs[1..], CidrAfter(f, addrs[0], cidr))
  }

  /** DHCP-tagged interfaces are listed bare. */
  function DeviceOf(f: Iface): (d: TalosDevice) {
    if HasDhcpTag(f.tags) then TalosDevice(f.name, "", [])
    else TalosDevice(f.name, CidrFrom(f, AddrsOf(f), ""), VlansOf(f, AddrsOf(f)))
  }

  function Devices(ifaces: seq<Iface>): (ds: seq<TalosDevice>)
    ensures |ds| == |ifaces| && forall i | 0 <= i < |ifaces| :: ds[i] == DeviceOf(ifaces[i])
  {
    if ifaces == [] then [] else [DeviceOf(ifaces[0])] + Devices(ifaces[1..])
  }

  // ---------- the loops ----------

  lemma VlansStep(f: Iface, addrs: seq<Addr>, i: nat, acc: seq<TalosVlan>)
    requires i < |addrs|
    ensures acc + VlansOf(f, addrs[i..]) == (acc + VlanFor(f, addrs[i])) + VlansOf(f, addrs[i + 1..])
  {
  }

  lemma CidrStep(f: Iface, addrs: seq<Addr>, i: nat, cidr: string)
    requires i < |addrs|
    ensures CidrFrom(f, addrs[i..], cidr) == CidrFrom(f, addrs[i + 1..], CidrAfter(f, addrs[i], cidr))
  {
  }

  /** The inner loop, over the addresses of one interface. */
  method CompileIface(f: Iface, addrs: seq<Addr>) returns (cidr: string, vlans: seq<TalosVlan>)
    ensures cidr == CidrFrom(f, addrs, "") && vlans == VlansOf(f, addrs)
  {
    cidr, vlans := "", [];
    for i := 0 to |addrs|
      invariant VlansOf(f, addrs) == vlans + VlansOf(f, addrs[i..])
      invariant CidrFrom(f, addrs, "") == CidrFrom(f, addrs[i..], cidr)
    {
      VlansStep(f, addrs, i, vlans);
      CidrStep(f, addrs, i, cidr);
      var p := Covering(addrs[i]);
      if p.Some? {
        var vid := 0;
        if p.value.vlan.Some? { vid := p.value.vlan.value.vid; }
        var tagged := IsVlanInList(vid, f.tagged);
        if tagged {
          vlans := vlans + [TalosVlan(Wrap16(vid), addrs[i].text)];
        } else {
          cidr := addrs[i].text;
        }
      }
    }
  }

  /** extractTalosData; None when the interfaces, or the addresses of one of them, cannot be listed. */
  method Compile(listed: Option<seq<Iface>>) returns (out: Option<seq<TalosDevice>>)
    ensures out == if listed.Some? && Listable(listed.value) then Some(Devices(listed.value)) else None
  {
    if listed.None? { return None; }
    var ifaces := listed.value;
    var ds: seq<TalosDevice> := [];
    for i := 0 to |ifaces|
      invariant |ds| == i && forall j | 0 <= j < i :: ds[j] == DeviceOf(ifaces[j]) && ifaces[j].addrs.Some?
    {
      var f := ifaces[i];
      if f.addrs.None? {
        assert f in ifaces;
        return None;
      }
      var dhcp := FindDhcpTag(f.tags);
      var cidr, vlans := "", [];
      if !dhcp {
        cidr, vlans := CompileIface(f, f.addrs.value);
      }
      ds := ds + [TalosDevice(f.name, cidr, vlans)];
    }
    assert ds == Devices(ifaces);
    return Some(ds);
  }
}

/** The Flatcar and Talos compilers say the same of every device. */
module Agreement {
  import opened Basics
  import opened Text
  import opened NetworkData
  import opened Networkd
  import opened Flatcar
  import opened Talos
  import opened FlatcarLossless

  function Pairs(es: seq<Entry>): (r: seq<TalosVlan>)
    ensures |r| == |es| && forall i | 0 <= i < |es| :: r[i] == TalosVlan(es[i].vlan.vid, es[i].addr.text)
  {
    if es == [] then [] else [TalosVlan(es[0].vlan.vid, es[0].addr.text)] + Pairs(es[1..])
  }

  function AllVlans(ds: seq<TalosDevice>): (r: seq<TalosVlan>) {
    if ds == [] then [] else ds[0].vlans + AllVlans(ds[1..])
  }

  /** The address of the last interface that has one of its own. */
  function LastCidr(ds: seq<TalosDevice>): (r: string) {
    if ds == [] then ""
    else
      var later := LastCidr(ds[1..]);
      if later != "" then later else ds[0].cidr
  }

  /** The interfaces without a DHCP tag. */
  function Untagged(ifaces: seq<Iface>): (r: seq<Iface>) {
    if ifaces == [] then []
    else (if HasDhcpTag(ifaces[0].tags) then [] else [ifaces[0]]) + Untagged(ifaces[1..])
  }

  function AddressOf(p: Option<Physical>): (r: string) { if p.Some? then p.value.addr.text else "" }

  /** The 0 that Talos uses for "no VLAN" misreads a prefix exactly when the interface carries VLAN 0. */
  lemma SentinelExact(f: Iface, p: Prefix)
    ensures (Vid(p) in f.tagged <==> OnVlan(f, p)) <==> !(p.vlan.None? && 0 in f.tagged)
  {
  }

  /** On an interface that carries VLAN 0, an address without a VLAN becomes one on VLAN 0. */
  lemma SentinelExample()
    ensures var a := Addr("192.0.2.1/24", [], Found([Prefix(None, [], [], None)]));
            var f := Iface("eth0", None, [], [0], Some([a]));
            VlanFor(f, a) == [TalosVlan(0, "192.0.2.1/24")] && EntryFor(f, a) == []
  {
  }

  lemma AddrAgrees(f: Iface, a: Addr, cidr: string)
    requires ValidIface(f) && ValidAddr(a)
    ensures VlanFor(f, a) == Pairs(EntryFor(f, a))
    ensures CidrAfter(f, a, cidr) == if PhysicalFor(f, a).Some? then a.text else cidr
    ensures PhysicalFor(f, a).Some? ==> PhysicalFor(f, a).value.addr == a
  {
  }

  lemma {:induction false} PairsConcat(a: seq<Entry>, b: seq<Entry>)
    ensures Pairs(a + b) == Pairs(a) + Pairs(b)
  {
  }

  lemma {:induction false} IfaceAgrees(f: Iface, addrs: seq<Addr>, cidr: string)
    requires ValidIface(f) && forall a | a in addrs :: ValidAddr(a)
    ensures VlansOf(f, addrs) == Pairs(EntriesOf(f, addrs))
    ensures CidrFrom(f, addrs, cidr) == if PhysicalOf(f, addrs).Some? then AddressOf(PhysicalOf(f, addrs)) else cidr
    ensures PhysicalOf(f, addrs).Some? ==> AddressOf(PhysicalOf(f, addrs)) != ""
  {
    if addrs != [] {
      AddrAgrees(f, addrs[0], cidr);
      IfaceAgrees(f, addrs[1..], CidrAfter(f, addrs[0], cidr));
      PairsConcat(EntryFor(f, addrs[0]), EntriesOf(f, addrs[1..]));
    }
  }

  lemma DeviceAgrees(f: Iface)
    requires ValidIface(f) && !HasDhcpTag(f.tags)
    ensures DeviceOf(f).vlans == Pairs(EntriesOf(f, AddrsOf(f)))
    ensures DeviceOf(f).cidr == AddressOf(PhysicalOf(f, AddrsOf(f)))
    ensures PhysicalOf(f, AddrsOf(f)).Some? ==> DeviceOf(f).cidr != ""
  {
    IfaceAgrees(f, AddrsOf(f), "");
  }

  /** Interface by interface: its name, nothing else if it is DHCP-tagged, and what Flatcar makes of it alone otherwise. */
  lemma InterfaceAgrees(ifaces: seq<Iface>, i: nat)
    requires i < |ifaces| && ValidIface(ifaces[i])
    ensures var f, d := ifaces[i], Devices(ifaces)[i];
            && d.name == f.name
            && (HasDhcpTag(f.tags) ==> d.cidr == "" && d.vlans == [])
            && (!HasDhcpTag(f.tags) ==> d.vlans == Pairs(Entries([f])) && d.cidr == AddressOf(LastPhysical([f])))
  {
    var f := ifaces[i];
    assert [f][1..] == [];
    assert Entries([f]) == EntriesOf(f, AddrsOf(f));
    if !HasDhcpTag(f.tags) {
      DeviceAgrees(f);
    }
  }

  lemma DevicesTail(ifaces: seq<Iface>)
    requires ifaces != []
    ensures Devices(ifaces) == [DeviceOf(ifaces[0])] + Devices(ifaces[1..]) && Devices(ifaces)[1..] == Devices(ifaces[1..])
  {
  }

  lemma UntaggedStep(f: Iface, rest: seq<Iface>)
    ensures Entries([f] + rest) == EntriesOf(f, AddrsOf(f)) + Entries(rest)
    ensures LastPhysical([f] + rest) == Later(PhysicalOf(f, AddrsOf(f)), LastPhysical(rest))
  {
  }

  /**
   * The Talos VLANs over all interfaces are Flatcar's VLAN entries in the same order, and the last Talos address is
   * the address Flatcar settles on, both over the interfaces without a DHCP tag: Talos leaves the tagged ones bare.
   */
  lemma {:induction false} CompilersAgree(ifaces: seq<Iface>)
    requires Valid(ifaces)
    ensures AllVlans(Devices(ifaces)) == Pairs(Entries(Untagged(ifaces)))
    ensures LastCidr(Devices(ifaces)) == AddressOf(LastPhysical(Untagged(ifaces)))
    ensures LastPhysical(Untagged(ifaces)).Some? ==> LastCidr(Devices(ifaces)) != ""
  {
    if ifaces != [] {
      var f := ifaces[0];
      assert ValidIface(f);
      CompilersAgree(ifaces[1..]);
      DevicesTail(ifaces);
      if HasDhcpTag(f.tags) {
        assert Untagged(ifaces) == Untagged(ifaces[1..]);
      } else {
        DeviceAgrees(f);
        UntaggedStep(f, Untagged(ifaces[1..]));
        PairsConcat(EntriesOf(f, AddrsOf(f)), Entries(Untagged(ifaces[1..])));
      }
    }
  }

  /** The address is on none of the VLANs that its interface carries. */
  predicate OffVlan(f: Iface, a: Addr) { Covering(a).None? || !OnVlan(f, Covering(a).value) }

  lemma {:induction false} NoEntriesIff(f: Iface, addrs: seq<Addr>)
    ensures EntriesOf(f, addrs) == [] <==> forall a | a in addrs :: OffVlan(f, a)
  {
    if addrs != [] {
      NoEntriesIff(f, addrs[1..]);
      assert forall a | a in addrs :: a == addrs[0] || a in addrs[1..];
      assert addrs[0] in addrs;
    }
  }

  /** A DHCP-tagged interface has no address on a VLAN that it carries. */
  predicate BareTagged(f: Iface) { HasDhcpTag(f.tags) ==> forall a | a in AddrsOf(f) :: OffVlan(f, a) }

  predicate AllBare(ifaces: seq<Iface>) { forall f | f in ifaces :: BareTagged(f) }

  lemma AllBareCons(ifaces: seq<Iface>)
    requires ifaces != []
    ensures AllBare(ifaces) == (BareTagged(ifaces[0]) && AllBare(ifaces[1..]))
  {
  }

  lemma {:induction false} UntaggedEntries(ifaces: seq<Iface>)
    ensures |Entries(Untagged(ifaces))| <= |Entries(ifaces)|
    ensures |Entries(Untagged(ifaces))| == |Entries(ifaces)| <==> AllBare(ifaces)
    ensures AllBare(ifaces) ==> Entries(Untagged(ifaces)) == Entries(ifaces)
  {
    if ifaces != [] {
      var f, rest := ifaces[0], ifaces[1..];
      UntaggedEntries(rest);
      UntaggedStep(f, Untagged(rest));
      AllBareCons(ifaces);
      NoEntriesIff(f, AddrsOf(f));
      if HasDhcpTag(f.tags) {
        assert Untagged(ifaces) == Untagged(rest);
      }
    }
  }

  /** The two VLAN lists are equal exactly when no DHCP-tagged interface has an address on a tagged VLAN. */
  lemma VlansAgreeIff(ifaces: seq<Iface>)
    requires Valid(ifaces)
    ensures AllVlans(Devices(ifaces)) == Pairs(Entries(ifaces)) <==> AllBare(ifaces)
  {
    CompilersAgree(ifaces);
    UntaggedEntries(ifaces);
  }

  lemma {:induction false} PhysicalSource(f: Iface, addrs: seq<Addr>)
    ensures var p := PhysicalOf(f, addrs); p.Some? ==> p.value.iface == f && p.value.addr in addrs
  {
    if addrs != [] {
      PhysicalSource(f, addrs[1..]);
    }
  }

  lemma {:induction false} LastPhysicalSource(ifaces: seq<Iface>)
    ensures var p := LastPhysical(ifaces); p.Some? ==> p.value.iface in ifaces && p.value.addr in AddrsOf(p.value.iface)
  {
    if ifaces != [] {
      LastPhysicalSource(ifaces[1..]);
      PhysicalSource(ifaces[0], AddrsOf(ifaces[0]));
    }
  }

  lemma {:induction false} UntaggedSource(ifaces: seq<Iface>)
    ensures forall f | f in Untagged(ifaces) :: f in ifaces && !HasDhcpTag(f.tags)
  {
    if ifaces != [] {
      UntaggedSource(ifaces[1..]);
    }
  }

  /** Some interface has an address of its own, and the last one to have one is DHCP-tagged. */
  predicate LastIsTagged(ifaces: seq<Iface>) {
    LastPhysical(ifaces).Some? && HasDhcpTag(LastPhysical(ifaces).value.iface.tags)
  }

  lemma {:induction false} UntaggedLast(ifaces: seq<Iface>)
    requires !LastIsTagged(ifaces)
    ensures LastPhysical(Untagged(ifaces)) == LastPhysical(ifaces)
  {
    if ifaces != [] {
      var f, rest := ifaces[0], ifaces[1..];
      UntaggedLast(rest);
      PhysicalSource(f, AddrsOf(f));
      if HasDhcpTag(f.tags) {
        assert Untagged(ifaces) == Untagged(rest);
      } else {
        UntaggedStep(f, Untagged(rest));
      }
    }
  }

  /**
   The two addresses are equal exactly when the last interface with an address of its own is not
   DHCP-tagged, or the last one without the tag repeats its address.
   */
  lemma AddressAgreesIff(ifaces: seq<Iface>)
    requires Valid(ifaces)
    ensures LastCidr(Devices(ifaces)) == AddressOf(LastPhysical(ifaces))
            <==> !LastIsTagged(ifaces) || AddressOf(LastPhysical(Untagged(ifaces))) == AddressOf(LastPhysical(ifaces))
  {
    CompilersAgree(ifaces);
    if !LastIsTagged(ifaces) {
      UntaggedLast(ifaces);
    }
  }

  ghost predicate DistinctAddresses(ifaces: seq<Iface>) {
    forall f, g, a, b | f in ifaces && g in ifaces && a in AddrsOf(f) && b in AddrsOf(g) && f != g :: a.text != b.text
  }

  lemma {:induction false} PhysicalHasText(ifaces: seq<Iface>)
    requires Valid(ifaces) && LastPhysical(ifaces).Some?
    ensures AddressOf(LastPhysical(ifaces)) != ""
  {
    LastPhysicalSource(ifaces);
    var p := LastPhysical(ifaces).value;
    assert ValidIface(p.iface) && ValidAddr(p.addr);
  }

  /** So without repeated addresses they are equal exactly when that interface is not DHCP-tagged. */
  lemma DistinctAddressesAgreeIff(ifaces: seq<Iface>)
    requires Valid(ifaces) && DistinctAddresses(ifaces)
    ensures LastCidr(Devices(ifaces)) == AddressOf(LastPhysical(ifaces)) <==> !LastIsTagged(ifaces)
  {
    AddressAgreesIff(ifaces);
    if LastIsTagged(ifaces) {
      LastPhysicalSource(ifaces);
      LastPhysicalSource(Untagged(ifaces));
      UntaggedSource(ifaces);
      PhysicalHasText(ifaces);
    }
  }

  // ---------- two devices on which the compilers differ ----------

  const OFFICE := Vlan(10, "office")

  const ON_OFFICE := Addr("10.0.0.1/24", [], Found([Prefix(Some(OFFICE), [], [], None)]))

  const OFF_OFFICE := Addr("192.0.2.1/24", [], Found([Prefix(None, [], [], None)]))

  /** An interface that is DHCP-tagged and has a tagged VLAN and an address of its own. */
  const TAGGED := Iface("eth0", None, ["dhcp"], [10], Some([ON_OFFICE, OFF_OFFICE]))

  lemma TaggedIsDhcp()
    ensures HasDhcpTag(TAGGED.tags)
  {
    assert TAGGED.tags[0] in TAGGED.tags && ToLower("dhcp") == "dhcp";
  }

  /** Flatcar configures the VLAN and the address of the tagged interface, Talos neither. */
  lemma TaggedExample()
    ensures AllVlans(Devices([TAGGED])) == [] && Pairs(Entries([TAGGED])) == [TalosVlan(10, "10.0.0.1/24")]
    ensures LastCidr(Devices([TAGGED])) == "" && AddressOf(LastPhysical([TAGGED])) == "192.0.2.1/24"
  {
    TaggedIsDhcp();
    var addrs := [ON_OFFICE, OFF_OFFICE];
    assert AddrsOf(TAGGED) == addrs && addrs[1..] == [OFF_OFFICE] && [OFF_OFFICE][1..] == [] && [TAGGED][1..] == [];
    assert EntryFor(TAGGED, ON_OFFICE) == [Entry(OFFICE, ON_OFFICE, ON_OFFICE.query.prefixes[0])];
    assert EntriesOf(TAGGED, [OFF_OFFICE]) == [];
    assert PhysicalOf(TAGGED, [OFF_OFFICE]).Some?;
  }

  lemma {:induction false} NoneTagged(ifaces: seq<Iface>)
    requires forall f | f in ifaces :: !HasDhcpTag(f.tags)
    ensures Untagged(ifaces) == ifaces
  {
    if ifaces != [] {
      NoneTagged(ifaces[1..]);
    }
  }

  /** The two .network and .netdev files of the i-th Flatcar VLAN hold the i-th Talos VLAN. */
  predicate SameVlan(network: File, netdev: File, v: TalosVlan) {
    Lookup(network.content, AddressF) == [v.address] && ReadId(netdev.content) == Some(v.id)
  }

  lemma EntryText(e: Entry)
    requires PlainEntry(e) && IsInt32(e.vlan.vid)
    ensures SameVlan(VlanFile(e), NetdevFile(e.vlan), TalosVlan(e.vlan.vid, e.addr.text))
  {
    VlanTextHolds(e, AddressF);
    NetdevTextHolds(e.vlan);
  }

  lemma VlanFilesHold(es: seq<Entry>, l: Link, dcim: string, hostname: string, i: nat)
    requires i < |es| && PlainEntry(es[i]) && IsInt32(es[i].vlan.vid)
    ensures var fs := FileSet(es, l, dcim, hostname);
            |fs| == 2 * |es| + 3 && SameVlan(fs[i], fs[|es| + i], Pairs(es)[i])
  {
    FileAt(es, l, dcim, hostname, i);
    EntryText(es[i]);
  }

  /** The files say of every VLAN what `vs` says, and there is no file for another VLAN. */
  ghost predicate SameVlans(fs: seq<File>, vs: seq<TalosVlan>) {
    |fs| == 2 * |vs| + 3 && forall i | 0 <= i < |vs| :: SameVlan(fs[i], fs[|vs| + i], vs[i])
  }

  lemma AllVlanFilesHold(es: seq<Entry>, l: Link, dcim: string, hostname: string)
    requires PlainEntries(es)
    ensures SameVlans(FileSet(es, l, dcim, hostname), Pairs(es))
  {
    LastFiles(es, l, dcim, hostname);
    forall i | 0 <= i < |es|
      ensures SameVlan(FileSet(es, l, dcim, hostname)[i], FileSet(es, l, dcim, hostname)[|es| + i], Pairs(es)[i])
    {
      assert es[i] in es;
      VlanFilesHold(es, l, dcim, hostname, i);
    }
  }

  /** For a device with no DHCP-tagged interface, the Flatcar text says of every VLAN what the Talos document says. */
  lemma VlanTextAgrees(ifaces: seq<Iface>, dcim: string, hostname: string)
    requires Valid(ifaces) && PlainDevice(ifaces) && forall f | f in ifaces :: !HasDhcpTag(f.tags)
    ensures SameVlans(Files(ifaces, dcim, hostname), AllVlans(Devices(ifaces)))
  {
    CompilersAgree(ifaces);
    NoneTagged(ifaces);
    AllVlanFilesHold(Entries(ifaces), PhysicalLink(ifaces), dcim, hostname);
  }

  lemma AddressRead(l: Link, vlans: seq<string>)
    requires PlainLink(l) && AllPlain(vlans)
    ensures Lookup(LinkFile(l, vlans).content, AddressF) == if l.dhcp == YES then [] else l.addresses
  {
    LinkTextHolds(l, vlans, AddressF);
  }

  /** And so does the physical file of the interface address, unless that address is DHCP-tagged. */
  lemma AddressTextAgrees(ifaces: seq<Iface>)
    requires Valid(ifaces) && PlainDevice(ifaces) && forall f | f in ifaces :: !HasDhcpTag(f.tags)
    ensures var cidr, p := LastCidr(Devices(ifaces)), LastPhysical(ifaces);
            Lookup(LinkFile(PhysicalLink(ifaces), Names(Entries(ifaces))).content, AddressF)
            == if p.None? || HasDhcpTag(p.value.addr.tags) then [] else [cidr]
  {
    CompilersAgree(ifaces);
    NoneTagged(ifaces);
    EntryNamesPlain(ifaces);
    PhysicalLinkPlain(ifaces);
    AddressRead(PhysicalLink(ifaces), Names(Entries(ifaces)));
  }
}
