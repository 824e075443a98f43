/** The loops of the Flatcar compiler, and what its output is worth: no field is lost, no file is missing. */
module FlatcarFiles {
  import opened Basics
  import opened Text
  import opened Networkd
  import opened NetworkData
  import opened Flatcar
  import opened FlatcarText

  // ---------- the renderers ----------

  /** One line for each value. */
  method WriteEach(f: Field, key: string, vs: seq<string>) returns (text: string)
    requires key == FieldText(f) + "="
    ensures text == Render(Each(f, vs))
  {
    text := "";
    for i := 0 to |vs|
      invariant Render(Each(f, vs)) == text + Render(Each(f, vs[i..]))
    {
      var line := key + vs[i] + "\n";
      assert vs[i..][1..] == vs[i + 1..];
      RenderCons(Setting(f, vs[i]), Each(f, vs[i + 1..]));
      ConcatAssociative(text, line, Render(Each(f, vs[i + 1..])));
      text := text + line;
    }
  }

  lemma SpacedStep(f: Field, key: string, v: string, rest: seq<string>)
    requires key == "\n" + (FieldText(f) + "=")
    ensures Render(Spaced(f, [v] + rest)) == (key + v + "\n") + Render(Spaced(f, rest))
  {
    assert ([v] + rest)[1..] == rest;
    RenderConcat([Blank, Setting(f, v)], Spaced(f, rest));
    PairText(f, v);
  }

  /** One line for each value, with an empty line before it. */
  method WriteSpaced(f: Field, key: string, vs: seq<string>) returns (text: string)
    requires key == "\n" + (FieldText(f) + "=")
    ensures text == Render(Spaced(f, vs))
  {
    text := "";
    for i := 0 to |vs|
      invariant Render(Spaced(f, vs)) == text + Render(Spaced(f, vs[i..]))
    {
      var line := key + vs[i] + "\n";
      assert vs[i..] == [vs[i]] + vs[i + 1..];
      SpacedStep(f, key, vs[i], vs[i + 1..]);
      ConcatAssociative(text, line, Render(Spaced(f, vs[i + 1..])));
      text := text + line;
    }
  }

  lemma RenderFour(a: seq<Line>, b: seq<Line>, c: seq<Line>, d: seq<Line>)
    ensures Render(a + b + c + d) == Render(a) + Render(b) + Render(c) + Render(d)
  {
    RenderConcat(a, b);
    RenderConcat(a + b, c);
    RenderConcat(a + b + c, d);
  }

  lemma RenderFive(a: seq<Line>, b: seq<Line>, c: seq<Line>, d: seq<Line>, e: seq<Line>)
    ensures Render(a + b + c + d + e) == Render(a) + Render(b) + Render(c) + Render(d) + Render(e)
  {
    RenderFour(a, b, c, d);
    RenderConcat(a + b + c + d, e);
  }

  /** The keys as they stand in the format strings. */
  lemma Keys()
    ensures FieldText(MacAddressF) + "=" == "MACAddress="
    ensures FieldText(GatewayF) + "=" == "Gateway=" && FieldText(DnsF) + "=" == "DNS=" && FieldText(VlanF) + "=" == "VLAN="
  {
  }

  lemma SpacedKeys()
    ensures "\n" + (FieldText(AddressF) + "=") == "\nAddress="
    ensures "\n" + (FieldText(GatewayF) + "=") == "\nGateway=" && "\n" + (FieldText(DnsF) + "=") == "\nDNS="
  {
  }

  method WriteStaticEnd(l: Link) returns (text: string)
    ensures text == Render(StaticEnd(l))
  {
    if |l.domains| == 0 {
      text := "\nDNSDefaultRoute=yes\n";
      DefaultRouteText();
    } else {
      text := "\nDomains=" + Join(l.domains, " ") + "\nDNSDefaultRoute=no\n";
      DomainText(Join(l.domains, " "));
    }
  }

  /** The settings of an interface that does not use DHCP. */
  method WriteStatic(l: Link) returns (text: string)
    ensures text == Render(StaticLines(l))
  {
    Keys();
    SpacedKeys();
    var start := "\nDHCP=no\n";
    DhcpText();
    var addresses := WriteSpaced(AddressF, "\nAddress=", l.addresses);
    var gateway := WriteEach(GatewayF, "Gateway=", Present(l.gateway));
    var dns := WriteEach(DnsF, "DNS=", l.dns);
    var end := WriteStaticEnd(l);
    text := start + addresses + gateway + dns + end;
    RenderFive(StaticStart(), Spaced(AddressF, l.addresses), Each(GatewayF, Present(l.gateway)), Each(DnsF, l.dns), StaticEnd(l));
  }

  method WriteMode(l: Link) returns (text: string)
    ensures text == Render(LinkMode(l))
  {
    if l.dhcp == YES {
      text := "DHCP=yes\n";
      DhcpText();
    } else {
      text := WriteStatic(l);
    }
  }

  /** appendSystemdNetworkFileForIface */
  method WriteLink(l: Link, vlans: seq<string>) returns (file: File)
    ensures file == LinkFile(l, vlans)
  {
    Keys();
    var start := "[Match]\nName=" + l.name + "\n";
    MatchText(l.name);
    var mac := WriteEach(MacAddressF, "MACAddress=", Present(l.mac));
    var network := "\n[Network]\nLLDP=yes\nEmitLLDP=yes\n";
    NetworkText();
    var mode := WriteMode(l);
    var names := WriteEach(VlanF, "VLAN=", vlans);
    RenderFive(LinkStart(l), Each(MacAddressF, Present(l.mac)), LinkNetwork(), LinkMode(l), Each(VlanF, vlans));
    return File(NetworkPath(l.name), start + mac + network + mode + names);
  }

  method WriteVlanEnd(e: Entry) returns (text: string)
    ensures text == Render(VlanEnd(e))
  {
    text := "";
    if |e.prefix.dns| > 0 {
      if e.prefix.domains.Some? {
        text := "\nDomains=" + e.prefix.domains.value + "\nDNSDefaultRoute=no\n";
        DomainText(e.prefix.domains.value);
      } else {
        text := "DNSDefaultRoute=yes\n";
        DefaultRouteText();
      }
    }
  }

  /** appendSystemdNetworkFileForVlan */
  method WriteVlan(e: Entry) returns (file: File)
    ensures file == VlanFile(e)
  {
    SpacedKeys();
    var start := "[Match]\nName=" + e.vlan.name + "\n[Network]\nDHCP=no\nAddress=" + e.addr.text + "\n";
    VlanStartText(e);
    var gateways := WriteSpaced(GatewayF, "\nGateway=", StripMasks(e.prefix.gateways));
    var dns := WriteSpaced(DnsF, "\nDNS=", StripMasks(e.prefix.dns));
    var end := WriteVlanEnd(e);
    RenderFour(VlanStart(e), Spaced(GatewayF, StripMasks(e.prefix.gateways)), Spaced(DnsF, StripMasks(e.prefix.dns)), VlanEnd(e));
    return File(NetworkPath(e.vlan.name), start + gateways + dns + end);
  }

  /** appendSystemdNetdevConfs */
  method WriteNetdevs(es: seq<Entry>) returns (files: seq<File>)
    ensures files == NetdevFiles(es)
  {
    files := [];
    for i := 0 to |es|
      invariant |files| == i && forall j | 0 <= j < i :: files[j] == NetdevFile(es[j].vlan)
    {
      var v := es[i].vlan;
      var content := "[NetDev]\nName=" + v.name + "\nKind=" + KIND + "\n[VLAN]\nId=" + Itoa(v.vid) + "\n";
      NetdevText(v);
      files := files + [File(NetdevPath(v.name), content)];
    }
  }

  // ---------- the traversal ----------

  lemma AddrStep(f: Iface, addrs: seq<Addr>, i: nat, es: seq<Entry>, p: Option<Physical>)
    requires i < |addrs|
    ensures es + EntriesOf(f, addrs[i..]) == (es + EntryFor(f, addrs[i])) + EntriesOf(f, addrs[i + 1..])
    ensures Later(p, PhysicalOf(f, addrs[i..])) == Later(Later(p, PhysicalFor(f, addrs[i])), PhysicalOf(f, addrs[i + 1..]))
  {
  }

  ghost predicate FilesOf(files: seq<File>, es: seq<Entry>) {
    |files| == |es| && forall j | 0 <= j < |es| :: files[j] == VlanFile(es[j])
  }

  /** The branch for one address of an interface. */
  method VisitAddr(f: Iface, a: Addr) returns (files: seq<File>, netdevs: seq<Entry>, physical: Option<Physical>)
    ensures netdevs == EntryFor(f, a) && FilesOf(files, netdevs) && physical == PhysicalFor(f, a)
  {
    files, netdevs, physical := [], [], None;
    var p := Covering(a);
    if p.Some? {
      var tagged := false;
      if p.value.vlan.Some? { tagged := IsVlanInList(p.value.vlan.value.vid, f.tagged); }
      if tagged {
        var e := Entry(p.value.vlan.value, a, p.value);
        var file := WriteVlan(e);
        netdevs, files := [e], [file];
      } else {
        physical := Some(Physical(f, a, p.value));
      }
    }
  }

  /** The inner loop, over the addresses of one interface. */
  method VisitIface(f: Iface, addrs: seq<Addr>) returns (files: seq<File>, netdevs: seq<Entry>, physical: Option<Physical>)
    ensures netdevs == EntriesOf(f, addrs) && FilesOf(files, netdevs) && physical == PhysicalOf(f, addrs)
  {
    files, netdevs, physical := [], [], None;
    for i := 0 to |addrs|
      invariant EntriesOf(f, addrs) == netdevs + EntriesOf(f, addrs[i..])
      invariant FilesOf(files, netdevs)
      invariant PhysicalOf(f, addrs) == Later(physical, PhysicalOf(f, addrs[i..]))
    {
      AddrStep(f, addrs, i, netdevs, physical);
      var fs, es, p := VisitAddr(f, addrs[i]);
      netdevs := netdevs + es;
      files := files + fs;
      physical := Later(physical, p);
    }
  }

  ghost predicate Visited(ifaces: seq<Iface>, i: nat, files: seq<File>, netdevs: seq<Entry>, physical: Option<Physical>)
    requires i <= |ifaces|
  {
    && Entries(ifaces) == netdevs + Entries(ifaces[i..])
    && FilesOf(files, netdevs)
    && LastPhysical(ifaces) == Later(physical, LastPhysical(ifaces[i..]))
  }

  lemma VisitedStep(ifaces: seq<Iface>, i: nat, files: seq<File>, es: seq<Entry>, p: Option<Physical>, newFiles: seq<File>)
    requires i < |ifaces| && Visited(ifaces, i, files, es, p)
    requires FilesOf(newFiles, EntriesOf(ifaces[i], AddrsOf(ifaces[i])))
    ensures Visited(ifaces, i + 1, files + newFiles, es + EntriesOf(ifaces[i], AddrsOf(ifaces[i])),
                    Later(p, PhysicalOf(ifaces[i], AddrsOf(ifaces[i]))))
  {
  }

  /** The traversal of all interfaces; not `ok` when the addresses of one of them cannot be listed. */
  method Visit(ifaces: seq<Iface>) returns (ok: bool, files: seq<File>, netdevs: seq<Entry>, physical: Option<Physical>)
    ensures ok == Listable(ifaces)
    ensures ok ==> netdevs == Entries(ifaces) && FilesOf(files, netdevs) && physical == LastPhysical(ifaces)
  {
    files, netdevs, physical := [], [], None;
    for i := 0 to |ifaces|
      invariant Visited(ifaces, i, files, netdevs, physical)
      invariant forall j | 0 <= j < i :: ifaces[j].addrs.Some?
    {
      var f := ifaces[i];
      if f.addrs.None? {
        assert f in ifaces;
        return false, [], [], None;
      }
      var fs, es, p := VisitIface(f, f.addrs.value);
      VisitedStep(ifaces, i, files, netdevs, physical, fs);
      netdevs, files, physical := netdevs + es, files + fs, Later(physical, p);
    }
    ok := true;
  }

  /** extractFlatcarData; None when the interfaces, or the addresses of one of them, cannot be listed. */
  method Extract(listed: Option<seq<Iface>>, dcim: string, hostname: string) returns (out: Option<seq<File>>)
    ensures out == if listed.Some? && Listable(listed.value) then Some(Files(listed.value, dcim, hostname)) else None
  {
    if listed.None? { return None; }
    var ok, files, netdevs, physical := Visit(listed.value);
    if !ok { return None; }
    assert files == VlanFiles(netdevs);
    var link := NO_LINK;
    if physical.Some? { link := SetValues(physical.value); }
    var devs := WriteNetdevs(netdevs);
    var linkFile := WriteLink(link, Names(netdevs));
    return Some(files + devs + [linkFile, File(DCIM_PATH, dcim), File(HOSTNAME_PATH, hostname)]);
  }
}
