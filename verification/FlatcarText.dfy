/** The format strings of the Flatcar compiler, piece by piece. */
module FlatcarText {
  import opened Text
  import opened Networkd
  import opened NetworkData
  import opened Flatcar

  lemma RenderOne(a: Line)
    ensures Render([a]) == LineText(a) + "\n"
  {
    RenderCons(a, []);
    assert [a] + [] == [a];
    assert LineText(a) + "\n" + "" == LineText(a) + "\n";
  }

  lemma RenderTwo(a: Line, b: Line)
    ensures Render([a, b]) == (LineText(a) + "\n") + (LineText(b) + "\n")
  {
    RenderCons(a, [b]);
    RenderOne(b);
    assert [a] + [b] == [a, b];
  }

  lemma RenderThree(a: Line, b: Line, c: Line)
    ensures Render([a, b, c]) == (LineText(a) + "\n") + ((LineText(b) + "\n") + (LineText(c) + "\n"))
  {
    RenderCons(a, [b, c]);
    RenderTwo(b, c);
    assert [a] + [b, c] == [a, b, c];
  }

  /** A piece, a value and another piece, however the pieces were put together. */
  lemma Around(a: string, b: string, v: string, c: string)
    ensures a + ((b + v) + c) == (a + b) + v + c
  {
  }

  lemma PairText(f: Field, v: string)
    ensures Render([Blank, Setting(f, v)]) == ("\n" + (FieldText(f) + "=")) + v + "\n"
  {
    RenderTwo(Blank, Setting(f, v));
    assert LineText(Blank) + "\n" == "\n";
    Around("\n", FieldText(f) + "=", v, "\n");
  }

  /** Two pieces with a value each, in which the end of the first and the start of the second are one piece. */
  lemma Between(a: string, v: string, b: string, c: string, w: string, d: string)
    ensures (a + v + b) + (c + w + d) == a + v + (b + c) + w + d
  {
  }

  lemma Regroup(a: string, v: string, b: string, c: string, d: string, w: string, e: string)
    ensures (a + v + b) + (c + (d + w + e)) == a + v + ((b + c) + d) + w + e
  {
  }

  lemma Follows(a: string, v: string, b: string, c: string, w: string, d: string, x: string, e: string)
    ensures (a + v + b) + (c + w + d + x + e) == a + v + (b + c) + w + d + x + e
  {
  }

  // ---------- the physical .network file ----------

  lemma MatchPieces()
    ensures LineText(Header(MatchT)) + "\n" == "[Match]\n"
    ensures "[Match]\n" + (FieldText(NameF) + "=") == "[Match]\nName="
  {
  }

  lemma MatchText(name: string)
    ensures Render([Header(MatchT), Setting(NameF, name)]) == "[Match]\nName=" + name + "\n"
  {
    MatchPieces();
    RenderTwo(Header(MatchT), Setting(NameF, name));
    Around("[Match]\n", FieldText(NameF) + "=", name, "\n");
  }

  lemma NetworkPieces()
    ensures LineText(Header(NetworkT)) + "\n" == "[Network]\n"
    ensures LineText(Setting(LldpF, YES)) + "\n" == "LLDP=yes\n"
    ensures LineText(Setting(EmitLldpF, YES)) + "\n" == "EmitLLDP=yes\n"
  {
  }

  lemma NetworkJoined()
    ensures "LLDP=yes\n" + "EmitLLDP=yes\n" == "LLDP=yes\nEmitLLDP=yes\n"
    ensures "\n[Network]\n" + "LLDP=yes\nEmitLLDP=yes\n" == "\n[Network]\nLLDP=yes\nEmitLLDP=yes\n"
    ensures "\n" + "[Network]\n" == "\n[Network]\n"
  {
  }

  lemma NetworkText()
    ensures Render(LinkNetwork()) == "\n[Network]\nLLDP=yes\nEmitLLDP=yes\n"
  {
    NetworkPieces();
    NetworkJoined();
    RenderTwo(Blank, Header(NetworkT));
    RenderTwo(Setting(LldpF, YES), Setting(EmitLldpF, YES));
    RenderConcat([Blank, Header(NetworkT)], [Setting(LldpF, YES), Setting(EmitLldpF, YES)]);
    assert [Blank, Header(NetworkT)] + [Setting(LldpF, YES), Setting(EmitLldpF, YES)] == LinkNetwork();
    assert LineText(Blank) + "\n" == "\n";
  }

  lemma DhcpText()
    ensures Render([Setting(DhcpF, YES)]) == "DHCP=yes\n"
    ensures Render(StaticStart()) == "\nDHCP=no\n"
  {
    RenderOne(Setting(DhcpF, YES));
    RenderTwo(Blank, Setting(DhcpF, NO));
    assert LineText(Setting(DhcpF, YES)) + "\n" == "DHCP=yes\n";
    assert (LineText(Blank) + "\n") + (LineText(Setting(DhcpF, NO)) + "\n") == "\nDHCP=no\n";
  }

  lemma DefaultRouteText()
    ensures Render([Setting(DnsDefaultRouteF, YES)]) == "DNSDefaultRoute=yes\n"
    ensures Render([Blank, Setting(DnsDefaultRouteF, YES)]) == "\nDNSDefaultRoute=yes\n"
  {
    RenderOne(Setting(DnsDefaultRouteF, YES));
    RenderTwo(Blank, Setting(DnsDefaultRouteF, YES));
    assert LineText(Setting(DnsDefaultRouteF, YES)) + "\n" == "DNSDefaultRoute=yes\n";
    assert (LineText(Blank) + "\n") + "DNSDefaultRoute=yes\n" == "\nDNSDefaultRoute=yes\n";
  }

  lemma DomainPieces()
    ensures (LineText(Blank) + "\n") + (FieldText(DomainsF) + "=") == "\nDomains="
    ensures "\n" + (LineText(Setting(DnsDefaultRouteF, NO)) + "\n") == "\nDNSDefaultRoute=no\n"
  {
  }

  lemma DomainText(domains: string)
    ensures Render(DomainLines(domains)) == "\nDomains=" + domains + "\nDNSDefaultRoute=no\n"
  {
    DomainPieces();
    RenderThree(Blank, Setting(DomainsF, domains), Setting(DnsDefaultRouteF, NO));
    var blank, key, route := LineText(Blank) + "\n", FieldText(DomainsF) + "=", LineText(Setting(DnsDefaultRouteF, NO)) + "\n";
    assert blank + ((key + domains + "\n") + route) == (blank + key) + domains + ("\n" + route);
  }

  // ---------- the VLAN files ----------

  lemma AddressPieces()
    ensures LineText(Header(NetworkT)) + "\n" == "[Network]\n"
    ensures LineText(Setting(DhcpF, NO)) + "\n" == "DHCP=no\n"
    ensures FieldText(AddressF) + "=" == "Address="
  {
  }

  lemma AddressJoined()
    ensures "DHCP=no\n" + "Address=" == "DHCP=no\nAddress="
    ensures "[Network]\n" + "DHCP=no\nAddress=" == "[Network]\nDHCP=no\nAddress="
    ensures "\n" + "[Network]\nDHCP=no\nAddress=" == "\n[Network]\nDHCP=no\nAddress="
  {
  }

  lemma AddressText(address: string)
    ensures Render([Header(NetworkT), Setting(DhcpF, NO), Setting(AddressF, address)])
            == "[Network]\nDHCP=no\nAddress=" + address + "\n"
  {
    AddressPieces();
    AddressJoined();
    RenderThree(Header(NetworkT), Setting(DhcpF, NO), Setting(AddressF, address));
    Around("DHCP=no\n", "Address=", address, "\n");
    Around("[Network]\n", "DHCP=no\nAddress=", address, "\n");
  }

  lemma VlanStartText(e: Entry)
    ensures Render(VlanStart(e))
            == "[Match]\nName=" + e.vlan.name + "\n[Network]\nDHCP=no\nAddress=" + e.addr.text + "\n"
  {
    var a := [Header(MatchT), Setting(NameF, e.vlan.name)];
    var b := [Header(NetworkT), Setting(DhcpF, NO), Setting(AddressF, e.addr.text)];
    assert VlanStart(e) == a + b;
    RenderConcat(a, b);
    MatchText(e.vlan.name);
    AddressText(e.addr.text);
    AddressJoined();
    Between("[Match]\nName=", e.vlan.name, "\n", "[Network]\nDHCP=no\nAddress=", e.addr.text, "\n");
  }

  lemma NetdevPieces()
    ensures (LineText(Header(NetDevT)) + "\n") + (FieldText(NameF) + "=") == "[NetDev]\nName="
    ensures FieldText(KindF) + "=" == "Kind="
    ensures "\n" + "Kind=" == "\nKind="
    ensures ("\n" + (LineText(Header(VlanT)) + "\n")) + (FieldText(IdF) + "=") == "\n[VLAN]\nId="
  {
  }

  lemma NetdevNameText(name: string)
    ensures Render([Header(NetDevT), Setting(NameF, name)]) == "[NetDev]\nName=" + name + "\n"
  {
    NetdevPieces();
    RenderTwo(Header(NetDevT), Setting(NameF, name));
    Around(LineText(Header(NetDevT)) + "\n", FieldText(NameF) + "=", name, "\n");
  }

  lemma NetdevIdText(kind: string, id: string)
    ensures Render([Setting(KindF, kind), Header(VlanT), Setting(IdF, id)]) == "Kind=" + kind + "\n[VLAN]\nId=" + id + "\n"
  {
    NetdevPieces();
    RenderThree(Setting(KindF, kind), Header(VlanT), Setting(IdF, id));
    Regroup(FieldText(KindF) + "=", kind, "\n", LineText(Header(VlanT)) + "\n", FieldText(IdF) + "=", id, "\n");
  }

  lemma NetdevText(v: Vlan)
    ensures Render(NetdevLines(v)) == "[NetDev]\nName=" + v.name + "\nKind=" + KIND + "\n[VLAN]\nId=" + Itoa(v.vid) + "\n"
  {
    var a := [Header(NetDevT), Setting(NameF, v.name)];
    var b := [Setting(KindF, KIND), Header(VlanT), Setting(IdF, Itoa(v.vid))];
    assert NetdevLines(v) == a + b;
    RenderConcat(a, b);
    NetdevNameText(v.name);
    NetdevIdText(KIND, Itoa(v.vid));
    NetdevPieces();
    Follows("[NetDev]\nName=", v.name, "\n", "Kind=", KIND, "\n[VLAN]\nId=", Itoa(v.vid), "\n");
  }
}
