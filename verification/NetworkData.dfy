/** The network data of a device, as both configuration compilers read it from NetBox. */
module NetworkData {
  import opened Basics
  import opened Text

  datatype Vlan = Vlan(vid: int, name: string)

  /** A prefix with the addresses in it that are tagged gateway and dns. */
  datatype Prefix = Prefix(vlan: Option<Vlan>, gateways: seq<string>, dns: seq<string>, domains: Option<string>)

  datatype PrefixQuery = QueryFailed | Found(prefixes: seq<Prefix>)

  /** An address of an interface, and the outcome of the query for the prefixes that contain it. */
  datatype Addr = Addr(text: string, tags: seq<string>, query: PrefixQuery)

  /** An interface; `addrs` is None when its addresses cannot be listed. */
  datatype Iface = Iface(name: string, mac: Option<string>, tags: seq<string>, tagged: seq<int>, addrs: Option<seq<Addr>>)

  predicate HasDhcpTag(tags: seq<string>) { exists t | t in tags :: ToLower(t) == "dhcp" }

  method FindDhcpTag(tags: seq<string>) returns (answer: bool)
    ensures answer <==> HasDhcpTag(tags)
  {
    answer := false;
    for i := 0 to |tags|
      invariant answer <==> exists t | t in tags[..i] :: ToLower(t) == "dhcp"
    {
      assert tags[..i + 1] == tags[..i] + [tags[i]];
      if ToLower(tags[i]) == "dhcp" { answer := true; }
    }
    assert tags[..|tags|] == tags;
  }

  method IsVlanInList(vid: int, vlans: seq<int>) returns (result: bool)
    ensures result <==> vid in vlans
  {
    result := false;
    for i := 0 to |vlans|
      invariant result <==> vid in vlans[..i]
    {
      if vlans[i] == vid { result := true; }
    }
  }

  predicate ValidVid(vid: int) { 1 <= vid <= 4094 }

  function AddrsOf(f: Iface): seq<Addr> { if f.addrs.Some? then f.addrs.value else [] }

  /** The prefix both compilers use for an address: the first one the query returns. */
  function Covering(a: Addr): (r: Option<Prefix>) {
    if a.query.QueryFailed? || a.query.prefixes == [] then None else Some(a.query.prefixes[0])
  }

  predicate ValidAddr(a: Addr) {
    && a.text != ""
    && (Covering(a).Some? && Covering(a).value.vlan.Some? ==> ValidVid(Covering(a).value.vlan.value.vid))
  }

  ghost predicate ValidIface(f: Iface) {
    && (forall v | v in f.tagged :: ValidVid(v))
    && (forall a | a in AddrsOf(f) :: ValidAddr(a))
  }

  /** NetBox accepts VLAN ids 1 to 4094 only (clause 9.6 of IEEE 802.1Q), and no empty address. */
  ghost predicate Valid(ifaces: seq<Iface>) {
    forall f | f in ifaces :: ValidIface(f)
  }

  predicate Listable(ifaces: seq<Iface>) { forall f | f in ifaces :: f.addrs.Some? }
}
