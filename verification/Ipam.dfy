/** NetBox IPAM: IPv4 networks, the stored collections, and the queries the program makes on them. */
module Ipam {
  import opened Basics
  import opened Text

  // ---------- IPv4 networks ----------

  datatype Net = Net(addr: nat, len: nat)
  type Cidr = n: Net | n.len <= 32 witness Net(0, 0)

  function Pow2(n: nat): (r: nat)
    ensures r > 0
  {
    if n == 0 then 1 else 2 * Pow2(n - 1)
  }

  /** Network `p` contains the whole of network `q`. */
  predicate Covers(p: Cidr, q: Cidr) {
    p.len <= q.len && p.addr / Pow2(32 - p.len) == q.addr / Pow2(32 - p.len)
  }

  function ParseOctet(s: string): (r: Option<nat>)
    ensures r.Some? ==> r.value <= 255
  {
    if IsDigits(s) && |s| <= 3 && (|s| == 1 || s[0] != '0') && DigitsValue(s) <= 255
    then Some(DigitsValue(s)) else None
  }

  /** Dotted-quad text, as accepted by Go's net package. */
  function ParseIPv4(s: string): (r: Option<nat>)
  {
    var parts := Split(s, '.');
    if |parts| != 4 then None
    else
      match (ParseOctet(parts[0]), ParseOctet(parts[1]), ParseOctet(parts[2]), ParseOctet(parts[3]))
      case (Some(a), Some(b), Some(c), Some(d)) => Some(((a * 256 + b) * 256 + c) * 256 + d)
      case _ => None
  }

  /** Text with a mask length; NetBox refuses to store anything else as an address or a prefix. */
  function ParseCIDR(s: string): (r: Option<Cidr>)
  {
    var parts := Split(s, '/');
    if |parts| != 2 || !IsDigits(parts[1]) || |parts[1]| > 2 || DigitsValue(parts[1]) > 32 then None
    else
      match ParseIPv4(parts[0])
      case Some(a) => Some(Net(a, DigitsValue(parts[1])))
      case None => None
  }

  /** The network meant by the text of a `contains` query. */
  function Locate(q: string): (r: Option<Cidr>)
  {
    if '/' in q then ParseCIDR(q)
    else
      match ParseIPv4(q)
      case Some(a) => Some(Net(a, 32))
      case None => None
  }

  /** Appending "/32" to bare IPv4 text names exactly the host that the bare text names. */
  lemma HostCidr(ip: string)
    ensures ParseCIDR(ip + "/32") == if '/' in ip then None else Locate(ip)
  {
    assert ip + "/32" == ip + ['/'] + "32";
    SplitConcat(ip, "32", '/');
    SplitWhole(ip, '/');
    SplitWhole("32", '/');
    assert "32"[..1] == "3" && "3"[..0] == "";
    assert DigitsValue("3") == 3 && DigitsValue("32") == 32;
  }

  // ---------- stored collections ----------

  // Collections are kept in the order of creation. The primary key of a record is its
  // position plus one, so a record keeps its key as long as nothing is deleted.

  datatype Group = Group(groupId: Int32, name: string)
  datatype Address = Address(text: string, dns: string, groupPk: int, status: string)
  datatype Prefix = Prefix(net: Cidr, domains: Option<string>)
  datatype Template = Template(name: string, port: int)
  datatype Service = Service(description: string, groupPk: int, name: string, port: int)

  datatype Store = Store(
    groups: seq<Group>,
    addresses: seq<Address>,
    prefixes: seq<Prefix>,
    templates: seq<Template>,
    services: seq<Service>
  )

  /** Position of the first address matched by the free-text search `q`. */
  function Search(addresses: seq<Address>, q: string): (i: nat)
    ensures i <= |addresses|
  {
    First(addresses, (a: Address) => Contains(a.text, q))
  }

  function FindGroup(groups: seq<Group>, name: string): (i: nat)
    ensures i <= |groups|
  {
    First(groups, (g: Group) => g.name == name)
  }

  /** The first of the longest prefixes that contain `q`. */
  function Best(prefixes: seq<Prefix>, q: Cidr): (r: Option<Prefix>)
    ensures r.Some? ==> r.value in prefixes && Covers(r.value.net, q)
  {
    if prefixes == [] then None
    else
      var p := prefixes[|prefixes| - 1];
      var b := Best(prefixes[..|prefixes| - 1], q);
      if Covers(p.net, q) && (b.None? || p.net.len > b.value.net.len) then Some(p) else b
  }

  /** `Best` is the longest match, and it exists whenever some prefix matches. */
  lemma {:induction false} BestIsLongest(prefixes: seq<Prefix>, q: Cidr, p: Prefix)
    requires p in prefixes && Covers(p.net, q)
    ensures Best(prefixes, q).Some? && p.net.len <= Best(prefixes, q).value.net.len
  {
    var init := prefixes[..|prefixes| - 1];
    if p in init {
      BestIsLongest(init, q, p);
    } else {
      assert p == prefixes[|prefixes| - 1];
    }
  }

  function BestFor(prefixes: seq<Prefix>, ip: string): (r: Option<Prefix>)
    ensures r.Some? ==> r.value in prefixes
  {
    if Locate(ip).None? then None else Best(prefixes, Locate(ip).value)
  }

  /** The Domains field that governs an address: that of its longest prefix. */
  function DomainsOf(prefixes: seq<Prefix>, ip: string): (r: Option<string>)
  {
    match BestFor(prefixes, ip)
    case Some(p) => p.domains
    case None => None
  }

  lemma BestAppend(prefixes: seq<Prefix>, p: Prefix, q: Cidr)
    ensures Best(prefixes + [p], q) ==
            var b := Best(prefixes, q);
            if Covers(p.net, q) && (b.None? || p.net.len > b.value.net.len) then Some(p) else b
  {
  }

  lemma HostCoversItself(h: Cidr, q: Cidr)
    requires h.len == 32
    ensures Covers(h, q) <==> q == h
  {
  }

  /** A host prefix added for an address that no prefix covers changes the domains of no address. */
  lemma HostPrefixIsNeutral(prefixes: seq<Prefix>, host: string, ip: string)
    requires ParseCIDR(host + "/32").Some?
    requires BestFor(prefixes, host).None?
    ensures DomainsOf(prefixes + [Prefix(ParseCIDR(host + "/32").value, None)], ip) == DomainsOf(prefixes, ip)
  {
    HostCidr(host);
    var h := Locate(host);
    if Locate(ip).Some? {
      HostCoversItself(h.value, Locate(ip).value);
      BestAppend(prefixes, Prefix(h.value, None), Locate(ip).value);
    }
  }
}
