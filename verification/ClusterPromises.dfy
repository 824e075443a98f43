/**
 Three promises of the write-back that hold only under a condition: that the first address of
 the annotation is synchronised, that a wanted address exists afterwards, and that it is
 assigned to the cluster's group. Each has its exact condition and an input on which it fails.
 */
module ClusterPromises {
  import opened Basics
  import opened Text
  import opened Faults
  import opened Ipam
  import opened ClusterSync
  import opened ClusterEvolution
  import opened ClusterIdempotence
  import opened ClusterOwnership
  import opened ClusterShow
  import opened ClusterMeaning

  // ---------- substrings ----------

  /** `q` stands in `s` at position `k`. */
  predicate At(s: string, q: string, k: nat) { k + |q| <= |s| && s[k..k + |q|] == q }

  lemma {:induction false} ContainsAt(s: string, q: string) returns (k: nat)
    requires Contains(s, q)
    ensures At(s, q, k)
  {
    if q <= s {
      k := 0;
    } else {
      var j := ContainsAt(s[1..], q);
      k := j + 1;
      assert s[1..][j..j + |q|] == s[k..k + |q|];
    }
  }

  lemma {:induction false} AtContains(s: string, q: string, k: nat)
    requires At(s, q, k)
    ensures Contains(s, q)
  {
    if k > 0 {
      assert s[1..][k - 1..k - 1 + |q|] == s[k..k + |q|];
      AtContains(s[1..], q, k - 1);
    }
  }

  lemma ContainsTransitive(s: string, q: string, r: string)
    requires Contains(s, q) && Contains(q, r)
    ensures Contains(s, r)
  {
    var i := ContainsAt(s, q);
    var j := ContainsAt(q, r);
    forall m | 0 <= m < |r| ensures s[i + j + m] == r[m] {
      assert s[i..i + |q|][j + m] == q[j + m] && q[j..j + |r|][m] == r[m];
    }
    assert s[i + j..i + j + |r|] == r;
    AtContains(s, r, i + j);
  }

  lemma AddressTextContains(ip: string)
    ensures Contains(AddressText(ip), ip)
  {
    assert ip <= AddressText(ip);
  }

  lemma MaskInside(x: string, ip: string, k: nat)
    requires At(x + "/32", ip, k) && k <= |x| < k + |ip|
    ensures '/' in ip
  {
    assert (x + "/32")[k..k + |ip|][|x| - k] == '/';
  }

  /** A bare address that stands in the text of another one stands in the part before the mask. */
  lemma BareInAddressText(x: string, ip: string)
    requires '/' !in ip && Locate(ip).Some? && Contains(AddressText(x), ip)
    ensures Contains(x, ip)
  {
    if '/' !in x {
      var k := ContainsAt(x + "/32", ip);
      SplitWhole(ip, '.');
      var j :| 0 <= j < |ip| && ip[j] == '.';
      assert (x + "/32")[k..k + |ip|][j] == '.';
      if k + |ip| > |x| {
        MaskInside(x, ip, k);
      }
      assert x[k..k + |ip|] == (x + "/32")[k..k + |ip|];
      AtContains(x, ip, k);
    }
  }

  // ---------- the stored texts, without the store ----------

  function Texts(rows: seq<Address>): (ts: seq<string>)
    ensures |ts| == |rows| && forall i | 0 <= i < |ts| :: ts[i] == rows[i].text
  {
    seq(|rows|, i requires 0 <= i < |rows| => rows[i].text)
  }

  predicate Found(texts: seq<string>, ip: string) { exists i | 0 <= i < |texts| :: Contains(texts[i], ip) }

  /** The texts after looking for each address in turn and adding the ones that are not found. */
  function Filled(texts: seq<string>, ips: seq<string>): (ts: seq<string>)
    decreases |ips|
  {
    if ips == [] then texts
    else Filled(if Found(texts, ips[0]) then texts else texts + [AddressText(ips[0])], ips[1..])
  }

  /** The first entry of the annotation, unless it is blank. */
  function GivenCilium(env: Env, c: Cluster): seq<string> {
    var i := Plane(env, c.name);
    if i == |env.planes| || env.planes[i].annotations.Unreadable? then []
    else
      var first := TrimSpace(PlaneEntries(env.planes[i])[0]);
      if first == "" then [] else [first]
  }

  function GivenTailscale(env: Env, c: Cluster): seq<string> {
    var d := TailscaleOf(env, c.name);
    if d.Some? && d.value.ip != "" then [d.value.ip] else []
  }

  function GivenBy(env: Env, c: Cluster): seq<string> {
    if c.kind == Managed then GivenCilium(env, c) + GivenTailscale(env, c) else []
  }

  /** The addresses the clusters give out, in the order in which a run looks for them. */
  function Given(env: Env, cs: seq<Cluster>): (ips: seq<string>) {
    if cs == [] then [] else (if Reachable(env, cs[0]) then GivenBy(env, cs[0]) else []) + Given(env, cs[1..])
  }

  lemma SearchFinds(rows: seq<Address>, ip: string)
    ensures Search(rows, ip) < |rows| <==> Found(Texts(rows), ip)
  {
    var i := Search(rows, ip);
    if i < |rows| {
      assert Contains(Texts(rows)[i], ip);
    }
  }

  lemma {:induction false} FilledConcat(texts: seq<string>, a: seq<string>, b: seq<string>)
    ensures Filled(texts, a + b) == Filled(Filled(texts, a), b)
    decreases |a|
  {
    if a == [] {
      assert a + b == b;
    } else {
      assert (a + b)[1..] == a[1..] + b;
      FilledConcat(if Found(texts, a[0]) then texts else texts + [AddressText(a[0])], a[1..], b);
    }
  }

  lemma EnsureAddressTexts(env: Env, w: World, ip: string, groupPk: nat, dns: string)
    ensures var w' := EnsureAddress(env, w, ip, groupPk, dns).0;
            !w'.clock.failed ==> Texts(w'.store.addresses) == Filled(Texts(w.store.addresses), [ip])
  {
    var w' := EnsureAddress(env, w, ip, groupPk, dns).0;
    var rows, rows' := w.store.addresses, w'.store.addresses;
    SearchFinds(rows, ip);
    assert [ip][1..] == [];
    if !w'.clock.failed {
      assert Texts(rows') == if Found(Texts(rows), ip) then Texts(rows) else Texts(rows) + [AddressText(ip)];
    }
  }

  lemma SyncCiliumTexts(env: Env, w: World, c: Cluster, host: string, r: Report)
    ensures var w' := SyncCilium(env, w, c, host, r).0;
            !w'.clock.failed ==> Texts(w'.store.addresses) == Filled(Texts(w.store.addresses), GivenCilium(env, c))
  {
    var w1 := w.(clock := w.clock.Tick());
    var ip := CiliumIP(env, c.name);
    if ip.Some? && ip.value != "" {
      var (w2, dns) := ReadDns(env, w1, c, host, ip.value);
      EnsureAddressTexts(env, w2, ip.value, r.groupPk, dns);
    }
  }

  lemma SyncTailscaleTexts(env: Env, w: World, c: Cluster, r: Report)
    requires 1 <= r.groupPk <= |w.store.groups|
    ensures var w' := SyncTailscale(env, w, c, r).0;
            !w'.clock.failed ==> Texts(w'.store.addresses) == Filled(Texts(w.store.addresses), GivenTailscale(env, c))
  {
    var (clock, device) := ReadTailscale(env, w.clock, c.name);
    var w1 := w.(clock := clock);
    if device.Some? && device.value.ip != "" {
      var d := device.value;
      var w2 := EnsurePrefix(w1, d.ip);
      EnsurePrefixEvolves(env, w1, d.ip);
      EnsureAddressEvolves(env, w2, d.ip, r.groupPk, d.fqdn);
      EnsureAddressTexts(env, w2, d.ip, r.groupPk, d.fqdn);
    }
  }

  lemma ServiceKeepsAddresses(w: World, c: Cluster, port: int, r: Report)
    ensures SyncService(w, c, port, r).0.store.addresses == w.store.addresses
  {
  }

  /** The Cilium and Tailscale stages together. */
  lemma SyncAddressesTexts(env: Env, w: World, c: Cluster, host: string, r: Report)
    requires 1 <= r.groupPk <= |w.store.groups|
    ensures var (w1, r1) := SyncCilium(env, w, c, host, r);
            var w2 := SyncTailscale(env, w1, c, r1).0;
            && Later(w1.clock, w2.clock)
            && (!w2.clock.failed ==>
                  Texts(w2.store.addresses) == Filled(Texts(w.store.addresses), GivenCilium(env, c) + GivenTailscale(env, c)))
  {
    var (w1, r1) := SyncCilium(env, w, c, host, r);
    SyncCiliumOk(env, w, c, host, r);
    SyncCiliumTexts(env, w, c, host, r);
    SyncTailscaleOk(env, w1, c, r1);
    SyncTailscaleTexts(env, w1, c, r1);
    FilledConcat(Texts(w.store.addresses), GivenCilium(env, c), GivenTailscale(env, c));
  }

  lemma ServiceLater(w: World, c: Cluster, port: int, r: Report)
    ensures Later(w.clock, SyncService(w, c, port, r).0.clock)
  {
  }

  lemma SyncEndpointTexts(env: Env, w: World, c: Cluster, e: Endpoint, r: Report)
    requires 1 <= r.groupPk <= |w.store.groups| && r.error.None?
    ensures var w' := SyncEndpoint(env, w, c, e, r).0;
            !w'.clock.failed ==> Texts(w'.store.addresses) == Filled(Texts(w.store.addresses), GivenBy(env, c))
  {
    if c.kind != Managed {
      ServiceKeepsAddresses(w, c, e.port, r);
    } else {
      CiliumReported(env, w, c, e.host, r);
      SyncAddressesTexts(env, w, c, e.host, r);
      var (w1, r1) := SyncCilium(env, w, c, e.host, r);
      var (w2, r2) := SyncTailscale(env, w1, c, r1);
      ServiceLater(w2, c, e.port, r2);
      ServiceKeepsAddresses(w2, c, e.port, r2);
    }
  }

  lemma EnsureGroupKeepsAddresses(w: World, name: string, next: Int32)
    ensures EnsureGroup(w, name, next).0.store.addresses == w.store.addresses
  {
  }

  lemma SyncFoundTexts(env: Env, w: World, c: Cluster, e: Endpoint, next: Int32)
    ensures var w' := SyncFound(env, w, c, e, next).w;
            !w'.clock.failed ==> Texts(w'.store.addresses) == Filled(Texts(w.store.addresses), GivenBy(env, c))
  {
    var (w1, group) := EnsureGroup(w, c.name, next);
    EnsureGroupOk(env, w, c.name, next);
    EnsureGroupFinds(w, c.name, next);
    EnsureGroupKeepsAddresses(w, c.name, next);
    if group.Record? {
      SyncEndpointTexts(env, w1, c, e, NewReport(c.name).(groupPk := group.pk, updated := group.created));
    }
  }

  lemma SyncClusterTexts(env: Env, w: World, c: Cluster, next: Int32)
    ensures var w' := SyncCluster(env, w, c, next).w;
            !w'.clock.failed ==>
              Texts(w'.store.addresses) == Filled(Texts(w.store.addresses), if Reachable(env, c) then GivenBy(env, c) else [])
  {
    if c.kind != OtherKind {
      var (clock, e) := ReadEndpoint(env, w.clock, c);
      ReadEndpointSays(env, w.clock, c);
      if e.Some? {
        SyncFoundTexts(env, w.(clock := clock), c, e.value, next);
      }
    }
  }

  /** A loop in which no call failed stores exactly the addresses of a look-and-add pass over the given ones. */
  lemma {:induction false} SyncAllTexts(env: Env, w: World, cs: seq<Cluster>, next: Int32)
    ensures var w' := SyncAll(env, w, cs, next).w;
            !w'.clock.failed ==> Texts(w'.store.addresses) == Filled(Texts(w.store.addresses), Given(env, cs))
    decreases |cs|
  {
    if cs != [] {
      var s1 := SyncCluster(env, w, cs[0], next);
      SyncClusterTexts(env, w, cs[0], next);
      SyncAllTexts(env, s1.w, cs[1..], s1.next);
      SyncAllOk(env, s1.w, cs[1..], s1.next);
      FilledConcat(Texts(w.store.addresses), if Reachable(env, cs[0]) then GivenBy(env, cs[0]) else [], Given(env, cs[1..]));
    }
  }

  lemma RunTexts(env: Env, w: World, names: seq<string>)
    requires !SyncStatus(env, w, names).0.clock.failed
    ensures Texts(SyncStatus(env, w, names).0.store.addresses)
            == Filled(Texts(w.store.addresses), Given(env, Selected(env.clusters, names)))
  {
    SyncAllTexts(env, w.(clock := w.clock.Tick().Tick()), Selected(env.clusters, names), NextGroupId(w.store.groups));
  }

  // ---------- which addresses are found afterwards ----------

  lemma FoundAppend(texts: seq<string>, t: string, ip: string)
    ensures Found(texts + [t], ip) <==> Found(texts, ip) || Contains(t, ip)
  {
    assert (texts + [t])[|texts|] == t;
    assert forall i | 0 <= i < |texts| :: (texts + [t])[i] == texts[i];
  }

  lemma FoundTransitive(texts: seq<string>, x: string, ip: string)
    requires Found(texts, x) && Contains(x, ip)
    ensures Found(texts, ip)
  {
    var i :| 0 <= i < |texts| && Contains(texts[i], x);
    ContainsTransitive(texts[i], x, ip);
  }

  lemma FilledStep(texts: seq<string>, x: string, ip: string)
    requires '/' !in ip && Locate(ip).Some?
    ensures Found(if Found(texts, x) then texts else texts + [AddressText(x)], ip) <==> Found(texts, ip) || Contains(x, ip)
  {
    if Found(texts, x) {
      if Contains(x, ip) { FoundTransitive(texts, x, ip); }
    } else {
      FoundAppend(texts, AddressText(x), ip);
      if Contains(AddressText(x), ip) {
        BareInAddressText(x, ip);
      } else if Contains(x, ip) {
        AddressTextContains(x);
        ContainsTransitive(AddressText(x), x, ip);
      }
    }
  }

  lemma FoundCons(ips: seq<string>, ip: string)
    requires ips != []
    ensures Found(ips, ip) <==> Contains(ips[0], ip) || Found(ips[1..], ip)
  {
    assert forall i | 0 < i < |ips| :: ips[i] == ips[1..][i - 1];
  }

  /** A bare address is found afterwards exactly when it was before or stands in a given one. */
  lemma {:induction false} FilledFinds(texts: seq<string>, ips: seq<string>, ip: string)
    requires '/' !in ip && Locate(ip).Some?
    ensures Found(Filled(texts, ips), ip) <==> Found(texts, ip) || Found(ips, ip)
    decreases |ips|
  {
    if ips != [] {
      var next := if Found(texts, ips[0]) then texts else texts + [AddressText(ips[0])];
      FilledStep(texts, ips[0], ip);
      FilledFinds(next, ips[1..], ip);
      FoundCons(ips, ip);
    }
  }

  // ---------- the first address of the annotation ----------

  /** Position of the first entry that is not blank. */
  function FirstEntry(entries: seq<string>): (i: nat)
    ensures i <= |entries|
    ensures i < |entries| ==> TrimSpace(entries[i]) != ""
  {
    First(entries, (e: string) => TrimSpace(e) != "")
  }

  /** The promise: what is written for the annotation is its first address. */
  function FirstAddress(env: Env, name: string): (ip: Option<string>) {
    var i := Plane(env, name);
    if i == |env.planes| then None
    else
      var entries := PlaneEntries(env.planes[i]);
      if FirstEntry(entries) < |entries| then Some(TrimSpace(entries[FirstEntry(entries)])) else None
  }

  /** The first address stands in the very first entry, with no blank entry in front. */
  predicate StandsFirst(env: Env, name: string) {
    var i := Plane(env, name);
    i < |env.planes| && PlaneEntries(env.planes[i]) != [] && FirstEntry(PlaneEntries(env.planes[i])) == 0
  }

  lemma CiliumWhenFirst(env: Env, name: string)
    requires FirstAddress(env, name).Some?
    ensures CiliumIP(env, name) == Some(if StandsFirst(env, name) then FirstAddress(env, name).value else "")
  {
  }

  lemma StageFinds(env: Env, w: World, ip: string, groupPk: nat, dns: string)
    requires w.clock.Reliable() && ParseCIDR(AddressText(ip)).Some?
    ensures var after := EnsureAddress(env, w, ip, groupPk, dns).0.store.addresses; Search(after, ip) < |after|
  {
    var rows, after := w.store.addresses, EnsureAddress(env, w, ip, groupPk, dns).0.store.addresses;
    if Search(rows, ip) == |rows| {
      AddressTextContains(ip);
      assert Contains(after[|rows|].text, ip);
    } else {
      assert forall j | 0 <= j < |rows| :: after[j].text == rows[j].text;
      assert Contains(after[Search(rows, ip)].text, ip);
    }
  }

  /**
   One stage without failures: the first address is found afterwards exactly when it was before or
   it stands in the very first entry.
   */
  lemma FirstAddressWritten(env: Env, w: World, c: Cluster, host: string, r: Report)
    requires w.clock.Reliable() && FirstAddress(env, c.name).Some?
    requires ParseCIDR(AddressText(FirstAddress(env, c.name).value)).Some?
    ensures var ip := FirstAddress(env, c.name).value;
            var before, after := w.store.addresses, SyncCilium(env, w, c, host, r).0.store.addresses;
            Search(after, ip) < |after| <==> Search(before, ip) < |before| || StandsFirst(env, c.name)
  {
    CiliumWhenFirst(env, c.name);
    if StandsFirst(env, c.name) {
      var ip := FirstAddress(env, c.name).value;
      var (w2, dns) := ReadDns(env, w.(clock := w.clock.Tick()), c, host, ip);
      StageFinds(env, w2, ip, r.groupPk, dns);
    }
  }

  /** Without an address to write, because every entry is blank or the annotations cannot be read, nothing is written. */
  lemma NothingWritten(env: Env, w: World, c: Cluster, host: string, r: Report)
    requires FirstAddress(env, c.name).None?
    ensures var (w', r') := SyncCilium(env, w, c, host, r); w'.store == w.store && r' == r
  {
    var i := Plane(env, c.name);
    if i < |env.planes| && env.planes[i].annotations.Annotations? {
      assert TrimSpace(PlaneEntries(env.planes[i])[0]) == "";
    }
  }

  /** The row of an entry says whether the table can find it. */
  ghost predicate ShownAs(env: Env, s: Store, clock: Clock, shown: seq<string>, name: string, ip: string, known: bool) {
    exists row | row in ShowPlanes(env, clock, s, env.planes, shown).rows ::
      row.cluster == name && row.ip == ip && row.source == CiliumSource && row.known == known
  }

  lemma FirstAddressShown(env: Env, s: Store, clock: Clock, shown: seq<string>, name: string)
    requires clock.Reliable() && FirstAddress(env, name).Some? && Picked(shown, name)
    ensures var ip := FirstAddress(env, name).value;
            ShownAs(env, s, clock, shown, name, ip, Search(s.addresses, ip) < |s.addresses|)
  {
    var i := Plane(env, name);
    var entries := PlaneEntries(env.planes[i]);
    EntryShown(env, clock, s, env.planes, shown, i, FirstEntry(entries));
    var ip := FirstAddress(env, name).value;
    assert StatusRow(s, name, ip, CiliumSource, ip) in ShowPlanes(env, clock, s, env.planes, shown).rows;
  }

  /**
   The whole way from a run in which no call failed to the table: the first address of an annotation
   is shown as assigned exactly when looking for the given addresses, one after the other, makes it
   findable. Given are only the very first entry of each annotation and the Tailscale addresses, so
   a bare address is shown exactly when it was findable before or stands in a given one.
   */
  lemma FirstAddressShownIff(env: Env, w: World, names: seq<string>, clock: Clock, shown: seq<string>, name: string)
    requires clock.Reliable() && !SyncStatus(env, w, names).0.clock.failed
    requires FirstAddress(env, name).Some? && Picked(shown, name)
    ensures var ip, texts, given := FirstAddress(env, name).value, Texts(w.store.addresses), Given(env, Selected(env.clusters, names));
            && ShownAs(env, SyncStatus(env, w, names).0.store, clock, shown, name, ip, Found(Filled(texts, given), ip))
            && ('/' !in ip && Locate(ip).Some? ==> (Found(Filled(texts, given), ip) <==> Found(texts, ip) || Found(given, ip)))
  {
    var ip := FirstAddress(env, name).value;
    var s := SyncStatus(env, w, names).0.store;
    RunTexts(env, w, names);
    if '/' !in ip && Locate(ip).Some? {
      FilledFinds(Texts(w.store.addresses), Given(env, Selected(env.clusters, names)), ip);
    }
    SearchFinds(s.addresses, ip);
    FirstAddressShown(env, s, clock, shown, name);
  }

  // ---------- an annotation whose first address is never written ----------

  const LATE_CLUSTER := Cluster(1, "late", Managed)

  const LATE_PLANE := ControlPlane("late", Annotations(map[CILIUM_IPS := ",10.0.0.1"]))

  /** One managed cluster with an endpoint, whose annotation starts with a comma. */
  const LATE := Env([LATE_CLUSTER], map[], map[], map["late" := CapiCluster("k8s.example.org", None)], [LATE_PLANE], map[], map[], _ => false)

  lemma LeadingComma(ip: string)
    requires ',' !in ip
    ensures Split("," + ip, ',') == ["", ip]
  {
    assert "" + [','] + ip == "," + ip;
    SplitConcat("", ip, ',');
    SplitWhole(ip, ',');
  }

  lemma LateEntries()
    ensures PlaneEntries(LATE_PLANE) == ["", "10.0.0.1"] && TrimSpace("10.0.0.1") == "10.0.0.1"
  {
    LeadingComma("10.0.0.1");
    assert "," + "10.0.0.1" == ",10.0.0.1";
  }

  lemma LateGives()
    ensures Plane(LATE, "late") == 0 && CiliumIP(LATE, "late") == Some("") && TailscaleOf(LATE, "late") == Some(NO_DEVICE)
  {
    LateEntries();
    assert TAILSCALE_EXPOSE !in LATE_PLANE.annotations.values by {
      assert TAILSCALE_EXPOSE[0] != CILIUM_IPS[0];
    }
  }

  lemma LateFirst()
    ensures FirstAddress(LATE, "late") == Some("10.0.0.1")
  {
    LateEntries();
    LateGives();
    var entries := PlaneEntries(LATE_PLANE);
    assert TrimSpace(entries[0]) == "" && TrimSpace(entries[1]) != "";
    assert FirstEntry(entries) == 1;
  }

  lemma LateExposesNothing(groups: seq<Group>, cs: seq<Cluster>, a: Address)
    requires forall c | c in cs :: c == LATE_CLUSTER
    ensures !Placed(LATE, groups, cs, a)
  {
    LateGives();
  }

  lemma LateWritesNothing(run: Run)
    requires run.env == LATE
    ensures After(Store([], [], [], [], []), run).addresses == []
  {
    var t := After(Store([], [], [], [], []), run);
    RunWritesForItsClusters(Store([], [], [], [], []), run);
    if t.addresses != [] {
      LateExposesNothing(t.groups, Selected(LATE.clusters, run.names), t.addresses[0]);
    }
  }

  /** Whatever the run, from an empty NetBox: 10.0.0.1 is the first address, and the table shows it as unassigned. */
  lemma LateExample(run: Run, clock: Clock)
    requires run.env == LATE && clock.Reliable()
    ensures FirstAddress(LATE, "late") == Some("10.0.0.1")
    ensures ShownAs(LATE, After(Store([], [], [], [], []), run), clock, [], "late", "10.0.0.1", false)
  {
    LateFirst();
    LateWritesNothing(run);
    FirstAddressShown(LATE, After(Store([], [], [], [], []), run), clock, [], "late");
  }

  // ---------- that the address exists, and in which group ----------

  /** The host that the text of an address names. */
  function HostOf(text: string): (h: Option<nat>) {
    match ParseCIDR(text)
    case None => None
    case Some(net) => Some(net.addr)
  }

  predicate Names(text: string, ip: string) { HostOf(text) == HostOf(AddressText(ip)) }

  predicate Recorded(rows: seq<Address>, ip: string) { exists i | 0 <= i < |rows| :: Names(rows[i].text, ip) }

  predicate Assigned(rows: seq<Address>, ip: string, groupPk: int) {
    exists i | 0 <= i < |rows| :: Names(rows[i].text, ip) && rows[i].groupPk == groupPk
  }

  /** The rows differ in nothing but their DNS names. */
  ghost predicate SamePlaces(rows: seq<Address>, rows': seq<Address>) {
    |rows'| == |rows| && forall i | 0 <= i < |rows| :: rows'[i].text == rows[i].text && rows'[i].groupPk == rows[i].groupPk
  }

  lemma SamePlacesRecord(rows: seq<Address>, rows': seq<Address>, ip: string, groupPk: int)
    requires SamePlaces(rows, rows')
    ensures Recorded(rows', ip) <==> Recorded(rows, ip)
    ensures Assigned(rows', ip, groupPk) <==> Assigned(rows, ip, groupPk)
  {
    if Recorded(rows', ip) {
      var i :| 0 <= i < |rows'| && Names(rows'[i].text, ip);
      assert Names(rows[i].text, ip);
    }
    if Assigned(rows', ip, groupPk) {
      var i :| 0 <= i < |rows'| && Names(rows'[i].text, ip) && rows'[i].groupPk == groupPk;
      assert Names(rows[i].text, ip) && rows[i].groupPk == groupPk;
    }
    if Recorded(rows, ip) {
      var i :| 0 <= i < |rows| && Names(rows[i].text, ip);
      assert Names(rows'[i].text, ip);
    }
    if Assigned(rows, ip, groupPk) {
      var i :| 0 <= i < |rows| && Names(rows[i].text, ip) && rows[i].groupPk == groupPk;
      assert Names(rows'[i].text, ip) && rows'[i].groupPk == groupPk;
    }
  }

  lemma AddedIsRecorded(rows: seq<Address>, a: Address, ip: string)
    requires a.text == AddressText(ip)
    ensures Recorded(rows + [a], ip) && Assigned(rows + [a], ip, a.groupPk)
  {
    assert (rows + [a])[|rows|] == a && Names(a.text, ip);
  }

  /** A reliable call adds the address when the search finds nothing, and at most names a record otherwise. */
  lemma EnsureAddressRows(env: Env, w: World, ip: string, groupPk: nat, dns: string)
    requires w.clock.Reliable() && ParseCIDR(AddressText(ip)).Some?
    ensures var rows, rows' := w.store.addresses, EnsureAddress(env, w, ip, groupPk, dns).0.store.addresses;
            if Search(rows, ip) < |rows| then SamePlaces(rows, rows')
            else rows' == rows + [Address(AddressText(ip), if IsHostname(env, dns) then dns else "", groupPk, "active")]
  {
  }

  /**
   getOrCreateIPAddress promises that the address exists afterwards and is assigned to the group.
   Without failures it exists exactly when the host was recorded before or the search finds
   nothing, and it is assigned to the group exactly when it was before or the search finds nothing:
   a record that is found is never reassigned.
   */
  lemma EnsureAddressPromises(env: Env, w: World, ip: string, groupPk: nat, dns: string)
    requires w.clock.Reliable() && ParseCIDR(AddressText(ip)).Some?
    ensures var rows, rows' := w.store.addresses, EnsureAddress(env, w, ip, groupPk, dns).0.store.addresses;
            var unfound := Search(rows, ip) == |rows|;
            && (Recorded(rows', ip) <==> Recorded(rows, ip) || unfound)
            && (Assigned(rows', ip, groupPk) <==> Assigned(rows, ip, groupPk) || unfound)
  {
    var rows, rows' := w.store.addresses, EnsureAddress(env, w, ip, groupPk, dns).0.store.addresses;
    EnsureAddressRows(env, w, ip, groupPk, dns);
    if Search(rows, ip) < |rows| {
      SamePlacesRecord(rows, rows', ip, groupPk);
    } else {
      AddedIsRecorded(rows, rows'[|rows|], ip);
    }
  }

  // ---------- a search that finds another address ----------

  lemma Octets()
    ensures ParseOctet("10") == Some(10) && ParseOctet("0") == Some(0) && ParseOctet("1") == Some(1)
  {
    assert "10"[..1] == "1" && "1"[..0] == "" && "0"[..0] == "";
    assert DigitsValue("") == 0 && DigitsValue("1") == 1 && DigitsValue("0") == 0 && DigitsValue("10") == 10;
  }

  lemma DottedQuad(a: string, b: string, c: string, d: string)
    requires '.' !in a && '.' !in b && '.' !in c && '.' !in d
    ensures Split(a + "." + (b + "." + (c + "." + d)), '.') == [a, b, c, d]
  {
    SplitWhole(a, '.');
    SplitWhole(b, '.');
    SplitWhole(c, '.');
    SplitWhole(d, '.');
    SplitConcat(c, d, '.');
    SplitConcat(b, c + "." + d, '.');
    SplitConcat(a, b + "." + (c + "." + d), '.');
  }

  lemma Parsed(a: string, b: string, c: string, d: string)
    requires '.' !in a && '.' !in b && '.' !in c && '.' !in d
    requires ParseOctet(a).Some? && ParseOctet(b).Some? && ParseOctet(c).Some? && ParseOctet(d).Some?
    ensures ParseIPv4(a + "." + (b + "." + (c + "." + d)))
            == Some(((ParseOctet(a).value * 256 + ParseOctet(b).value) * 256 + ParseOctet(c).value) * 256 + ParseOctet(d).value)
  {
    DottedQuad(a, b, c, d);
  }

  lemma HostOfBare(ip: string)
    requires '/' !in ip
    ensures HostOf(AddressText(ip)) == ParseIPv4(ip)
  {
    HostCidr(ip);
  }

  /** Any stored address whose text contains another one hides it. */
  lemma Hidden(env: Env, w: World, stored: Address, ip: string, groupPk: nat, dns: string)
    requires w.clock.Reliable() && w.store.addresses == [stored] && Contains(stored.text, ip)
    requires ParseCIDR(AddressText(ip)).Some?
    ensures EnsureAddress(env, w, ip, groupPk, dns).1.Record?
    ensures var rows := EnsureAddress(env, w, ip, groupPk, dns).0.store.addresses;
            && (!Names(stored.text, ip) ==> !Recorded(rows, ip))
            && (stored.groupPk != groupPk ==> !Assigned(rows, ip, groupPk))
  {
    assert Contains(w.store.addresses[0].text, ip);
    EnsureAddressPromises(env, w, ip, groupPk, dns);
  }

  const TEN := "10.0.0.10"
  const ONE := "10.0.0.1"

  lemma Spelled()
    ensures "10" + "." + ("0" + "." + ("0" + "." + "10")) == TEN && '/' !in TEN
    ensures "10" + "." + ("0" + "." + ("0" + "." + "1")) == ONE && '/' !in ONE
  {
  }

  lemma ParsedTen()
    ensures ParseIPv4("10" + "." + ("0" + "." + ("0" + "." + "10"))) == Some(0x0A00_000A)
  {
    Octets();
    Parsed("10", "0", "0", "10");
  }

  lemma ParsedOne()
    ensures ParseIPv4("10" + "." + ("0" + "." + ("0" + "." + "1"))) == Some(0x0A00_0001)
  {
    Octets();
    Parsed("10", "0", "0", "1");
  }

  lemma HostTen()
    ensures HostOf(AddressText(TEN)) == Some(0x0A00_000A)
  {
    ParsedTen();
    Spelled();
    HostOfBare(TEN);
  }

  lemma HostOne()
    ensures HostOf(AddressText(ONE)) == Some(0x0A00_0001)
  {
    ParsedOne();
    Spelled();
    HostOfBare(ONE);
  }

  lemma OneInTen()
    ensures Contains(AddressText(TEN), ONE)
  {
    assert ONE <= TEN <= AddressText(TEN);
  }

  lemma DifferentHosts()
    ensures ParseCIDR(AddressText(ONE)).Some? && !Names(AddressText(TEN), ONE)
  {
    HostTen();
    HostOne();
  }

  /** A stored 10.0.0.10/32 hides the missing 10.0.0.1: the free-text search takes one for the other. */
  lemma ShadowedAddress(env: Env, w: World, groupPk: nat, dns: string)
    requires w.clock.Reliable() && w.store.addresses == [Address(AddressText(TEN), "", 1, "active")]
    ensures !Recorded(EnsureAddress(env, w, ONE, groupPk, dns).0.store.addresses, ONE)
    ensures EnsureAddress(env, w, ONE, groupPk, dns).1.Record?
  {
    DifferentHosts();
    OneInTen();
    Hidden(env, w, w.store.addresses[0], ONE, groupPk, dns);
  }

  /** And 10.0.0.1/32 recorded under group 1 stays there when group 2 wants it. */
  lemma KeptAssignment(env: Env, w: World, dns: string)
    requires w.clock.Reliable() && w.store.addresses == [Address(AddressText(ONE), "", 1, "active")]
    ensures !Assigned(EnsureAddress(env, w, ONE, 2, dns).0.store.addresses, ONE, 2)
  {
    DifferentHosts();
    AddressTextContains(ONE);
    Hidden(env, w, w.store.addresses[0], ONE, 2, dns);
  }
}
