/**
 What every run of the write-back keeps, whichever calls fail: stored records are never
 lost or renamed, a DNS name is written once, references resolve, group ids come from one
 consecutive block, and a report says Updated exactly when its iteration changed something.
 */
module ClusterEvolution {
  import opened Basics
  import opened Faults
  import opened Ipam
  import opened ClusterSync

  // ---------- the relation between an earlier and a later store ----------

  /** Row `i` of the later store is row `i` of the earlier one, with its DNS name possibly filled in. */
  predicate AddressKept(env: Env, a: Address, b: Address) {
    b == a || (a.dns == "" && IsHostname(env, b.dns) && b == a.(dns := b.dns))
  }

  predicate AddressSound(env: Env, a: Address, groups: nat) {
    && (a.dns == "" || IsHostname(env, a.dns))
    && 1 <= a.groupPk <= groups
    && ParseCIDR(a.text).Some?
  }

  ghost predicate AddressesGrow(env: Env, s: Store, t: Store) {
    && |s.addresses| <= |t.addresses|
    && (forall i | 0 <= i < |s.addresses| :: AddressKept(env, s.addresses[i], t.addresses[i]))
    && (forall i | |s.addresses| <= i < |t.addresses| :: AddressSound(env, t.addresses[i], |t.groups|))
  }

  ghost predicate PrefixesGrow(s: Store, t: Store) {
    && s.prefixes <= t.prefixes
    && (forall ip: string :: DomainsOf(t.prefixes, ip) == DomainsOf(s.prefixes, ip))
  }

  ghost predicate ServicesGrow(s: Store, t: Store) {
    && s.services <= t.services
    && (forall i | |s.services| <= i < |t.services| :: 1 <= t.services[i].groupPk <= |t.groups|)
  }

  /** Everything that holds between the store before and the store after any stretch of a run. */
  ghost predicate Evolves(env: Env, s: Store, t: Store) {
    && s.groups <= t.groups
    && s.templates <= t.templates
    && AddressesGrow(env, s, t)
    && PrefixesGrow(s, t)
    && ServicesGrow(s, t)
  }

  lemma EvolvesTransitive(env: Env, s: Store, t: Store, u: Store)
    requires Evolves(env, s, t) && Evolves(env, t, u)
    ensures Evolves(env, s, u)
  {
  }

  /** The collections whose change a report must announce. */
  predicate Changed(s: Store, t: Store) {
    !(t.groups == s.groups && t.addresses == s.addresses && t.templates == s.templates && t.services == s.services)
  }

  /** A change is never undone later. */
  lemma ChangedStays(env: Env, s: Store, t: Store, u: Store)
    requires Evolves(env, s, t) && Evolves(env, t, u)
    ensures Changed(s, u) <==> Changed(s, t) || Changed(t, u)
  {
  }

  /** What one stage guarantees about the store, the clock and the report it extends. */
  ghost predicate StageOk(env: Env, w: World, r: Report, w': World, r': Report) {
    && Evolves(env, w.store, w'.store)
    && Later(w.clock, w'.clock)
    && (r'.updated <==> r.updated || Changed(w.store, w'.store))
    && r'.groupPk == r.groupPk && r'.cluster == r.cluster
    && w'.store.groups == w.store.groups
  }

  lemma StagesCompose(env: Env, w: World, r: Report, w1: World, r1: Report, w2: World, r2: Report)
    requires StageOk(env, w, r, w1, r1) && StageOk(env, w1, r1, w2, r2)
    ensures StageOk(env, w, r, w2, r2)
  {
  }

  // ---------- each operation ----------

  lemma EnsureAddressEvolves(env: Env, w: World, ip: string, groupPk: nat, dns: string)
    requires 1 <= groupPk <= |w.store.groups|
    ensures var (w', got) := EnsureAddress(env, w, ip, groupPk, dns);
            && Evolves(env, w.store, w'.store)
            && Later(w.clock, w'.clock)
            && w'.store.groups == w.store.groups
            && (Changed(w.store, w'.store) <==> got.Record? && got.created)
  {
    var w' := EnsureAddress(env, w, ip, groupPk, dns).0;
    var rows := w.store.addresses;
    var i := Search(rows, ip);
    if w'.store.addresses != rows && i < |rows| {
      assert w'.store.addresses[i].dns == dns != rows[i].dns;
    }
  }

  lemma EnsurePrefixEvolves(env: Env, w: World, ip: string)
    ensures var w' := EnsurePrefix(w, ip);
            && Evolves(env, w.store, w'.store)
            && Later(w.clock, w'.clock)
            && w'.store == w.store.(prefixes := w'.store.prefixes)
  {
    var w' := EnsurePrefix(w, ip);
    if w'.store != w.store {
      forall q: string ensures DomainsOf(w'.store.prefixes, q) == DomainsOf(w.store.prefixes, q) {
        HostPrefixIsNeutral(w.store.prefixes, ip, q);
      }
    }
  }

  lemma SyncCiliumOk(env: Env, w: World, c: Cluster, host: string, r: Report)
    requires 1 <= r.groupPk <= |w.store.groups|
    ensures var (w', r') := SyncCilium(env, w, c, host, r); StageOk(env, w, r, w', r')
  {
    var w1 := w.(clock := w.clock.Tick());
    var ip := CiliumIP(env, c.name);
    if ip.Some? {
      var (w2, dns) := ReadDns(env, w1, c, host, ip.value);
      EnsureAddressEvolves(env, w2, ip.value, r.groupPk, dns);
    }
  }

  lemma SyncTailscaleOk(env: Env, w: World, c: Cluster, r: Report)
    requires 1 <= r.groupPk <= |w.store.groups|
    ensures var (w', r') := SyncTailscale(env, w, c, r); StageOk(env, w, r, w', r')
  {
    var (clock, device) := ReadTailscale(env, w.clock, c.name);
    var w1 := w.(clock := clock);
    if device.Some? {
      var d := device.value;
      var w2 := EnsurePrefix(w1, d.ip);
      EnsurePrefixEvolves(env, w1, d.ip);
      EnsureAddressEvolves(env, w2, d.ip, r.groupPk, d.fqdn);
      EvolvesTransitive(env, w1.store, w2.store, EnsureAddress(env, w2, d.ip, r.groupPk, d.fqdn).0.store);
    }
  }

  lemma EnsureTemplateEvolves(env: Env, w: World, port: int)
    ensures var (w', got) := EnsureTemplate(w, port);
            && Evolves(env, w.store, w'.store)
            && Later(w.clock, w'.clock)
            && w'.store.groups == w.store.groups
            && (Changed(w.store, w'.store) <==> got.Record? && got.created)
  {
  }

  lemma EnsureServiceEvolves(env: Env, w: World, groupPk: nat, cluster: string, port: int)
    requires 1 <= groupPk <= |w.store.groups|
    ensures var (w', got) := EnsureService(w, groupPk, cluster, port);
            && Evolves(env, w.store, w'.store)
            && Later(w.clock, w'.clock)
            && w'.store.groups == w.store.groups
            && (Changed(w.store, w'.store) <==> got.Record? && got.created)
  {
  }

  lemma SyncServiceOk(env: Env, w: World, c: Cluster, port: int, r: Report)
    requires 1 <= r.groupPk <= |w.store.groups|
    ensures var (w', r') := SyncService(w, c, port, r); StageOk(env, w, r, w', r')
  {
    var w1 := EnsureTemplate(w, port).0;
    EnsureTemplateEvolves(env, w, port);
    EnsureServiceEvolves(env, w1, r.groupPk, c.name, port);
    var w2 := EnsureService(w1, r.groupPk, c.name, port).0;
    EvolvesTransitive(env, w.store, w1.store, w2.store);
    ChangedStays(env, w.store, w1.store, w2.store);
  }

  lemma SyncEndpointOk(env: Env, w: World, c: Cluster, e: Endpoint, r: Report)
    requires 1 <= r.groupPk <= |w.store.groups|
    ensures var (w', r') := SyncEndpoint(env, w, c, e, r); StageOk(env, w, r, w', r')
  {
    if c.kind != Managed {
      SyncServiceOk(env, w, c, e.port, r);
    } else {
      var (w1, r1) := SyncCilium(env, w, c, e.host, r);
      SyncCiliumOk(env, w, c, e.host, r);
      if r1.error.None? {
        var (w2, r2) := SyncTailscale(env, w1, c, r1);
        SyncTailscaleOk(env, w1, c, r1);
        StagesCompose(env, w, r, w1, r1, w2, r2);
        SyncServiceOk(env, w2, c, e.port, r2);
        var (w3, r3) := SyncService(w2, c, e.port, r2);
        StagesCompose(env, w, r, w2, r2, w3, r3);
      }
    }
  }

  // ---------- the group-id allocator ----------

  /** Groups added between `g` and `h`: consecutive ids from `next`, each under a name not in use before. */
  ghost predicate Allocated(g: seq<Group>, h: seq<Group>, next: Int32) {
    && g <= h
    && (forall j | |g| <= j < |h| :: h[j].groupId == Wrap32(next + (j - |g|)))
    && (forall i, j | 0 <= i < j < |h| && |g| <= j :: h[i].name != h[j].name)
  }

  lemma WrapShift(a: int, n: int)
    ensures Wrap32(Wrap32(a) + n) == Wrap32(a + n)
  {
  }

  lemma AllocatedCompose(g: seq<Group>, h: seq<Group>, k: seq<Group>, next: Int32, mid: Int32)
    requires Allocated(g, h, next) && Allocated(h, k, mid)
    requires mid == Wrap32(next + (|h| - |g|))
    ensures Allocated(g, k, next)
  {
    forall j | |g| <= j < |k| ensures k[j].groupId == Wrap32(next + (j - |g|)) {
      if j < |h| {
        assert k[j] == h[j];
      } else {
        WrapShift(next + (|h| - |g|), j - |h|);
      }
    }
    forall i, j | 0 <= i < j < |k| && |g| <= j ensures k[i].name != k[j].name {
      if j < |h| {
        assert k[i] == h[i] && k[j] == h[j];
      }
    }
  }

  /** What a stretch of the loop over at most `n` clusters keeps, started with group id `next`. */
  ghost predicate StretchOk(env: Env, w: World, next: Int32, w': World, next': Int32, n: nat) {
    && Evolves(env, w.store, w'.store)
    && Later(w.clock, w'.clock)
    && Allocated(w.store.groups, w'.store.groups, next)
    && next' == Wrap32(next + (|w'.store.groups| - |w.store.groups|))
    && |w'.store.groups| <= |w.store.groups| + n
  }

  lemma StretchesCompose(env: Env, w: World, next: Int32, w1: World, next1: Int32, w2: World, next2: Int32, m: nat, n: nat)
    requires StretchOk(env, w, next, w1, next1, m) && StretchOk(env, w1, next1, w2, next2, n)
    ensures StretchOk(env, w, next, w2, next2, m + n)
  {
    EvolvesTransitive(env, w.store, w1.store, w2.store);
    AllocatedCompose(w.store.groups, w1.store.groups, w2.store.groups, next, next1);
    WrapShift(next + (|w1.store.groups| - |w.store.groups|), |w2.store.groups| - |w1.store.groups|);
  }

  lemma EnsureGroupOk(env: Env, w: World, name: string, next: Int32)
    ensures var (w', got) := EnsureGroup(w, name, next);
            && StretchOk(env, w, next, w', if got.Record? && got.created then Wrap32(next + 1) else next, 1)
            && (got.Record? ==> 1 <= got.pk <= |w'.store.groups| && w'.store.groups[got.pk - 1].name == name)
            && (Changed(w.store, w'.store) <==> got.Record? && got.created)
  {
  }

  /** The stages that follow the group neither allocate ids nor hide that the group was created. */
  lemma StretchThenStage(env: Env, w: World, next: Int32, w1: World, next1: Int32, r1: Report, w2: World, r2: Report)
    requires StretchOk(env, w, next, w1, next1, 1) && StageOk(env, w1, r1, w2, r2)
    requires r1.updated <==> Changed(w.store, w1.store)
    ensures StretchOk(env, w, next, w2, next1, 1)
    ensures r2.updated <==> Changed(w.store, w2.store)
  {
  }

  /** One iteration of the loop: what it keeps, and that its report says Updated exactly when it changed something. */
  ghost predicate IterationOk(env: Env, w: World, next: Int32, s: Step) {
    && StretchOk(env, w, next, s.w, s.next, 1)
    && (s.reports != [] ==> (s.reports[0].updated <==> Changed(w.store, s.w.store)))
    && (s.reports == [] ==> s.w == w)
  }

  lemma SyncFoundOk(env: Env, w: World, c: Cluster, e: Endpoint, next: Int32)
    ensures IterationOk(env, w, next, SyncFound(env, w, c, e, next))
  {
    var (w1, group) := EnsureGroup(w, c.name, next);
    EnsureGroupOk(env, w, c.name, next);
    if group.Record? {
      var r1 := NewReport(c.name).(groupPk := group.pk, updated := group.created);
      SyncEndpointOk(env, w1, c, e, r1);
      var (w2, r2) := SyncEndpoint(env, w1, c, e, r1);
      StretchThenStage(env, w, next, w1, if group.created then Wrap32(next + 1) else next, r1, w2, r2);
    }
  }

  lemma IterationAfterRead(env: Env, w: World, clock: Clock, next: Int32, s: Step)
    requires Later(w.clock, clock) && IterationOk(env, w.(clock := clock), next, s) && s.reports != []
    ensures IterationOk(env, w, next, s)
  {
  }

  /** Every iteration, whichever calls fail. */
  lemma SyncClusterOk(env: Env, w: World, c: Cluster, next: Int32)
    ensures IterationOk(env, w, next, SyncCluster(env, w, c, next))
  {
    if c.kind != OtherKind {
      var (clock, e) := ReadEndpoint(env, w.clock, c);
      if e.Some? {
        SyncFoundOk(env, w.(clock := clock), c, e.value, next);
        IterationAfterRead(env, w, clock, next, SyncFound(env, w.(clock := clock), c, e.value, next));
      }
    }
  }

  /** The loop, for every list of clusters and every pattern of failures. */
  lemma {:induction false} SyncAllOk(env: Env, w: World, cs: seq<Cluster>, next: Int32)
    ensures var s := SyncAll(env, w, cs, next); StretchOk(env, w, next, s.w, s.next, |cs|)
    decreases |cs|
  {
    if cs != [] {
      var s1 := SyncCluster(env, w, cs[0], next);
      var s2 := SyncAll(env, s1.w, cs[1..], s1.next);
      SyncClusterOk(env, w, cs[0], next);
      SyncAllOk(env, s1.w, cs[1..], s1.next);
      StretchesCompose(env, w, next, s1.w, s1.next, s2.w, s2.next, 1, |cs| - 1);
    }
  }

  // ---------- whole runs ----------

  /** One run of the program: the objects it reads, the calls that fail, the names it is given. */
  datatype Run = Run(env: Env, faults: set<nat>, names: seq<string>)

  function Start(store: Store, faults: set<nat>): World { World(store, Clock(faults, 0, false, 0)) }

  function After(store: Store, run: Run): (t: Store) {
    SyncStatus(run.env, Start(store, run.faults), run.names).0.store
  }

  /** The store after a list of runs, each against its own cluster state and its own failures. */
  function AfterAll(store: Store, runs: seq<Run>): (t: Store)
    decreases |runs|
  {
    if runs == [] then store else AfterAll(After(store, runs[0]), runs[1..])
  }

  lemma RunOk(store: Store, run: Run)
    ensures Evolves(run.env, store, After(store, run))
    ensures Allocated(store.groups, After(store, run).groups, NextGroupId(store.groups))
    ensures |After(store, run).groups| <= |store.groups| + |Selected(run.env.clusters, run.names)|
  {
    var w := Start(store, run.faults);
    var w1 := w.(clock := w.clock.Tick());
    SyncAllOk(run.env, w1.(clock := w1.clock.Tick()), Selected(run.env.clusters, run.names), NextGroupId(store.groups));
  }

  lemma EvolvesSameParser(env: Env, env': Env, s: Store, t: Store)
    requires env.isIPv6 == env'.isIPv6 && Evolves(env, s, t)
    ensures Evolves(env', s, t)
  {
  }

  /**
   Over every sequence of runs and every pattern of failures: no record is lost or renamed,
   a non-empty DNS name never changes, every DNS name written is a hostname, every new
   address is valid CIDR text, and every new address or service names an existing group.
   */
  lemma {:induction false} HistorySound(env: Env, store: Store, runs: seq<Run>)
    requires forall run | run in runs :: run.env.isIPv6 == env.isIPv6
    ensures Evolves(env, store, AfterAll(store, runs))
    decreases |runs|
  {
    if runs != [] {
      var mid := After(store, runs[0]);
      RunOk(store, runs[0]);
      EvolvesSameParser(runs[0].env, env, store, mid);
      HistorySound(env, mid, runs[1..]);
      EvolvesTransitive(env, store, mid, AfterAll(mid, runs[1..]));
    }
  }

  // ---------- group ids ----------

  ghost predicate UniqueIds(groups: seq<Group>) {
    forall i, j | 0 <= i < j < |groups| :: groups[i].groupId != groups[j].groupId
  }

  /** The highest id at the start; 0 stands for "no group", after which ids start at 1. */
  function Highest(groups: seq<Group>): Int32 { if groups == [] then 0 else MaxGroupId(groups) }

  /** A block of ids allocated from the successor of `top` lies above `top` exactly when it fits. */
  lemma BlockAbove(g: seq<Group>, h: seq<Group>, top: Int32)
    requires Allocated(g, h, Wrap32(top + 1))
    ensures top + (|h| - |g|) <= INT32_MAX <==> forall j | |g| <= j < |h| :: h[j].groupId == top + 1 + (j - |g|)
    ensures top + (|h| - |g|) <= INT32_MAX <==> forall j | |g| <= j < |h| :: h[j].groupId > top
  {
    if top + (|h| - |g|) > INT32_MAX {
      var j := |g| + (INT32_MAX - top);
      WrapShift(top + 1, INT32_MAX - top);
      assert h[j].groupId == Wrap32(INT32_MAX + 1) == INT32_MIN;
    } else {
      forall j | |g| <= j < |h| ensures h[j].groupId == top + 1 + (j - |g|) {
        WrapShift(top + 1, j - |g|);
      }
    }
  }

  lemma BlockUnique(g: seq<Group>, h: seq<Group>, top: Int32)
    requires g <= h && UniqueIds(g) && forall x | x in g :: x.groupId <= top
    requires forall j | |g| <= j < |h| :: h[j].groupId == top + 1 + (j - |g|)
    ensures UniqueIds(h)
  {
  }

  /**
   The groups added to `g` carry consecutive ids that all lie above every id of `g`, exactly
   when the last of them still fits in an int32; then ids stay unique. At most one group is
   added per name, and none under a name already in use.
   */
  ghost predicate FreshBlock(g: seq<Group>, h: seq<Group>) {
    var top := Highest(g);
    var fits := top + (|h| - |g|) <= INT32_MAX;
    && g <= h
    && (fits <==> forall j | |g| <= j < |h| :: h[j].groupId == top + 1 + (j - |g|))
    && (fits <==> forall j | |g| <= j < |h| :: h[j].groupId > top)
    && (fits && UniqueIds(g) ==> UniqueIds(h))
    && (forall i, j | 0 <= i < j < |h| && |g| <= j :: h[i].name != h[j].name)
  }

  lemma AllocatedIsFresh(g: seq<Group>, h: seq<Group>)
    requires Allocated(g, h, NextGroupId(g))
    ensures FreshBlock(g, h)
  {
    var top := Highest(g);
    BlockAbove(g, h, top);
    if top + (|h| - |g|) <= INT32_MAX && UniqueIds(g) {
      BlockUnique(g, h, top);
    }
  }

  /** Group-id allocation, for every run and every pattern of failed calls. */
  lemma GroupIdsFresh(store: Store, run: Run)
    ensures FreshBlock(store.groups, After(store, run).groups)
    ensures |After(store, run).groups| <= |store.groups| + |Selected(run.env.clusters, run.names)|
  {
    RunOk(store, run);
    AllocatedIsFresh(store.groups, After(store, run).groups);
  }
}
