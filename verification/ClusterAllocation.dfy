/** The group-id allocator, with conditions that can be checked before the run. */
module ClusterAllocation {
  import opened Basics
  import opened Faults
  import opened Ipam
  import opened ClusterSync
  import opened ClusterEvolution

  function NameSet(groups: seq<Group>): (ns: set<string>) { set g | g in groups :: g.name }

  /** The names of the clusters with an endpoint. */
  function Claimed(env: Env, cs: seq<Cluster>): (ns: set<string>) { set c | c in cs && Reachable(env, c) :: c.name }

  /** The selected clusters that have an endpoint and no group yet, counted by name. */
  function NewNames(store: Store, run: Run): (ns: set<string>) {
    Claimed(run.env, Selected(run.env.clusters, run.names)) - NameSet(store.groups)
  }

  // ---------- how many groups a run creates ----------

  lemma NameSetAppend(a: seq<Group>, x: Group)
    ensures NameSet(a + [x]) == NameSet(a) + {x.name}
  {
    assert forall y | y in a :: y in a + [x];
    assert x in a + [x];
  }

  lemma NameSetGrows(g: seq<Group>, h: seq<Group>)
    requires g <= h
    ensures NameSet(g) <= NameSet(h)
  {
    forall x | x in g ensures x in h {
      var i :| 0 <= i < |g| && g[i] == x;
      assert h[i] == x;
    }
  }

  ghost predicate NewNamed(g: seq<Group>, h: seq<Group>) {
    g <= h && forall i, j | 0 <= i < j < |h| && |g| <= j :: h[i].name != h[j].name
  }

  lemma {:induction false} NewNamesCounted(g: seq<Group>, h: seq<Group>)
    requires NewNamed(g, h)
    ensures |NameSet(h) - NameSet(g)| == |h| - |g|
    decreases |h|
  {
    if g == h {
      assert NameSet(h) - NameSet(g) == {};
    } else {
      var init, last := h[..|h| - 1], h[|h| - 1];
      assert h == init + [last];
      NewNamesCounted(g, init);
      NameSetAppend(init, last);
      NameSetGrows(g, init);
      assert last.name !in NameSet(init);
      assert NameSet(h) - NameSet(g) == (NameSet(init) - NameSet(g)) + {last.name};
    }
  }

  lemma EnsureGroupNames(w: World, name: string, next: Int32)
    requires w.clock.Reliable()
    ensures NameSet(EnsureGroup(w, name, next).0.store.groups) == NameSet(w.store.groups) + {name}
    ensures EnsureGroup(w, name, next).1.Record?
  {
    var g, h := w.store.groups, EnsureGroup(w, name, next).0.store.groups;
    if FindGroup(g, name) < |g| {
      assert g[FindGroup(g, name)] in g;
    } else {
      assert h == g + [Group(next, name)];
    }
  }

  /** The stages after the group leave the groups alone. */
  lemma SyncFoundGroups(env: Env, w: World, c: Cluster, e: Endpoint, next: Int32)
    ensures SyncFound(env, w, c, e, next).w.store.groups == EnsureGroup(w, c.name, next).0.store.groups
  {
    var (w1, group) := EnsureGroup(w, c.name, next);
    EnsureGroupOk(env, w, c.name, next);
    if group.Record? {
      SyncEndpointOk(env, w1, c, e, NewReport(c.name).(groupPk := group.pk, updated := group.created));
    }
  }

  lemma SyncClusterNames(env: Env, w: World, c: Cluster, next: Int32)
    requires w.clock.Reliable()
    ensures NameSet(SyncCluster(env, w, c, next).w.store.groups) == NameSet(w.store.groups) + Claimed(env, [c])
  {
    if Reachable(env, c) {
      var (clock, e) := ReadEndpoint(env, w.clock, c);
      EnsureGroupNames(w.(clock := clock), c.name, next);
      SyncFoundGroups(env, w.(clock := clock), c, e.value, next);
      assert Claimed(env, [c]) == {c.name};
    } else {
      assert Claimed(env, [c]) == {};
    }
  }

  lemma {:induction false} SyncAllNames(env: Env, w: World, cs: seq<Cluster>, next: Int32)
    requires w.clock.Reliable()
    ensures NameSet(SyncAll(env, w, cs, next).w.store.groups) == NameSet(w.store.groups) + Claimed(env, cs)
    decreases |cs|
  {
    if cs == [] {
      assert Claimed(env, cs) == {};
    } else {
      var s1 := SyncCluster(env, w, cs[0], next);
      SyncClusterOk(env, w, cs[0], next);
      SyncClusterNames(env, w, cs[0], next);
      SyncAllNames(env, s1.w, cs[1..], s1.next);
      assert cs == [cs[0]] + cs[1..];
      assert Claimed(env, cs) == Claimed(env, [cs[0]]) + Claimed(env, cs[1..]);
    }
  }

  lemma RunNames(store: Store, run: Run)
    requires run.faults == {}
    ensures NameSet(After(store, run).groups) == NameSet(store.groups) + Claimed(run.env, Selected(run.env.clusters, run.names))
  {
    var w := Start(store, run.faults);
    var cs := Selected(run.env.clusters, run.names);
    SyncAllNames(run.env, w.(clock := w.clock.Tick().Tick()), cs, NextGroupId(store.groups));
    if cs == [] {
      assert Claimed(run.env, cs) == {};
    }
  }

  /** Without failures a run creates one group for each new name. */
  lemma GroupsCreated(store: Store, run: Run)
    requires run.faults == {}
    ensures |After(store, run).groups| == |store.groups| + |NewNames(store, run)|
  {
    RunOk(store, run);
    RunNames(store, run);
    NewNamesCounted(store.groups, After(store, run).groups);
    assert NameSet(After(store, run).groups) - NameSet(store.groups) == NewNames(store, run);
  }

  // ---------- when the ids are good ----------

  /** Consecutive ids above the highest one of `g`. */
  ghost predicate Consecutive(g: seq<Group>, h: seq<Group>) {
    g <= h && forall j | |g| <= j < |h| :: h[j].groupId == Highest(g) + 1 + (j - |g|)
  }

  ghost predicate AllAbove(g: seq<Group>, h: seq<Group>) {
    g <= h && forall j | |g| <= j < |h| :: h[j].groupId > Highest(g)
  }

  /** Whatever calls fail: room for one id per selected cluster is enough. */
  lemma RoomIsEnough(store: Store, run: Run)
    requires Highest(store.groups) + |Selected(run.env.clusters, run.names)| <= INT32_MAX
    ensures Consecutive(store.groups, After(store, run).groups) && AllAbove(store.groups, After(store, run).groups)
    ensures UniqueIds(store.groups) ==> UniqueIds(After(store, run).groups)
  {
    GroupIdsFresh(store, run);
  }

  /** Without failures: room for one id per new name is needed as well. */
  lemma RoomIsNeeded(store: Store, run: Run)
    requires run.faults == {}
    ensures var fits := Highest(store.groups) + |NewNames(store, run)| <= INT32_MAX;
            && (Consecutive(store.groups, After(store, run).groups) <==> fits)
            && (AllAbove(store.groups, After(store, run).groups) <==> fits)
  {
    GroupIdsFresh(store, run);
    GroupsCreated(store, run);
  }

  // ---------- a run that wraps ----------

  const NEW_CLUSTER := Cluster(1, "new", Managed)

  const ONE_CLUSTER := Env([NEW_CLUSTER], map[], map[], map["new" := CapiCluster("k8s.example.org", None)], [], map[], map[], _ => false)

  const FULL := Store([Group(INT32_MAX, "old")], [], [], [], [])

  lemma NewName()
    ensures NewNames(FULL, Run(ONE_CLUSTER, {}, [])) == {"new"}
  {
    assert Selected([NEW_CLUSTER], []) == [NEW_CLUSTER];
    assert Claimed(ONE_CLUSTER, [NEW_CLUSTER]) == {"new"};
    assert NameSet(FULL.groups) == {"old"};
    assert "old" != "new";
  }

  lemma HighestOfFull()
    ensures MaxGroupId(FULL.groups) == INT32_MAX
  {
  }

  lemma FirstId(g: seq<Group>, h: seq<Group>, next: Int32)
    requires Allocated(g, h, next) && |h| > |g|
    ensures h[|g|].groupId == next
  {
    assert h[|g|].groupId == Wrap32(next + (|g| - |g|));
  }

  lemma NextAfterHighest(g: seq<Group>)
    requires g != [] && MaxGroupId(g) == INT32_MAX
    ensures NextGroupId(g) == INT32_MIN
  {
  }

  lemma SomethingCreated(store: Store, run: Run)
    requires run.faults == {} && NewNames(store, run) != {}
    ensures |After(store, run).groups| > |store.groups|
  {
    GroupsCreated(store, run);
  }

  /** When the highest id is taken, the first group created gets the lowest. */
  lemma WrapsWhenFull(store: Store, run: Run)
    requires run.faults == {} && store.groups != [] && MaxGroupId(store.groups) == INT32_MAX && NewNames(store, run) != {}
    ensures var g, h := store.groups, After(store, run).groups;
            |h| > |g| && h[|g|].groupId == INT32_MIN
  {
    SomethingCreated(store, run);
    RunOk(store, run);
    FirstId(store.groups, After(store, run).groups, NextGroupId(store.groups));
    NextAfterHighest(store.groups);
  }

  /** A group with the highest id is stored: the next one gets the lowest. */
  lemma WrappedId()
    ensures var groups := After(FULL, Run(ONE_CLUSTER, {}, [])).groups; |groups| > 1 && groups[1].groupId == INT32_MIN
  {
    NewName();
    HighestOfFull();
    WrapsWhenFull(FULL, Run(ONE_CLUSTER, {}, []));
  }
}
