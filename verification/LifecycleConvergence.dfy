/**
 The two implementations of the sync agree, and the two controllers together converge to a
 state in which nobody writes anything.
 */
module LifecycleConvergence {
  import opened Basics
  import opened Text
  import opened Faults
  import opened Lifecycle
  import opened LifecycleEffects

  // ---------- a pass without failures ----------

  lemma AllHandledIsSynced(s: System, t: System, order: seq<Int32>, oks1: seq<bool>, oks2: seq<bool>)
    requires WellFormed(s) && Enumerates(order, s.devices)
    requires |oks1| == |Listing(s.devices, order, Wanted)| && |oks2| == |Listing(s.devices, order, Doomed)|
    requires Failures(oks1) == 0 && Failures(oks2) == 0
    requires PassIsolated(s, t, Listing(s.devices, order, Wanted), oks1, Listing(s.devices, order, Doomed), oks2)
    ensures Synced(s, t)
  {
    var ds1, ds2 := Listing(s.devices, order, Wanted), Listing(s.devices, order, Doomed);
    PassListsOf(s, order);
    forall i | i in s.devices
      ensures HwAt(t, KeyOf(s.devices[i])) == SyncedHw(s, s.devices[i])
      ensures t.devices[i].status == SyncedStatus(s, s.devices[i])
    {
      var d := s.devices[i];
      if Wanted(d) {
        assert d in ds1;
        var j :| 0 <= j < |ds1| && ds1[j] == d;
        assert Handled(s, t, ds1[j], oks1[j]);
      } else {
        assert NoId(ds1, i) && NoKey(ds1, KeyOf(d));
        if Doomed(d) {
          assert d in ds2;
          var j :| 0 <= j < |ds2| && ds2[j] == d;
          assert Handled(s, t, ds2[j], oks2[j]);
        } else {
          assert NoKey(ds2, KeyOf(d));
        }
      }
    }
    forall k | NobodysKey(s, k) ensures HwAt(t, k) == HwAt(s, k) {
      assert NoKey(ds1, k) && NoKey(ds2, k);
    }
  }

  /** A pass without failures makes exactly the prescribed state. */
  lemma PassSyncs(w: World, order: seq<Int32>)
    requires w.clock.Reliable() && WellFormed(w.sys) && Enumerates(order, w.sys.devices)
    ensures var (w', out) := Pass(w, order);
            Synced(w.sys, w'.sys) && out == Some(0) && w'.clock.Reliable()
  {
    var applied, pruned := PassIsFaultIsolated(w, order);
    AllHandledIsSynced(w.sys, Pass(w, order).0.sys, order, applied, pruned);
  }

  // ---------- the command-line sync is the same transformation ----------

  lemma SameActivation(w: World, v: World, d: Device, h: Hardware)
    requires w.sys == v.sys && w.clock.Reliable() && v.clock.Reliable()
    ensures Activate(w, d, h).0.sys == Activate(v, d, h).0.sys
    ensures Activate(w, d, h).0.clock.Reliable()
  {
  }

  lemma SameReconcile(w: World, v: World, d: Device)
    requires w.sys == v.sys && w.clock.Reliable() && v.clock.Reliable()
    ensures Reconcile(w, d).0.sys == Reconcile(v, d).0.sys
    ensures Reconcile(w, d).0.clock.Reliable() && Reconcile(v, d).0.clock.Reliable()
  {
    var k := KeyOf(d);
    if k in w.sys.hardware {
      var w1 := PatchLabels(w.(clock := w.clock.Tick()), k, DesiredLabels(d)).0;
      var v1 := PatchLabels(v.(clock := v.clock.Tick()), k, DesiredLabels(d)).0;
      SameActivation(w1, v1, d, w.sys.hardware[k]);
      SameActivation(v1, w1, d, w.sys.hardware[k]);
    }
  }

  /** The command-line operation and its controller counterpart, on the same state and without failures. */
  lemma SameOperation(op: Op, cli: Op, w: World, v: World, d: Device)
    requires (op == ApplyOp && cli == CliApplyOp) || (op == PruneOp && cli == CliPruneOp)
    requires w.sys == v.sys && w.clock.Reliable() && v.clock.Reliable()
    ensures Perform(op, w, d).0.sys == Perform(cli, v, d).0.sys
    ensures Perform(op, w, d).0.clock.Reliable() && Perform(cli, v, d).0.clock.Reliable()
  {
    if op == ApplyOp && KeyOf(d) in w.sys.hardware {
      SameReconcile(w.(clock := w.clock.Tick()), v.(clock := v.clock.Tick()), d);
    } else if op == PruneOp && KeyOf(d) !in w.sys.hardware {
      assert Prune(w, d).0.sys == w.sys;
    }
  }

  lemma {:induction false} SameOperations(op: Op, cli: Op, w: World, v: World, ds: seq<Device>)
    requires (op == ApplyOp && cli == CliApplyOp) || (op == PruneOp && cli == CliPruneOp)
    requires w.sys == v.sys && w.clock.Reliable() && v.clock.Reliable()
    ensures PerformAll(op, w, ds).0.sys == PerformAll(cli, v, ds).0.sys
    ensures PerformAll(op, w, ds).0.clock.Reliable() && PerformAll(cli, v, ds).0.clock.Reliable()
    decreases |ds|
  {
    if ds != [] {
      SameOperation(op, cli, w, v, ds[0]);
      SameOperations(op, cli, Perform(op, w, ds[0]).0, Perform(cli, v, ds[0]).0, ds[1..]);
    }
  }

  /** Applying never makes or unmakes a doomed device, so the prune list may be read before or after. */
  lemma {:induction false} DoomedUnchanged(s: System, t: System, order: seq<Int32>)
    requires t.devices.Keys == s.devices.Keys
    requires forall i | i in s.devices :: t.devices[i] == s.devices[i] || (!Doomed(s.devices[i]) && !Doomed(t.devices[i]))
    ensures Listing(t.devices, order, Doomed) == Listing(s.devices, order, Doomed)
  {
    if order != [] {
      DoomedUnchanged(s, t, order[1..]);
    }
  }

  lemma AppliedNotDoomed(s: System, t: System, ds: seq<Device>, oks: seq<bool>, i: Int32)
    requires |oks| == |ds| && Separate(s, ds) && Isolated(ApplyOp, s, t, ds, oks)
    requires forall d | d in ds :: Wanted(d) && s.devices[d.id] == d
    requires i in s.devices
    ensures t.devices[i] == s.devices[i] || (!Doomed(s.devices[i]) && !Doomed(t.devices[i]))
  {
    if !NoId(ds, i) {
      var d :| d in ds && d.id == i;
      var j :| 0 <= j < |ds| && ds[j] == d;
      assert Effect(ApplyOp, s, t, ds[j], oks[j]);
    }
  }

  lemma AppliedKeepsDoomed(w: World, order: seq<Int32>)
    requires WellFormed(w.sys) && Enumerates(order, w.sys.devices)
    ensures var ds := Listing(w.sys.devices, order, Wanted);
            Listing(PerformAll(ApplyOp, w, ds).0.sys.devices, order, Doomed) == Listing(w.sys.devices, order, Doomed)
  {
    var s := w.sys;
    var ds := Listing(s.devices, order, Wanted);
    var (w1, oks) := PerformAll(ApplyOp, w, ds);
    PassListsOf(s, order);
    PerformAllIsolated(ApplyOp, w, ds);
    forall i | i in s.devices
      ensures w1.sys.devices[i] == s.devices[i] || (!Doomed(s.devices[i]) && !Doomed(w1.sys.devices[i]))
    {
      AppliedNotDoomed(s, w1.sys, ds, oks, i);
    }
    DoomedUnchanged(s, w1.sys, order);
  }

  /**
   Two implementations agree. Without failures the command-line sync, which creates first and
   reads the prune list last, leaves both stores exactly as a pass of the controller does.
   */
  lemma CliPassAgrees(w: World, v: World, order: seq<Int32>)
    requires w.sys == v.sys && w.clock.Reliable() && v.clock.Reliable()
    requires WellFormed(w.sys) && Enumerates(order, w.sys.devices)
    ensures CliPass(v, order).sys == Pass(w, order).0.sys
    ensures Synced(v.sys, CliPass(v, order).sys)
  {
    var ds1 := Listing(w.sys.devices, order, Wanted);
    var ds2 := Listing(w.sys.devices, order, Doomed);
    var w2 := w.(clock := w.clock.Tick().Tick());
    var v1 := v.(clock := v.clock.Tick());
    SameOperations(ApplyOp, CliApplyOp, w2, v1, ds1);
    AppliedKeepsDoomed(w2, order);
    var w3 := PerformAll(ApplyOp, w2, ds1).0;
    var v2 := PerformAll(CliApplyOp, v1, ds1).0;
    SameOperations(PruneOp, CliPruneOp, w3, v2.(clock := v2.clock.Tick()), ds2);
    PassSyncs(w, order);
  }

  // ---------- the Kubernetes-to-NetBox controller ----------

  /** The status that the Hardware object of a device asks for. */
  function ReconciledStatus(s: System, d: Device): Status {
    match HwAt(s, KeyOf(d))
    case None => d.status
    case Some(h) => if LabelId(h.labels) == Some(d.id) then Target(h) else d.status
  }

  /** `t` is `s` after the status of every device whose key is in `keys` has been written back. */
  ghost predicate Reconciled(s: System, t: System, keys: seq<Key>) {
    && t.hardware == s.hardware
    && SameDevices(s, t)
    && (forall i | i in s.devices ::
          t.devices[i].status ==
          if KeyOf(s.devices[i]) in keys then ReconciledStatus(s, s.devices[i]) else s.devices[i].status)
  }

  lemma ReconcileKeyEffect(w: World, k: Key)
    requires w.clock.Reliable() && WellFormed(w.sys)
    ensures var (w', ok) := ReconcileKey(w, k);
            Reconciled(w.sys, w'.sys, [k]) && w'.clock.Reliable()
  {
    if k in w.sys.hardware {
      var h := w.sys.hardware[k];
      var id := LabelId(h.labels);
      assert LabelAgrees(w.sys, k, h);
      if id.Some? {
        SetStatusEffect(w.(clock := w.clock.Tick()), id.value, Target(h));
      }
      assert forall i | i in w.sys.devices && KeyOf(w.sys.devices[i]) == k :: w.sys.devices[i].id == i;
    }
  }

  lemma ReconciledKeepsWellFormed(s: System, t: System, keys: seq<Key>)
    requires WellFormed(s) && Reconciled(s, t, keys)
    ensures WellFormed(t)
  {
    forall i | i in s.devices ensures t.devices[i].id == i && KeyOf(t.devices[i]) == KeyOf(s.devices[i]) {
      assert t.devices[i] == s.devices[i].(status := t.devices[i].status);
    }
    forall k | k in t.hardware ensures LabelAgrees(t, k, t.hardware[k]) {
      assert LabelAgrees(s, k, s.hardware[k]);
    }
  }

  lemma ReconciledCons(s: System, s1: System, t: System, keys: seq<Key>)
    requires keys != [] && Reconciled(s, s1, [keys[0]]) && Reconciled(s1, t, keys[1..])
    ensures Reconciled(s, t, keys)
  {
    SameDevicesTransitive(s, s1, t);
    assert keys == [keys[0]] + keys[1..];
    forall i | i in s.devices
      ensures t.devices[i].status ==
              if KeyOf(s.devices[i]) in keys then ReconciledStatus(s, s.devices[i]) else s.devices[i].status
    {
      assert s1.devices[i] == s.devices[i].(status := s1.devices[i].status);
    }
  }

  /** Any sequence of events, in any order and with repetitions. */
  lemma {:induction false} ReconcileKeysEffect(w: World, keys: seq<Key>)
    requires w.clock.Reliable() && WellFormed(w.sys)
    ensures var (w', oks) := ReconcileKeys(w, keys);
            Reconciled(w.sys, w'.sys, keys) && w'.clock.Reliable()
    decreases |keys|
  {
    if keys != [] {
      var w1 := ReconcileKey(w, keys[0]).0;
      var w2 := ReconcileKeys(w1, keys[1..]).0;
      ReconcileKeyEffect(w, keys[0]);
      ReconciledKeepsWellFormed(w.sys, w1.sys, [keys[0]]);
      ReconcileKeysEffect(w1, keys[1..]);
      ReconciledCons(w.sys, w1.sys, w2.sys, keys);
    }
  }

  // ---------- convergence ----------

  /** Every labelled object agrees with the status of its device: the write-back has nothing to do. */
  ghost predicate StatusStable(s: System) {
    forall i | i in s.devices :: s.devices[i].status == ReconciledStatus(s, s.devices[i])
  }

  lemma SyncedLabelAgrees(s: System, t: System, k: Key)
    requires WellFormed(s) && Synced(s, t) && k in t.hardware
    ensures LabelAgrees(s, k, t.hardware[k])
  {
    assert HwAt(t, k) == Some(t.hardware[k]);
    if HwAt(s, k) == HwAt(t, k) {
      assert LabelAgrees(s, k, s.hardware[k]);
    } else {
      var i :| i in s.devices && KeyOf(s.devices[i]) == k;
      var d := s.devices[i];
      assert Wanted(d);
      OwnId(d);
      assert Get(t.hardware[k].labels, ID_LABEL) == Itoa(d.id);
    }
  }

  lemma SyncedKeepsWellFormed(s: System, t: System)
    requires WellFormed(s) && Synced(s, t)
    ensures WellFormed(t)
  {
    forall i | i in s.devices ensures t.devices[i].id == i && KeyOf(t.devices[i]) == KeyOf(s.devices[i]) {
      assert t.devices[i] == s.devices[i].(status := t.devices[i].status);
    }
    forall k | k in t.hardware ensures LabelAgrees(t, k, t.hardware[k]) {
      SyncedLabelAgrees(s, t, k);
    }
  }

  /** A synced state is its own synced successor: passes are idempotent. */
  lemma SyncedIdempotent(s: System, t: System)
    requires WellFormed(s) && Synced(s, t)
    ensures Synced(t, t)
  {
    forall i | i in t.devices
      ensures HwAt(t, KeyOf(t.devices[i])) == SyncedHw(t, t.devices[i])
      ensures t.devices[i].status == SyncedStatus(t, t.devices[i])
    {
      var d := s.devices[i];
      assert t.devices[i] == d.(status := t.devices[i].status);
      if Wanted(t.devices[i]) {
        assert Wanted(d) && t.devices[i] == d;
        assert HwAt(t, KeyOf(d)) == HwAfter(ApplyOp, s, d);
      }
    }
  }

  /** After a pass on a status-stable state, the state is status-stable again. */
  lemma SyncedKeepsStatusStable(s: System, t: System)
    requires WellFormed(s) && Synced(s, t) && StatusStable(s)
    ensures StatusStable(t)
  {
  }

  // ---------- at rest ----------

  /** Nobody has anything to do: neither controller, nor the command line. */
  ghost predicate AtRest(s: System) {
    WellFormed(s) && Synced(s, s) && StatusStable(s)
  }

  /** `w'` differs from `w` only by calls that read. */
  predicate OnlyRead(w: World, w': World) {
    w'.sys == w.sys && w'.clock == w.clock.(calls := w'.clock.calls)
  }

  lemma ApplyQuiet(w: World, d: Device)
    requires w.clock.Reliable() && Synced(w.sys, w.sys)
    requires d.id in w.sys.devices && w.sys.devices[d.id] == d && Wanted(d)
    ensures OnlyRead(w, Apply(w, d).0)
  {
  }

  lemma PruneQuiet(w: World, d: Device)
    requires w.clock.Reliable() && Synced(w.sys, w.sys)
    requires d.id in w.sys.devices && w.sys.devices[d.id] == d && Doomed(d)
    ensures OnlyRead(w, Prune(w, d).0)
  {
  }

  lemma CliApplyQuiet(w: World, d: Device)
    requires w.clock.Reliable() && Synced(w.sys, w.sys)
    requires d.id in w.sys.devices && w.sys.devices[d.id] == d && Wanted(d)
    ensures OnlyRead(w, CliApply(w, d).0)
  {
    assert HwAt(w.sys, KeyOf(d)) == SyncedHw(w.sys, d) && d.status == SyncedStatus(w.sys, d);
  }

  lemma CliPruneQuiet(w: World, d: Device)
    requires w.clock.Reliable() && Synced(w.sys, w.sys)
    requires d.id in w.sys.devices && w.sys.devices[d.id] == d && Doomed(d)
    ensures OnlyRead(w, CliPrune(w, d).0)
  {
    assert HwAt(w.sys, KeyOf(d)) == SyncedHw(w.sys, d);
  }

  lemma PerformQuiet(op: Op, w: World, d: Device)
    requires w.clock.Reliable() && Synced(w.sys, w.sys)
    requires d.id in w.sys.devices && w.sys.devices[d.id] == d && if ApplyLike(op) then Wanted(d) else Doomed(d)
    ensures OnlyRead(w, Perform(op, w, d).0)
  {
    match op
    case ApplyOp => ApplyQuiet(w, d);
    case PruneOp => PruneQuiet(w, d);
    case CliApplyOp => CliApplyQuiet(w, d);
    case CliPruneOp => CliPruneQuiet(w, d);
  }

  lemma {:induction false} PerformAllQuiet(op: Op, w: World, ds: seq<Device>)
    requires w.clock.Reliable() && Synced(w.sys, w.sys)
    requires forall d | d in ds :: d.id in w.sys.devices && w.sys.devices[d.id] == d &&
                                   if ApplyLike(op) then Wanted(d) else Doomed(d)
    ensures OnlyRead(w, PerformAll(op, w, ds).0)
    decreases |ds|
  {
    if ds != [] {
      assert ds[0] in ds;
      PerformQuiet(op, w, ds[0]);
      PerformAllQuiet(op, Perform(op, w, ds[0]).0, ds[1..]);
    }
  }

  lemma PassQuiet(w: World, order: seq<Int32>)
    requires w.clock.Reliable() && AtRest(w.sys) && Enumerates(order, w.sys.devices)
    ensures OnlyRead(w, Pass(w, order).0)
  {
    var ds1, ds2 := Listing(w.sys.devices, order, Wanted), Listing(w.sys.devices, order, Doomed);
    var w2 := w.(clock := w.clock.Tick().Tick());
    PassListsOf(w.sys, order);
    PerformAllQuiet(ApplyOp, w2, ds1);
    PerformAllQuiet(PruneOp, PerformAll(ApplyOp, w2, ds1).0, ds2);
  }

  /** The deletes of objects that are gone already fail, but write nothing. */
  lemma CliPassQuiet(w: World, order: seq<Int32>)
    requires w.clock.Reliable() && AtRest(w.sys) && Enumerates(order, w.sys.devices)
    ensures OnlyRead(w, CliPass(w, order))
  {
    var ds1, ds2 := Listing(w.sys.devices, order, Wanted), Listing(w.sys.devices, order, Doomed);
    var w1 := w.(clock := w.clock.Tick());
    PassListsOf(w.sys, order);
    PerformAllQuiet(CliApplyOp, w1, ds1);
    var w2 := PerformAll(CliApplyOp, w1, ds1).0;
    PerformAllQuiet(CliPruneOp, w2.(clock := w2.clock.Tick()), ds2);
  }

  lemma TargetReached(s: System, k: Key)
    requires WellFormed(s) && StatusStable(s) && k in s.hardware
    ensures var id := LabelId(s.hardware[k].labels);
            id.Some? && id.value in s.devices ==> s.devices[id.value].status == Target(s.hardware[k])
  {
  }

  lemma {:induction false} ReconcileKeysQuiet(w: World, keys: seq<Key>)
    requires w.clock.Reliable() && AtRest(w.sys)
    ensures OnlyRead(w, ReconcileKeys(w, keys).0)
    decreases |keys|
  {
    if keys != [] {
      if keys[0] in w.sys.hardware {
        TargetReached(w.sys, keys[0]);
      }
      ReconcileKeysQuiet(ReconcileKey(w, keys[0]).0, keys[1..]);
    }
  }

  lemma StatusEntryQuiet(w: World, x: Listed)
    requires w.clock.Reliable() && AtRest(w.sys) && x.k in w.sys.hardware && w.sys.hardware[x.k] == x.h
    ensures OnlyRead(w, StatusEntry(w, x).0)
  {
    TargetReached(w.sys, x.k);
  }

  lemma {:induction false} StatusEntriesQuiet(w: World, xs: seq<Listed>)
    requires w.clock.Reliable() && AtRest(w.sys)
    requires forall x | x in xs :: x.k in w.sys.hardware && w.sys.hardware[x.k] == x.h
    ensures OnlyRead(w, StatusEntries(w, xs).0)
    decreases |xs|
  {
    if xs != [] {
      assert xs[0] in xs;
      StatusEntryQuiet(w, xs[0]);
      StatusEntriesQuiet(StatusEntry(w, xs[0]).0, xs[1..]);
    }
  }

  /** At rest, no further run of either controller or of either command makes a write, in any order. */
  lemma RestIsQuiet(w: World, order: seq<Int32>, keys: seq<Key>, namespace: string)
    requires w.clock.Reliable() && AtRest(w.sys) && Enumerates(order, w.sys.devices)
    ensures OnlyRead(w, Pass(w, order).0)
    ensures OnlyRead(w, ReconcileKeys(w, keys).0)
    ensures OnlyRead(w, StatusPass(w, keys, namespace).0)
    ensures OnlyRead(w, CliPass(w, order))
  {
    PassQuiet(w, order);
    ReconcileKeysQuiet(w, keys);
    StatusEntriesQuiet(w.(clock := w.clock.Tick()), HardwareIn(w.sys.hardware, keys, namespace));
    CliPassQuiet(w, order);
  }

  // ---------- joint convergence ----------

  /** The status controller has seen every Hardware object. */
  predicate CoversHardware(s: System, keys: seq<Key>) { forall k | k in s.hardware :: k in keys }

  lemma ReconciledIsStable(s: System, t: System, keys: seq<Key>)
    requires WellFormed(s) && Reconciled(s, t, keys) && CoversHardware(s, keys)
    ensures StatusStable(t)
  {
  }

  /**
   Joint convergence. From every well-formed state, one round of the status controller over
   all Hardware objects, in any order and with repetitions, followed by one pass of the sync
   controller, brings both stores to rest.
   */
  lemma ReconcileThenPassRests(w: World, keys: seq<Key>, order: seq<Int32>)
    requires w.clock.Reliable() && WellFormed(w.sys)
    requires CoversHardware(w.sys, keys) && Enumerates(order, w.sys.devices)
    ensures var w1 := ReconcileKeys(w, keys).0;
            var w2 := Pass(w1, order).0;
            AtRest(w2.sys) && w2.clock.Reliable()
  {
    var w1 := ReconcileKeys(w, keys).0;
    var w2 := Pass(w1, order).0;
    ReconcileKeysEffect(w, keys);
    ReconciledKeepsWellFormed(w.sys, w1.sys, keys);
    ReconciledIsStable(w.sys, w1.sys, keys);
    PassSyncs(w1, order);
    SyncedKeepsWellFormed(w1.sys, w2.sys);
    SyncedIdempotent(w1.sys, w2.sys);
    SyncedKeepsStatusStable(w1.sys, w2.sys);
  }

  /** The same when a pass comes first: sync, write back, sync. */
  lemma PassReconcilePassRests(w: World, keys: seq<Key>, order: seq<Int32>)
    requires w.clock.Reliable() && WellFormed(w.sys) && Enumerates(order, w.sys.devices)
    requires CoversHardware(Pass(w, order).0.sys, keys)
    ensures var w1 := Pass(w, order).0;
            var w2 := ReconcileKeys(w1, keys).0;
            var w3 := Pass(w2, order).0;
            AtRest(w3.sys)
  {
    PassSyncs(w, order);
    var w1 := Pass(w, order).0;
    SyncedKeepsWellFormed(w.sys, w1.sys);
    ReconcileThenPassRests(w1, keys, order);
  }
}
