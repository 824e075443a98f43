/** When the order of the two controllers decides what they leave, and when it does not. */
module LifecycleOrder {
  import opened Basics
  import opened Text
  import opened Faults
  import opened Lifecycle
  import opened LifecycleEffects
  import opened LifecycleConvergence

  /** The status controller, when it gets to run on `keys`, finds the device's own Hardware object. */
  predicate Seen(s: System, d: Device, keys: seq<Key>) {
    var h := HwAt(s, KeyOf(d));
    h.Some? && KeyOf(d) in keys && LabelId(h.value.labels) == Some(d.id)
  }

  /** The labels the sync would write for the device while it is staged are there already. */
  predicate LabelledAsStaged(d: Device, h: Hardware) {
    forall k | k in DesiredLabels(d.(status := Staged)) :: Get(h.labels, k) == DesiredLabels(d.(status := Staged))[k]
  }

  predicate UpForDeletion(d: Device) { (d.status == Offline || d.status == Planned) && d.inScope && d.complete }

  /**
   A device that the status controller reaches must not be up for deletion; and if the two
   controllers disagree on whether it is staged, the labels of its object must be up to date.
   */
  predicate OrderIrrelevant(s: System, d: Device, keys: seq<Key>) {
    Seen(s, d, keys) ==>
      var h := HwAt(s, KeyOf(d)).value;
      !UpForDeletion(d) && (d.inScope && d.complete && (d.status == Staged <==> Provisioned(h)) ==> LabelledAsStaged(d, h))
  }

  // ---------- one device and its object ----------

  datatype Pair = Pair(d: Device, h: Option<Hardware>)

  function PairAt(s: System, i: Int32): Pair
    requires i in s.devices
  {
    Pair(s.devices[i], HwAt(s, KeyOf(s.devices[i])))
  }

  function Synchronised(x: Pair): Pair {
    if Wanted(x.d) then
      match x.h
      case None => Pair(x.d, Some(Hardware(DesiredLabels(x.d), map[])))
      case Some(h) =>
        Pair(if Provisioned(h) then x.d.(status := Active) else x.d, Some(h.(labels := Merged(h.labels, DesiredLabels(x.d)))))
    else if Doomed(x.d) then Pair(x.d, None)
    else x
  }

  function WrittenBack(x: Pair, reached: bool): Pair {
    if reached && x.h.Some? && LabelId(x.h.value.labels) == Some(x.d.id) then x.(d := x.d.(status := Target(x.h.value))) else x
  }

  lemma SyncedPair(s: System, t: System, i: Int32)
    requires Synced(s, t) && i in s.devices
    ensures PairAt(t, i) == Synchronised(PairAt(s, i))
  {
    assert t.devices[i] == s.devices[i].(status := t.devices[i].status);
  }

  lemma ReconciledPair(s: System, t: System, i: Int32, keys: seq<Key>)
    requires Reconciled(s, t, keys) && i in s.devices
    ensures PairAt(t, i) == WrittenBack(PairAt(s, i), KeyOf(s.devices[i]) in keys)
  {
    assert t.devices[i] == s.devices[i].(status := t.devices[i].status);
  }

  lemma MergedNothing(d: Device, h: Hardware)
    ensures h.(labels := Merged(h.labels, DesiredLabels(d.(status := Staged)))) == h <==> LabelledAsStaged(d, h)
  {
  }

  /** After a sync, the object of a staged device carries its id, so the write-back repeats what the sync decided. */
  lemma StagedWrittenBack(x: Pair, reached: bool)
    requires Wanted(x.d)
    ensures WrittenBack(Synchronised(x), reached) == Synchronised(x)
  {
    OwnId(x.d);
  }

  lemma UnseenCommutes(x: Pair, reached: bool)
    requires !(reached && x.h.Some? && LabelId(x.h.value.labels) == Some(x.d.id))
    ensures WrittenBack(Synchronised(x), reached) == Synchronised(WrittenBack(x, reached))
  {
    assert WrittenBack(x, reached) == x;
    if Wanted(x.d) {
      StagedWrittenBack(x, reached);
    }
  }

  lemma SeenCommutesIff(d: Device, h: Hardware)
    requires LabelId(h.labels) == Some(d.id)
    ensures WrittenBack(Synchronised(Pair(d, Some(h))), true) == Synchronised(WrittenBack(Pair(d, Some(h)), true))
            <==> !UpForDeletion(d) && (d.inScope && d.complete && (d.status == Staged <==> Provisioned(h)) ==> LabelledAsStaged(d, h))
  {
    OwnId(d);
    MergedNothing(d, h);
  }

  /** Both orders on one device. */
  lemma DeviceOrder(s: System, p: System, t: System, r: System, u: System, i: Int32, keys: seq<Key>)
    requires i in s.devices
    requires Synced(s, p) && Reconciled(p, t, keys) && Reconciled(s, r, keys) && Synced(r, u)
    requires s.devices[i].id == i
    ensures PairAt(t, i) == PairAt(u, i) <==> OrderIrrelevant(s, s.devices[i], keys)
  {
    var x, reached := PairAt(s, i), KeyOf(s.devices[i]) in keys;
    SyncedPair(s, p, i);
    ReconciledPair(p, t, i, keys);
    ReconciledPair(s, r, i, keys);
    SyncedPair(r, u, i);
    if Seen(s, x.d, keys) {
      SeenCommutesIff(x.d, x.h.value);
    } else {
      UnseenCommutes(x, reached);
    }
  }

  // ---------- both stores ----------

  /** `p` then `t` is sync first, `r` then `u` is write-back first, both from `s`. */
  ghost predicate Orders(s: System, p: System, t: System, r: System, u: System, keys: seq<Key>) {
    WellFormed(s) && Synced(s, p) && Reconciled(p, t, keys) && Reconciled(s, r, keys) && Synced(r, u)
  }

  lemma SameKeys(s: System, t: System, i: Int32)
    requires SameDevices(s, t) && i in s.devices
    ensures i in t.devices && KeyOf(t.devices[i]) == KeyOf(s.devices[i])
  {
    assert t.devices[i] == s.devices[i].(status := t.devices[i].status);
  }

  lemma StillNobodys(s: System, t: System, k: Key)
    requires SameDevices(s, t) && NobodysKey(s, k)
    ensures NobodysKey(t, k)
  {
    forall i | i in t.devices ensures KeyOf(t.devices[i]) != k {
      SameKeys(s, t, i);
    }
  }

  /** Neither order touches an object that belongs to no device. */
  lemma UnownedKey(s: System, p: System, t: System, r: System, u: System, keys: seq<Key>, k: Key)
    requires Orders(s, p, t, r, u, keys) && NobodysKey(s, k)
    ensures HwAt(t, k) == HwAt(u, k)
  {
    StillNobodys(s, r, k);
    assert HwAt(t, k) == HwAt(p, k) == HwAt(s, k);
    assert HwAt(u, k) == HwAt(r, k) == HwAt(s, k);
  }

  lemma SameHardware(t: System, u: System)
    requires forall k :: HwAt(t, k) == HwAt(u, k)
    ensures t.hardware == u.hardware
  {
    forall k ensures (k in t.hardware <==> k in u.hardware) && (k in t.hardware ==> t.hardware[k] == u.hardware[k]) {
      assert HwAt(t, k) == HwAt(u, k);
    }
  }

  ghost predicate SamePairAt(t: System, u: System, i: Int32) {
    i in t.devices && i in u.devices && PairAt(t, i) == PairAt(u, i)
  }

  /** Two states over the devices of `s` are equal when they agree device by device and beside the devices. */
  lemma SamePairs(s: System, t: System, u: System)
    requires SameDevices(s, t) && SameDevices(s, u)
    requires forall i | i in s.devices :: SamePairAt(t, u, i)
    requires forall k | NobodysKey(s, k) :: HwAt(t, k) == HwAt(u, k)
    ensures t == u
  {
    forall i | i in s.devices ensures t.devices[i] == u.devices[i] {
      assert SamePairAt(t, u, i);
    }
    assert t.devices == u.devices;
    forall k ensures HwAt(t, k) == HwAt(u, k) {
      if !NobodysKey(s, k) {
        var i :| i in s.devices && KeyOf(s.devices[i]) == k;
        SameKeys(s, t, i);
        assert SamePairAt(t, u, i);
      }
    }
    SameHardware(t, u);
  }

  lemma OrderAt(s: System, p: System, t: System, r: System, u: System, keys: seq<Key>, i: Int32)
    requires Orders(s, p, t, r, u, keys) && i in s.devices
    ensures SamePairAt(t, u, i) <==> OrderIrrelevant(s, s.devices[i], keys)
  {
    DeviceOrder(s, p, t, r, u, i, keys);
  }

  lemma OrdersKeepDevices(s: System, p: System, t: System, r: System, u: System, keys: seq<Key>)
    requires Orders(s, p, t, r, u, keys)
    ensures SameDevices(s, t) && SameDevices(s, u)
  {
    SameDevicesTransitive(s, p, t);
    SameDevicesTransitive(s, r, u);
  }

  ghost predicate AllIrrelevant(s: System, keys: seq<Key>) {
    forall i | i in s.devices :: OrderIrrelevant(s, s.devices[i], keys)
  }

  lemma EqualWhenIrrelevant(s: System, p: System, t: System, r: System, u: System, keys: seq<Key>)
    requires Orders(s, p, t, r, u, keys) && AllIrrelevant(s, keys)
    ensures t == u
  {
    OrdersKeepDevices(s, p, t, r, u, keys);
    forall i | i in s.devices ensures SamePairAt(t, u, i) {
      OrderAt(s, p, t, r, u, keys, i);
    }
    forall k | NobodysKey(s, k) ensures HwAt(t, k) == HwAt(u, k) {
      UnownedKey(s, p, t, r, u, keys, k);
    }
    SamePairs(s, t, u);
  }

  lemma IrrelevantWhenEqual(s: System, p: System, t: System, r: System, u: System, keys: seq<Key>)
    requires Orders(s, p, t, r, u, keys) && t == u
    ensures AllIrrelevant(s, keys)
  {
    forall i | i in s.devices ensures OrderIrrelevant(s, s.devices[i], keys) {
      OrderAt(s, p, t, r, u, keys, i);
      SameKeys(s, p, i);
      SameKeys(p, t, i);
    }
  }

  lemma RunBothOrders(w: World, keys: seq<Key>, order: seq<Int32>)
    requires w.clock.Reliable() && WellFormed(w.sys) && Enumerates(order, w.sys.devices)
    ensures var p, r := Pass(w, order).0, ReconcileKeys(w, keys).0;
            Orders(w.sys, p.sys, ReconcileKeys(p, keys).0.sys, r.sys, Pass(r, order).0.sys, keys)
  {
    var p, r := Pass(w, order).0, ReconcileKeys(w, keys).0;
    PassSyncs(w, order);
    SyncedKeepsWellFormed(w.sys, p.sys);
    ReconcileKeysEffect(p, keys);
    ReconcileKeysEffect(w, keys);
    ReconciledKeepsWellFormed(w.sys, r.sys, keys);
    PassSyncs(r, order);
  }

  /**
   The two controllers commute exactly when the order is irrelevant for every device. The
   condition reads only the state before either of them runs.
   */
  lemma OrdersAgreeIff(w: World, keys: seq<Key>, order: seq<Int32>)
    requires w.clock.Reliable() && WellFormed(w.sys) && Enumerates(order, w.sys.devices)
    ensures ReconcileKeys(Pass(w, order).0, keys).0.sys == Pass(ReconcileKeys(w, keys).0, order).0.sys
            <==> AllIrrelevant(w.sys, keys)
  {
    RunBothOrders(w, keys, order);
    var p, r := Pass(w, order).0, ReconcileKeys(w, keys).0;
    var t, u := ReconcileKeys(p, keys).0.sys, Pass(r, order).0.sys;
    if t == u {
      IrrelevantWhenEqual(w.sys, p.sys, t, r.sys, u, keys);
    }
    if AllIrrelevant(w.sys, keys) {
      EqualWhenIrrelevant(w.sys, p.sys, t, r.sys, u, keys);
    }
  }

  lemma DoomedSyncFirst(s: System, p: System, t: System, id: Int32, keys: seq<Key>)
    requires id in s.devices && UpForDeletion(s.devices[id]) && Synced(s, p) && Reconciled(p, t, keys)
    ensures id in t.devices && PairAt(t, id) == Pair(s.devices[id], None)
  {
    SyncedPair(s, p, id);
    ReconciledPair(p, t, id, keys);
  }

  lemma DoomedWriteBackFirst(s: System, r: System, u: System, id: Int32, h: Hardware, keys: seq<Key>)
    requires id in s.devices && s.devices[id].id == id && Reconciled(s, r, keys) && Synced(r, u)
    requires Seen(s, s.devices[id], keys) && HwAt(s, KeyOf(s.devices[id])) == Some(h)
    ensures id in u.devices && u.devices[id] == s.devices[id].(status := Target(h)) && PairAt(u, id).h.Some?
  {
    ReconciledPair(s, r, id, keys);
    SyncedPair(r, u, id);
  }

  /**
   What the order decides for an offline or planned device in scope that still has its labelled
   Hardware object: sync first deletes the object and leaves the status alone; write-back first
   sets the status to staged or active and the object stays.
   */
  lemma OrderMatters(w: World, id: Int32, h: Hardware, keys: seq<Key>, order: seq<Int32>)
    requires w.clock.Reliable() && WellFormed(w.sys) && Enumerates(order, w.sys.devices)
    requires id in w.sys.devices && (w.sys.devices[id].status == Offline || w.sys.devices[id].status == Planned)
    requires w.sys.devices[id].inScope && w.sys.devices[id].complete && Seen(w.sys, w.sys.devices[id], keys)
    requires HwAt(w.sys, KeyOf(w.sys.devices[id])) == Some(h)
    ensures var d := w.sys.devices[id];
            var t := ReconcileKeys(Pass(w, order).0, keys).0.sys;
            var u := Pass(ReconcileKeys(w, keys).0, order).0.sys;
            && HwAt(t, KeyOf(d)) == None && id in t.devices && t.devices[id].status == d.status
            && HwAt(u, KeyOf(d)).Some? && id in u.devices && u.devices[id].status == (if Provisioned(h) then Active else Staged)
            && t != u
  {
    var p, r := Pass(w, order).0, ReconcileKeys(w, keys).0;
    RunBothOrders(w, keys, order);
    DoomedSyncFirst(w.sys, p.sys, ReconcileKeys(p, keys).0.sys, id, keys);
    DoomedWriteBackFirst(w.sys, r.sys, Pass(r, order).0.sys, id, h, keys);
  }

  function Lone(d: Device, h: Hardware): World { World(System(map[d.id := d], map[KeyOf(d) := h]), Clock({}, 0, false, 0)) }

  lemma LoneWellFormed(d: Device, h: Hardware)
    requires LabelId(h.labels) == Some(d.id)
    ensures WellFormed(Lone(d, h).sys) && Enumerates([d.id], Lone(d, h).sys.devices)
  {
  }

  const NODE := Device(7, "node", None, map[], Offline, true, true)
  const NODE_HARDWARE := Hardware(map[ID_LABEL := "7"], map[])

  lemma NodeLabel()
    ensures LabelId(NODE_HARDWARE.labels) == Some(7)
  {
    SevenParses();
  }

  /** The smallest such state: one offline device, and its Hardware object with its id. */
  lemma OfflineDeviceExample()
    ensures var w, k := Lone(NODE, NODE_HARDWARE), KeyOf(NODE);
            && HwAt(ReconcileKeys(Pass(w, [7]).0, [k]).0.sys, k) == None
            && HwAt(Pass(ReconcileKeys(w, [k]).0, [7]).0.sys, k) != None
  {
    NodeLabel();
    LoneWellFormed(NODE, NODE_HARDWARE);
    OrderMatters(Lone(NODE, NODE_HARDWARE), 7, NODE_HARDWARE, [KeyOf(NODE)], [7]);
  }
}
