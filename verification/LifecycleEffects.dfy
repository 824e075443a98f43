/**
 What one operation and one pass do to the two stores when any calls may fail: every
 operation acts as it would alone, and nothing outside its own device and key changes.
 */
module LifecycleEffects {
  import opened Basics
  import opened Text
  import opened Faults
  import opened Lifecycle

  // ---------- well-formed stores ----------

  function HwAt(s: System, k: Key): Option<Hardware> {
    if k in s.hardware then Some(s.hardware[k]) else None
  }

  ghost predicate DistinctKeys(devices: map<Int32, Device>) {
    forall i, j | i in devices && j in devices && i != j :: KeyOf(devices[i]) != KeyOf(devices[j])
  }

  predicate LabelAgrees(s: System, k: Key, h: Hardware) {
    LabelId(h.labels).Some? && LabelId(h.labels).value in s.devices ==> KeyOf(s.devices[LabelId(h.labels).value]) == k
  }

  /**
   Each device is stored under its id, no two devices share a key, and the id label of a
   Hardware object, when it names a device, names the device with that object's key.
   */
  ghost predicate WellFormed(s: System) {
    && (forall i | i in s.devices :: s.devices[i].id == i)
    && DistinctKeys(s.devices)
    && (forall k | k in s.hardware :: LabelAgrees(s, k, s.hardware[k]))
  }

  /** `order` lists every device exactly once. */
  ghost predicate Enumerates(order: seq<Int32>, devices: map<Int32, Device>) {
    && (forall i :: i in order <==> i in devices)
    && (forall i, j | 0 <= i < j < |order| :: order[i] != order[j])
  }

  /** Same devices, except for their status. */
  ghost predicate SameDevices(s: System, t: System) {
    && t.devices.Keys == s.devices.Keys
    && (forall i | i in s.devices :: t.devices[i] == s.devices[i].(status := t.devices[i].status))
  }

  lemma SameDevicesTransitive(s: System, t: System, u: System)
    requires SameDevices(s, t) && SameDevices(t, u)
    ensures SameDevices(s, u)
  {
  }

  // ---------- the effect of one operation on one device ----------

  function HwAfter(op: Op, s: System, d: Device): Option<Hardware> {
    if op.PruneOp? || op.CliPruneOp? then None
    else
      match HwAt(s, KeyOf(d))
      case None => Some(Hardware(DesiredLabels(d), map[]))
      case Some(h) => Some(h.(labels := Merged(h.labels, DesiredLabels(d))))
  }

  function StatusAfter(op: Op, s: System, d: Device): Status
    requires d.id in s.devices
  {
    if (op.ApplyOp? || op.CliApplyOp?) && HwAt(s, KeyOf(d)).Some? && Provisioned(HwAt(s, KeyOf(d)).value) then Active
    else s.devices[d.id].status
  }

  /** Nothing changes outside the key and the device of `d`. */
  ghost predicate OnlyTouches(s: System, t: System, d: Device) {
    && SameDevices(s, t)
    && (forall i | i in s.devices && i != d.id :: t.devices[i] == s.devices[i])
    && (forall k | k != KeyOf(d) :: HwAt(t, k) == HwAt(s, k))
  }

  /** A successful operation has its full effect; a failed one has, on each store, that effect or none. */
  ghost predicate Effect(op: Op, s: System, t: System, d: Device, ok: bool)
    requires d.id in s.devices && d.id in t.devices
  {
    var k := KeyOf(d);
    && (ok ==> HwAt(t, k) == HwAfter(op, s, d) && t.devices[d.id].status == StatusAfter(op, s, d))
    && (HwAt(t, k) == HwAt(s, k) || HwAt(t, k) == HwAfter(op, s, d))
    && (t.devices[d.id].status == s.devices[d.id].status || t.devices[d.id].status == StatusAfter(op, s, d))
  }

  lemma OwnId(d: Device)
    ensures LabelId(DesiredLabels(d)) == Some(d.id)
  {
    IdRoundTrip(d.id);
  }

  lemma SetStatusEffect(w: World, id: Int32, target: Status)
    ensures var (w', done) := SetStatus(w, id, target);
            && w'.sys.hardware == w.sys.hardware
            && SameDevices(w.sys, w'.sys)
            && (forall i | i in w.sys.devices && i != id :: w'.sys.devices[i] == w.sys.devices[i])
            && (id in w.sys.devices && done.Some? ==> w'.sys.devices[id].status == target)
            && (id in w.sys.devices && done.None? ==> w'.sys == w.sys)
            && w'.clock.faults == w.clock.faults
            && (w.clock.Reliable() && id in w.sys.devices ==> done.Some?)
  {
  }

  lemma PatchLabelsEffect(w: World, d: Device)
    requires KeyOf(d) in w.sys.hardware
    ensures var (w', ok) := PatchLabels(w, KeyOf(d), DesiredLabels(d));
            && w'.sys.devices == w.sys.devices
            && (forall k | k != KeyOf(d) :: HwAt(w'.sys, k) == HwAt(w.sys, k))
            && HwAt(w'.sys, KeyOf(d)) == (if ok then HwAfter(ApplyOp, w.sys, d) else HwAt(w.sys, KeyOf(d)))
            && w'.clock.faults == w.clock.faults
            && (w.clock.Reliable() ==> ok)
  {
  }

  lemma ActivateEffect(w: World, d: Device, h: Hardware)
    requires d.id in w.sys.devices
    ensures var (w', ok) := Activate(w, d, h);
            && w'.sys.hardware == w.sys.hardware
            && SameDevices(w.sys, w'.sys)
            && (forall i | i in w.sys.devices && i != d.id :: w'.sys.devices[i] == w.sys.devices[i])
            && (w'.sys.devices[d.id].status ==
                if ok && Provisioned(h) then Active else w.sys.devices[d.id].status)
            && w'.clock.faults == w.clock.faults
            && (w.clock.Reliable() ==> ok)
  {
    OwnId(d);
    SetStatusEffect(w, d.id, Active);
  }

  /** What an operation on one device guarantees, started in `s` under the given faults. */
  ghost predicate Performed(op: Op, s: System, faults: set<nat>, w': World, d: Device, ok: bool)
    requires d.id in s.devices
  {
    && OnlyTouches(s, w'.sys, d)
    && Effect(op, s, w'.sys, d, ok)
    && w'.clock.faults == faults
    && (faults == {} ==> if op.CliPruneOp? then HwAt(w'.sys, KeyOf(d)) == None else ok)
  }

  lemma ReconcileEffect(op: Op, w: World, d: Device)
    requires op.ApplyOp? || op.CliApplyOp?
    requires d.id in w.sys.devices && KeyOf(d) in w.sys.hardware
    ensures var (w', ok) := Reconcile(w, d); Performed(op, w.sys, w.clock.faults, w', d, ok)
  {
    var w1 := w.(clock := w.clock.Tick());
    var w2 := PatchLabels(w1, KeyOf(d), DesiredLabels(d)).0;
    PatchLabelsEffect(w1, d);
    ActivateEffect(w2, d, w.sys.hardware[KeyOf(d)]);
  }

  lemma NothingEffect(op: Op, w: World, d: Device, ok: bool)
    requires d.id in w.sys.devices
    requires ok ==> HwAt(w.sys, KeyOf(d)) == None && (op.PruneOp? || op.CliPruneOp?)
    requires w.clock.Reliable() ==> if op.CliPruneOp? then HwAt(w.sys, KeyOf(d)) == None else ok
    ensures Performed(op, w.sys, w.clock.faults, w, d, ok)
  {
  }

  lemma CreatedEffect(op: Op, w: World, d: Device)
    requires op.ApplyOp? || op.CliApplyOp?
    requires d.id in w.sys.devices && KeyOf(d) !in w.sys.hardware
    ensures Performed(op, w.sys, w.clock.faults, Created(w, d), d, true)
  {
  }

  lemma RemovedEffect(op: Op, w: World, d: Device)
    requires op.PruneOp? || op.CliPruneOp?
    requires d.id in w.sys.devices && KeyOf(d) in w.sys.hardware
    ensures Performed(op, w.sys, w.clock.faults, Removed(w, KeyOf(d)), d, true)
  {
  }

  lemma ApplyEffect(w: World, d: Device)
    requires d.id in w.sys.devices
    ensures var (w', ok) := Apply(w, d); Performed(ApplyOp, w.sys, w.clock.faults, w', d, ok)
  {
    var w1 := w.(clock := w.clock.Tick());
    if !w.clock.Up() {
      NothingEffect(ApplyOp, w1, d, false);
    } else if KeyOf(d) in w.sys.hardware {
      ReconcileEffect(ApplyOp, w1, d);
    } else if !w1.clock.Up() {
      NothingEffect(ApplyOp, w1.(clock := w1.clock.Tick()), d, false);
    } else {
      CreatedEffect(ApplyOp, w1, d);
    }
  }

  lemma PruneEffect(w: World, d: Device)
    requires d.id in w.sys.devices
    ensures var (w', ok) := Prune(w, d); Performed(PruneOp, w.sys, w.clock.faults, w', d, ok)
  {
    var w1 := w.(clock := w.clock.Tick());
    if w.clock.Up() && KeyOf(d) in w.sys.hardware && w1.clock.Up() {
      RemovedEffect(PruneOp, w1, d);
    } else {
      NothingEffect(PruneOp, Prune(w, d).0, d, Prune(w, d).1);
    }
  }

  lemma CliEffect(w: World, d: Device)
    requires d.id in w.sys.devices
    ensures var (w', ok) := CliApply(w, d); Performed(CliApplyOp, w.sys, w.clock.faults, w', d, ok)
    ensures var (w', ok) := CliPrune(w, d); Performed(CliPruneOp, w.sys, w.clock.faults, w', d, ok)
  {
    var w1 := w.(clock := w.clock.Tick());
    if !w.clock.Up() {
      NothingEffect(CliApplyOp, w1, d, false);
      NothingEffect(CliPruneOp, w1, d, false);
    } else if KeyOf(d) in w.sys.hardware {
      ReconcileEffect(CliApplyOp, w1, d);
      RemovedEffect(CliPruneOp, w, d);
    } else {
      CreatedEffect(CliApplyOp, w, d);
      NothingEffect(CliPruneOp, w1, d, false);
    }
  }

  lemma PerformEffect(op: Op, w: World, d: Device)
    requires d.id in w.sys.devices
    ensures var (w', ok) := Perform(op, w, d); Performed(op, w.sys, w.clock.faults, w', d, ok)
  {
    match op
    case ApplyOp => ApplyEffect(w, d);
    case PruneOp => PruneEffect(w, d);
    case CliApplyOp => CliEffect(w, d);
    case CliPruneOp => CliEffect(w, d);
  }

  // ---------- a list of devices ----------

  /** The devices of a listing: present, and pairwise different in id and key. */
  ghost predicate Separate(s: System, ds: seq<Device>) {
    && (forall d | d in ds :: d.id in s.devices)
    && (forall i, j | 0 <= i < j < |ds| :: ds[i].id != ds[j].id && KeyOf(ds[i]) != KeyOf(ds[j]))
  }

  ghost predicate NoId(ds: seq<Device>, id: Int32) { forall d | d in ds :: d.id != id }

  ghost predicate NoKey(ds: seq<Device>, k: Key) { forall d | d in ds :: KeyOf(d) != k }

  /** Each operation of a list has its own effect, and nothing else changes. */
  ghost predicate Isolated(op: Op, s: System, t: System, ds: seq<Device>, oks: seq<bool>)
    requires |oks| == |ds| && Separate(s, ds)
  {
    && SameDevices(s, t)
    && (forall i | 0 <= i < |ds| :: ds[i] in ds && Effect(op, s, t, ds[i], oks[i]))
    && (forall i | i in s.devices && NoId(ds, i) :: t.devices[i] == s.devices[i])
    && (forall k | NoKey(ds, k) :: HwAt(t, k) == HwAt(s, k))
  }

  lemma SeparateHead(s: System, ds: seq<Device>)
    requires Separate(s, ds) && ds != []
    ensures Separate(s, ds[1..])
    ensures NoId(ds[1..], ds[0].id) && NoKey(ds[1..], KeyOf(ds[0]))
  {
  }

  lemma SeparateCons(s: System, d: Device, rest: seq<Device>)
    requires Separate(s, rest) && d.id in s.devices && NoId(rest, d.id) && NoKey(rest, KeyOf(d))
    ensures Separate(s, [d] + rest)
  {
  }

  lemma EffectFramed(op: Op, s: System, s1: System, t1: System, t: System, d: Device, ok: bool)
    requires d.id in s.devices && d.id in s1.devices && d.id in t1.devices && d.id in t.devices
    requires HwAt(s1, KeyOf(d)) == HwAt(s, KeyOf(d)) && s1.devices[d.id] == s.devices[d.id]
    requires HwAt(t1, KeyOf(d)) == HwAt(t, KeyOf(d)) && t1.devices[d.id] == t.devices[d.id]
    requires Effect(op, s1, t1, d, ok)
    ensures Effect(op, s, t, d, ok)
  {
  }

  lemma IsolatedHead(op: Op, s: System, s1: System, t: System, d: Device, rest: seq<Device>, ok: bool, oks: seq<bool>)
    requires |oks| == |rest| && Separate(s1, rest)
    requires d.id in s.devices && OnlyTouches(s, s1, d) && Effect(op, s, s1, d, ok)
    requires NoId(rest, d.id) && NoKey(rest, KeyOf(d)) && Isolated(op, s1, t, rest, oks)
    ensures d.id in t.devices && Effect(op, s, t, d, ok)
  {
  }

  lemma IsolatedRest(op: Op, s: System, s1: System, t: System, d: Device, other: Device, ok: bool)
    requires d.id in s.devices && OnlyTouches(s, s1, d) && SameDevices(s1, t)
    requires other.id in s.devices && other.id in s1.devices && other.id != d.id && KeyOf(other) != KeyOf(d)
    requires other.id in t.devices && Effect(op, s1, t, other, ok)
    ensures Effect(op, s, t, other, ok)
  {
    EffectFramed(op, s, s1, t, t, other, ok);
  }

  lemma IsolatedTail(op: Op, s: System, s1: System, t: System, d: Device, rest: seq<Device>, oks: seq<bool>, j: nat)
    requires j < |rest| == |oks| && Separate(s1, rest)
    requires d.id in s.devices && OnlyTouches(s, s1, d) && rest[j].id in s.devices
    requires rest[j].id != d.id && KeyOf(rest[j]) != KeyOf(d) && Isolated(op, s1, t, rest, oks)
    ensures rest[j].id in t.devices && Effect(op, s, t, rest[j], oks[j])
  {
    IsolatedRest(op, s, s1, t, d, rest[j], oks[j]);
  }

  /** The untouched part of a list of operations. */
  ghost predicate Elsewhere(s: System, t: System, ds: seq<Device>)
    requires SameDevices(s, t)
  {
    && (forall i | i in s.devices && NoId(ds, i) :: t.devices[i] == s.devices[i])
    && (forall k | NoKey(ds, k) :: HwAt(t, k) == HwAt(s, k))
  }

  lemma ElsewhereCons(s: System, s1: System, t: System, d: Device, rest: seq<Device>)
    requires OnlyTouches(s, s1, d) && SameDevices(s1, t) && SameDevices(s, t) && Elsewhere(s1, t, rest)
    ensures Elsewhere(s, t, [d] + rest)
  {
    var ds := [d] + rest;
    assert forall x | x in rest :: x in ds;
    forall i | i in s.devices && NoId(ds, i) ensures t.devices[i] == s.devices[i] {
      assert d in ds && NoId(rest, i);
    }
    forall k | NoKey(ds, k) ensures HwAt(t, k) == HwAt(s, k) {
      assert d in ds && NoKey(rest, k);
    }
  }

  ghost predicate EffectAt(op: Op, s: System, t: System, d: Device, ok: bool) {
    d.id in s.devices && d.id in t.devices && Effect(op, s, t, d, ok)
  }

  lemma EffectsCons(op: Op, s: System, t: System, d: Device, rest: seq<Device>, ok: bool, oks: seq<bool>, i: nat)
    requires i <= |rest| == |oks|
    requires EffectAt(op, s, t, d, ok) && forall j | 0 <= j < |rest| :: EffectAt(op, s, t, rest[j], oks[j])
    ensures EffectAt(op, s, t, ([d] + rest)[i], ([ok] + oks)[i])
  {
    if i > 0 {
      assert EffectAt(op, s, t, rest[i - 1], oks[i - 1]);
      assert ([d] + rest)[i] == rest[i - 1] && ([ok] + oks)[i] == oks[i - 1];
    }
  }

  lemma EffectsOfRest(op: Op, s: System, s1: System, t: System, d: Device, rest: seq<Device>, oks: seq<bool>)
    requires |rest| == |oks| && Separate(s1, rest)
    requires d.id in s.devices && OnlyTouches(s, s1, d) && Isolated(op, s1, t, rest, oks)
    requires NoId(rest, d.id) && NoKey(rest, KeyOf(d)) && forall x | x in rest :: x.id in s.devices
    ensures forall j | 0 <= j < |rest| :: EffectAt(op, s, t, rest[j], oks[j])
  {
    forall j | 0 <= j < |rest| ensures EffectAt(op, s, t, rest[j], oks[j]) {
      assert rest[j] in rest;
      IsolatedTail(op, s, s1, t, d, rest, oks, j);
    }
  }

  lemma IsolatedFrom(op: Op, s: System, s1: System, t: System, d: Device, rest: seq<Device>, ok: bool, oks: seq<bool>)
    requires |oks| == |rest| && Separate(s, [d] + rest) && Separate(s1, rest)
    requires d.id in s.devices && OnlyTouches(s, s1, d) && Effect(op, s, s1, d, ok) && Isolated(op, s1, t, rest, oks)
    requires NoId(rest, d.id) && NoKey(rest, KeyOf(d)) && forall x | x in rest :: x.id in s.devices
    ensures Isolated(op, s, t, [d] + rest, [ok] + oks)
  {
    SameDevicesTransitive(s, s1, t);
    ElsewhereCons(s, s1, t, d, rest);
    IsolatedHead(op, s, s1, t, d, rest, ok, oks);
    EffectsOfRest(op, s, s1, t, d, rest, oks);
    forall i | 0 <= i < |[d] + rest|
      ensures ([d] + rest)[i] in [d] + rest && EffectAt(op, s, t, ([d] + rest)[i], ([ok] + oks)[i])
    {
      EffectsCons(op, s, t, d, rest, ok, oks, i);
    }
  }

  lemma IsolatedCons(op: Op, s: System, s1: System, t: System, ds: seq<Device>, ok: bool, oks: seq<bool>)
    requires ds != [] && |oks| == |ds| - 1
    requires Separate(s, ds) && Separate(s1, ds[1..])
    requires OnlyTouches(s, s1, ds[0]) && Effect(op, s, s1, ds[0], ok)
    requires Isolated(op, s1, t, ds[1..], oks)
    ensures Isolated(op, s, t, ds, [ok] + oks)
  {
    SeparateHead(s, ds);
    assert [ds[0]] + ds[1..] == ds;
    IsolatedFrom(op, s, s1, t, ds[0], ds[1..], ok, oks);
  }

  /** Every operation of a list acts as it would alone, whatever happens to the others. */
  lemma {:induction false} PerformAllIsolated(op: Op, w: World, ds: seq<Device>)
    requires Separate(w.sys, ds)
    ensures var (w', oks) := PerformAll(op, w, ds);
            && Isolated(op, w.sys, w'.sys, ds, oks)
            && w'.clock.faults == w.clock.faults
            && (w.clock.Reliable() && !op.CliPruneOp? ==> Failures(oks) == 0)
    decreases |ds|
  {
    if ds != [] {
      var (w1, ok) := Perform(op, w, ds[0]);
      var (w2, oks) := PerformAll(op, w1, ds[1..]);
      assert ds[0] in ds;
      SeparateHead(w.sys, ds);
      PerformEffect(op, w, ds[0]);
      PerformAllIsolated(op, w1, ds[1..]);
      IsolatedCons(op, w.sys, w1.sys, w2.sys, ds, ok, oks);
    }
  }

  lemma {:induction false} ListingSeparate(s: System, order: seq<Int32>, p: Device -> bool)
    requires WellFormed(s)
    requires forall i, j | 0 <= i < j < |order| :: order[i] != order[j]
    ensures Separate(s, Listing(s.devices, order, p))
    ensures forall d | d in Listing(s.devices, order, p) :: d.id in s.devices && s.devices[d.id] == d && d.id in order
  {
    if order != [] {
      var rest := Listing(s.devices, order[1..], p);
      ListingSeparate(s, order[1..], p);
      assert forall id | id in order[1..] :: id != order[0] && id in order;
      if order[0] in s.devices {
        SeparateCons(s, s.devices[order[0]], rest);
      }
    }
  }

  // ---------- one pass of the NetBox-to-Kubernetes controller ----------

  /** The Hardware object that the state `s` prescribes for device `d`. */
  function SyncedHw(s: System, d: Device): Option<Hardware> {
    if Wanted(d) then HwAfter(ApplyOp, s, d)
    else if Doomed(d) then None
    else HwAt(s, KeyOf(d))
  }

  function SyncedStatus(s: System, d: Device): Status {
    if Wanted(d) && HwAt(s, KeyOf(d)).Some? && Provisioned(HwAt(s, KeyOf(d)).value) then Active else d.status
  }

  ghost predicate NobodysKey(s: System, k: Key) { forall i | i in s.devices :: KeyOf(s.devices[i]) != k }

  /** `t` is what a pass makes of `s` when no call fails. */
  ghost predicate Synced(s: System, t: System) {
    && SameDevices(s, t)
    && (forall i | i in s.devices ::
          HwAt(t, KeyOf(s.devices[i])) == SyncedHw(s, s.devices[i]) && t.devices[i].status == SyncedStatus(s, s.devices[i]))
    && (forall k | NobodysKey(s, k) :: HwAt(t, k) == HwAt(s, k))
  }

  /** `Synced` leaves no choice: a state has one synced successor. */
  lemma SyncedUnique(s: System, t: System, u: System)
    requires Synced(s, t) && Synced(s, u)
    ensures t == u
  {
    assert forall i | i in s.devices :: t.devices[i] == u.devices[i];
    forall k ensures HwAt(t, k) == HwAt(u, k) {
      if !NobodysKey(s, k) {
        var i :| i in s.devices && KeyOf(s.devices[i]) == k;
      }
    }
    forall k ensures (k in t.hardware <==> k in u.hardware) && (k in t.hardware ==> t.hardware[k] == u.hardware[k]) {
      assert HwAt(t, k) == HwAt(u, k);
    }
    assert t.hardware == u.hardware;
  }

  /** What a pass does to one device: everything if its operation succeeded, and otherwise part of it. */
  ghost predicate Handled(s: System, t: System, d: Device, ok: bool)
    requires d.id in t.devices
  {
    var k := KeyOf(d);
    && (ok ==> HwAt(t, k) == SyncedHw(s, d) && t.devices[d.id].status == SyncedStatus(s, d))
    && (HwAt(t, k) == HwAt(s, k) || HwAt(t, k) == SyncedHw(s, d))
    && (t.devices[d.id].status == d.status || t.devices[d.id].status == SyncedStatus(s, d))
  }

  /** After applying `ds1` and pruning `ds2`, with the given outcomes. */
  ghost predicate PassIsolated(s: System, t: System, ds1: seq<Device>, oks1: seq<bool>, ds2: seq<Device>, oks2: seq<bool>)
    requires |oks1| == |ds1| && |oks2| == |ds2|
  {
    && SameDevices(s, t)
    && (forall i | 0 <= i < |ds1| :: ds1[i].id in t.devices && Handled(s, t, ds1[i], oks1[i]))
    && (forall i | 0 <= i < |ds2| :: ds2[i].id in t.devices && Handled(s, t, ds2[i], oks2[i]))
    && (forall i | i in s.devices && NoId(ds1, i) :: t.devices[i] == s.devices[i])
    && (forall k | NoKey(ds1, k) && NoKey(ds2, k) :: HwAt(t, k) == HwAt(s, k))
  }

  predicate ApplyLike(op: Op) { op.ApplyOp? || op.CliApplyOp? }

  lemma HandledApplied(op: Op, s: System, s1: System, t: System, d: Device, ok: bool)
    requires ApplyLike(op) && d.id in s.devices && s.devices[d.id] == d && Wanted(d)
    requires d.id in s1.devices && d.id in t.devices && Effect(op, s, s1, d, ok)
    requires HwAt(t, KeyOf(d)) == HwAt(s1, KeyOf(d)) && t.devices[d.id] == s1.devices[d.id]
    ensures Handled(s, t, d, ok)
  {
  }

  lemma HandledPruned(op: Op, s: System, s1: System, t: System, d: Device, ok: bool)
    requires !ApplyLike(op) && d.id in s.devices && s.devices[d.id] == d && Doomed(d)
    requires d.id in s1.devices && d.id in t.devices && Effect(op, s1, t, d, ok)
    requires HwAt(s1, KeyOf(d)) == HwAt(s, KeyOf(d)) && s1.devices[d.id] == d
    ensures Handled(s, t, d, ok) && t.devices[d.id].status == d.status
  {
  }

  /** The lists of one pass: the devices to apply and those to prune, with nothing in common. */
  ghost predicate PassLists(s: System, ds1: seq<Device>, ds2: seq<Device>) {
    && Separate(s, ds1) && Separate(s, ds2)
    && (forall d | d in ds1 :: Wanted(d) && s.devices[d.id] == d && NoKey(ds2, KeyOf(d)) && NoId(ds2, d.id))
    && (forall d | d in ds2 :: Doomed(d) && s.devices[d.id] == d && NoKey(ds1, KeyOf(d)) && NoId(ds1, d.id))
  }

  lemma TwoListsIsolated(op1: Op, op2: Op, s: System, s1: System, t: System,
                         ds1: seq<Device>, oks1: seq<bool>, ds2: seq<Device>, oks2: seq<bool>)
    requires ApplyLike(op1) && !ApplyLike(op2)
    requires |oks1| == |ds1| && |oks2| == |ds2| && PassLists(s, ds1, ds2) && Separate(s1, ds2)
    requires Isolated(op1, s, s1, ds1, oks1) && Isolated(op2, s1, t, ds2, oks2)
    ensures PassIsolated(s, t, ds1, oks1, ds2, oks2)
  {
    SameDevicesTransitive(s, s1, t);
    forall i | 0 <= i < |ds1| ensures ds1[i].id in t.devices && Handled(s, t, ds1[i], oks1[i]) {
      assert ds1[i] in ds1;
      HandledApplied(op1, s, s1, t, ds1[i], oks1[i]);
    }
    forall i | 0 <= i < |ds2|
      ensures ds2[i].id in t.devices && Handled(s, t, ds2[i], oks2[i]) && t.devices[ds2[i].id].status == ds2[i].status
    {
      assert ds2[i] in ds2;
      HandledPruned(op2, s, s1, t, ds2[i], oks2[i]);
    }
    forall i | i in s.devices && NoId(ds1, i) ensures t.devices[i] == s.devices[i] {
      if !NoId(ds2, i) {
        var d :| d in ds2 && d.id == i;
        var j :| 0 <= j < |ds2| && ds2[j] == d;
        assert t.devices[ds2[j].id].status == ds2[j].status;
      }
    }
  }

  lemma PassListsOf(s: System, order: seq<Int32>)
    requires WellFormed(s) && Enumerates(order, s.devices)
    ensures PassLists(s, Listing(s.devices, order, Wanted), Listing(s.devices, order, Doomed))
  {
    ListingSeparate(s, order, Wanted);
    ListingSeparate(s, order, Doomed);
  }

  lemma LoopsIsolated(w: World, ds1: seq<Device>, ds2: seq<Device>)
    requires PassLists(w.sys, ds1, ds2)
    ensures var l := RunLoops(w, ds1, ds2);
            && PassIsolated(w.sys, l.w.sys, ds1, l.applied, ds2, l.pruned)
            && l.w.clock.faults == w.clock.faults
            && (w.clock.Reliable() ==> Failures(l.applied) == 0 && Failures(l.pruned) == 0)
  {
    var (w1, applied) := PerformAll(ApplyOp, w, ds1);
    var (w2, pruned) := PerformAll(PruneOp, w1, ds2);
    PerformAllIsolated(ApplyOp, w, ds1);
    PerformAllIsolated(PruneOp, w1, ds2);
    TwoListsIsolated(ApplyOp, PruneOp, w.sys, w1.sys, w2.sys, ds1, applied, ds2, pruned);
  }

  /**
   Fault isolation. Whatever calls fail during a pass: every device whose operation succeeded
   ends as a pass without failures would leave it, a failing one is at worst half done,
   everything outside the two lists is untouched, and the pass reports exactly the number of
   operations that failed; `applied` and `pruned` are the outcomes of its two loops. A failed
   listing changes nothing.
   */
  lemma PassIsFaultIsolated(w: World, order: seq<Int32>) returns (applied: seq<bool>, pruned: seq<bool>)
    requires WellFormed(w.sys) && Enumerates(order, w.sys.devices)
    ensures var (w', out) := Pass(w, order);
            var ds1, ds2 := Listing(w.sys.devices, order, Wanted), Listing(w.sys.devices, order, Doomed);
            && (out.None? ==> w'.sys == w.sys)
            && (out.Some? ==>
                  && RunLoops(w.(clock := w.clock.Tick().Tick()), ds1, ds2) == Loops(w', applied, pruned)
                  && PassIsolated(w.sys, w'.sys, ds1, applied, ds2, pruned)
                  && out.value == Failures(applied) + Failures(pruned))
            && (w.clock.Reliable() ==> out == Some(0))
            && w'.clock.faults == w.clock.faults
  {
    var ds1, ds2 := Listing(w.sys.devices, order, Wanted), Listing(w.sys.devices, order, Doomed);
    var w2 := w.(clock := w.clock.Tick().Tick());
    var l := RunLoops(w2, ds1, ds2);
    applied, pruned := l.applied, l.pruned;
    PassListsOf(w.sys, order);
    LoopsIsolated(w2, ds1, ds2);
  }

  lemma SetStatusChanges(w: World, id: Int32, target: Status)
    ensures var (w', done) := SetStatus(w, id, target); done == Some(true) <==> w'.sys != w.sys
  {
    var w' := SetStatus(w, id, target).0;
    if id in w.sys.devices && w.sys.devices[id].status != target && w'.sys != w.sys {
      assert w'.sys.devices[id].status == target;
    }
  }

  /** A result of sync-status says Updated exactly when its entry changed the stores, whichever calls fail. */
  lemma StatusUpdatedExact(w: World, x: Listed)
    ensures var (w', results) := StatusEntry(w, x);
            && (results == [] ==> w' == w)
            && (results != [] ==>
                  && results[0].hostname == x.k.name
                  && (results[0].updated <==> w'.sys != w.sys)
                  && (results[0].updated ==> results[0].problem.None? && results[0].id == LabelId(x.h.labels)))
  {
    var id := LabelId(x.h.labels);
    if id.Some? {
      SetStatusChanges(w, id.value, Target(x.h));
    }
  }
}
