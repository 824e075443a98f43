/**
 What the lifecycle operations do, stated over device status, labels and annotations alone: the
 passes by status, the command-line sync-status by annotation, and errors by failed calls.
 */
module LifecycleMeaning {
  import opened Basics
  import opened Text
  import opened Faults
  import opened Lifecycle
  import opened LifecycleEffects
  import opened LifecycleConvergence

  // ---------- a pass, by status ----------

  function PlaceOf(d: Device): Key { Key(if d.tenant.Some? then d.tenant.value else "default", d.name) }

  function StoredAt(s: System, k: Key): (h: Option<Hardware>) { if k in s.hardware then Some(s.hardware[k]) else None }

  predicate IsProvisioned(h: Hardware) {
    "v1alpha1.tinkerbell.org/provisioned" in h.annotations && h.annotations["v1alpha1.tinkerbell.org/provisioned"] == "true"
  }

  const OWN_LABELS := {"generated-by", "status", "netbox-device-id"}

  /** The labels of a staged device's object; anything else on it is as it was in `before`. */
  ghost predicate LabelledFor(labels: map<string, string>, before: map<string, string>, d: Device) {
    && Get(labels, "generated-by") == "machinecfg"
    && Get(labels, "status") == "Staged"
    && ParseInt32(Get(labels, "netbox-device-id")) == Some(d.id)
    && (forall f | f in d.facts && f !in OWN_LABELS :: Get(labels, f) == d.facts[f])
    && (forall f | f !in d.facts && f !in OWN_LABELS :: (f in labels <==> f in before) && Get(labels, f) == Get(before, f))
  }

  /** What a staged device leads to. */
  ghost predicate StagedOutcome(s: System, t: System, d: Device, after: Device) {
    var h, h' := StoredAt(s, PlaceOf(d)), StoredAt(t, PlaceOf(d));
    && h'.Some?
    && LabelledFor(h'.value.labels, if h.Some? then h.value.labels else map[], d)
    && h'.value.annotations == (if h.Some? then h.value.annotations else map[])
    && after.status == if h.Some? && IsProvisioned(h.value) then Active else Staged
  }

  /** What a pass makes of device `d`, by its status. */
  ghost predicate Outcome(s: System, t: System, d: Device, after: Device) {
    var same := StoredAt(t, PlaceOf(d)) == StoredAt(s, PlaceOf(d)) && after == d;
    if !d.inScope || !d.complete then same
    else
      match d.status
      case Offline => StoredAt(t, PlaceOf(d)) == None && after == d
      case Planned => StoredAt(t, PlaceOf(d)) == None && after == d
      case Staged => StagedOutcome(s, t, d, after) && after == d.(status := after.status)
      case Active => same
      case Failed => same
      case Inventory => same
      case Decommissioning => same
  }

  /** Every device has its outcome, and an object that belongs to no device stays. */
  ghost predicate Outcomes(s: System, t: System) {
    && t.devices.Keys == s.devices.Keys
    && (forall i | i in s.devices :: Outcome(s, t, s.devices[i], t.devices[i]))
    && (forall k | (forall i | i in s.devices :: PlaceOf(s.devices[i]) != k) :: StoredAt(t, k) == StoredAt(s, k))
  }

  lemma DesiredAre(d: Device)
    ensures var m := DesiredLabels(d);
            && "generated-by" in m && m["generated-by"] == "machinecfg"
            && "status" in m && m["status"] == StatusLabel(d.status)
            && "netbox-device-id" in m && m["netbox-device-id"] == Itoa(d.id)
            && (forall f | f !in OWN_LABELS :: (f in m <==> f in d.facts) && (f in m ==> m[f] == d.facts[f]))
  {
  }

  lemma MergedLabels(labels: map<string, string>, d: Device)
    requires d.status == Staged
    ensures LabelledFor(Merged(labels, DesiredLabels(d)), labels, d)
    ensures LabelledFor(DesiredLabels(d), map[], d)
  {
    DesiredAre(d);
    IdRoundTrip(d.id);
    assert StatusLabel(Staged) == "Staged";
  }

  function Labelled(d: Device, h: Option<Hardware>): Hardware {
    match h
    case None => Hardware(DesiredLabels(d), map[])
    case Some(x) => x.(labels := Merged(x.labels, DesiredLabels(d)))
  }

  lemma LabelledIsFor(d: Device, h: Option<Hardware>)
    requires d.status == Staged
    ensures LabelledFor(Labelled(d, h).labels, if h.Some? then h.value.labels else map[], d)
    ensures Labelled(d, h).annotations == if h.Some? then h.value.annotations else map[]
  {
    MergedLabels(if h.Some? then h.value.labels else map[], d);
  }

  lemma SyncedLabelled(s: System, t: System, i: Int32)
    requires Synced(s, t) && i in s.devices
    requires s.devices[i].status == Staged && s.devices[i].inScope && s.devices[i].complete
    ensures var d := s.devices[i];
            var h := StoredAt(s, PlaceOf(d));
            && StoredAt(t, PlaceOf(d)) == Some(Labelled(d, h))
            && t.devices[i].status == if h.Some? && IsProvisioned(h.value) then Active else Staged
  {
    var d := s.devices[i];
    assert HwAt(t, KeyOf(d)) == SyncedHw(s, d) && t.devices[i].status == SyncedStatus(s, d);
  }

  lemma SyncedStaged(s: System, t: System, i: Int32)
    requires Synced(s, t) && i in s.devices
    requires s.devices[i].status == Staged && s.devices[i].inScope && s.devices[i].complete
    ensures StagedOutcome(s, t, s.devices[i], t.devices[i])
  {
    SyncedLabelled(s, t, i);
    LabelledIsFor(s.devices[i], StoredAt(s, PlaceOf(s.devices[i])));
  }

  lemma SyncedOther(s: System, t: System, i: Int32)
    requires Synced(s, t) && i in s.devices
    ensures var d := s.devices[i];
            && t.devices[i] == d.(status := t.devices[i].status)
            && (d.status != Staged || !d.inScope || !d.complete ==>
                  && t.devices[i] == d
                  && StoredAt(t, PlaceOf(d)) ==
                     if (d.status == Offline || d.status == Planned) && d.inScope && d.complete then None
                     else StoredAt(s, PlaceOf(d)))
  {
    var d := s.devices[i];
    assert t.devices[i] == d.(status := t.devices[i].status);
    assert HwAt(t, KeyOf(d)) == SyncedHw(s, d) && t.devices[i].status == SyncedStatus(s, d);
  }

  lemma SyncedOutcome(s: System, t: System, i: Int32)
    requires Synced(s, t) && i in s.devices
    ensures Outcome(s, t, s.devices[i], t.devices[i])
  {
    var d := s.devices[i];
    SyncedOther(s, t, i);
    if d.status == Staged && d.inScope && d.complete {
      SyncedStaged(s, t, i);
    }
  }

  lemma SyncedOutcomes(s: System, t: System)
    requires Synced(s, t)
    ensures Outcomes(s, t)
  {
    forall i | i in s.devices ensures Outcome(s, t, s.devices[i], t.devices[i]) {
      SyncedOutcome(s, t, i);
    }
    forall k | (forall i | i in s.devices :: PlaceOf(s.devices[i]) != k) ensures StoredAt(t, k) == StoredAt(s, k) {
      assert NobodysKey(s, k);
      assert HwAt(t, k) == HwAt(s, k);
    }
  }

  /** Both implementations of the sync, without failures. */
  lemma PassOutcomes(w: World, order: seq<Int32>)
    requires w.clock.Reliable() && WellFormed(w.sys) && Enumerates(order, w.sys.devices)
    ensures Outcomes(w.sys, Pass(w, order).0.sys) && Outcomes(w.sys, CliPass(w, order).sys)
  {
    PassSyncs(w, order);
    CliPassAgrees(w, w, order);
    SyncedOutcomes(w.sys, Pass(w, order).0.sys);
  }

  // ---------- an error is a failed call ----------

  lemma SetStatusErrors(w: World, id: Int32, target: Status)
    requires !w.clock.failed && id in w.sys.devices
    ensures var (w', done) := SetStatus(w, id, target); done.None? <==> w'.clock.failed
  {
  }

  lemma PatchErrors(w: World, k: Key, desired: map<string, string>)
    requires !w.clock.failed && k in w.sys.hardware
    ensures var (w', ok) := PatchLabels(w, k, desired);
            (ok <==> !w'.clock.failed) && w'.sys.devices == w.sys.devices
  {
  }

  lemma ActivateErrors(w: World, d: Device, h: Hardware)
    requires !w.clock.failed && d.id in w.sys.devices
    ensures var (w', ok) := Activate(w, d, h); ok <==> !w'.clock.failed
  {
    OwnId(d);
    SetStatusErrors(w, d.id, Active);
  }

  lemma ReconcileErrors(w: World, d: Device)
    requires !w.clock.failed && d.id in w.sys.devices && KeyOf(d) in w.sys.hardware
    ensures var (w', ok) := Reconcile(w, d); ok <==> !w'.clock.failed
  {
    var w1 := w.(clock := w.clock.Tick());
    if w.clock.Up() {
      PatchErrors(w1, KeyOf(d), DesiredLabels(d));
      var (w2, ok) := PatchLabels(w1, KeyOf(d), DesiredLabels(d));
      if ok {
        ActivateErrors(w2, d, w.sys.hardware[KeyOf(d)]);
      }
    }
  }

  /**
   An operation of a sync reports an error exactly when one of its calls failed; the delete of the
   command line also when there is nothing to delete.
   */
  lemma OperationErrors(op: Op, w: World, d: Device)
    requires !w.clock.failed && d.id in w.sys.devices
    ensures var (w', ok) := Perform(op, w, d);
            ok <==> !w'.clock.failed && (op.CliPruneOp? ==> KeyOf(d) in w.sys.hardware)
  {
    var w1 := w.(clock := w.clock.Tick());
    if (op.ApplyOp? || op.CliApplyOp?) && w.clock.Up() && KeyOf(d) in w.sys.hardware {
      ReconcileErrors(w1, d);
    }
  }

  /** An event is an error exactly when a call failed or the labelled device does not exist. */
  lemma EventErrors(w: World, k: Key)
    requires !w.clock.failed
    ensures var (w', ok) := ReconcileKey(w, k);
            var missing := k in w.sys.hardware && LabelId(w.sys.hardware[k].labels).Some?
                           && LabelId(w.sys.hardware[k].labels).value !in w.sys.devices;
            ok <==> !w'.clock.failed && !missing
  {
    if k in w.sys.hardware && LabelId(w.sys.hardware[k].labels).Some? {
      var id := LabelId(w.sys.hardware[k].labels).value;
      if w.clock.Up() && id in w.sys.devices {
        SetStatusErrors(w.(clock := w.clock.Tick()), id, Target(w.sys.hardware[k]));
      }
    }
  }

  lemma ActivateFailedStays(w: World, d: Device, h: Hardware)
    requires w.clock.failed
    ensures Activate(w, d, h).0.clock.failed
  {
  }

  lemma ReconcileFailedStays(w: World, d: Device)
    requires w.clock.failed && KeyOf(d) in w.sys.hardware
    ensures Reconcile(w, d).0.clock.failed
  {
    var (w2, ok) := PatchLabels(w.(clock := w.clock.Tick()), KeyOf(d), DesiredLabels(d));
    assert w2.clock.failed;
    ActivateFailedStays(w2, d, w.sys.hardware[KeyOf(d)]);
  }

  lemma FailedStays(op: Op, w: World, d: Device)
    requires w.clock.failed
    ensures Perform(op, w, d).0.clock.failed
  {
    if KeyOf(d) in w.sys.hardware {
      ReconcileFailedStays(w.(clock := w.clock.Tick()), d);
    }
  }

  lemma {:induction false} ListFailedStays(op: Op, w: World, ds: seq<Device>)
    requires w.clock.failed
    ensures PerformAll(op, w, ds).0.clock.failed
    decreases |ds|
  {
    if ds != [] {
      FailedStays(op, w, ds[0]);
      ListFailedStays(op, Perform(op, w, ds[0]).0, ds[1..]);
    }
  }

  lemma {:induction false} ListErrors(op: Op, w: World, ds: seq<Device>)
    requires (op == ApplyOp || op == PruneOp) && !w.clock.failed && Separate(w.sys, ds)
    ensures var (w', oks) := PerformAll(op, w, ds); Failures(oks) == 0 <==> !w'.clock.failed
    decreases |ds|
  {
    if ds != [] {
      var w1 := Perform(op, w, ds[0]).0;
      assert ds[0] in ds;
      OperationErrors(op, w, ds[0]);
      if w1.clock.failed {
        ListFailedStays(op, w1, ds[1..]);
      } else {
        PerformEffect(op, w, ds[0]);
        SeparateHead(w.sys, ds);
        ListErrors(op, w1, ds[1..]);
      }
    }
  }

  /** A pass succeeds exactly when none of its calls failed. */
  lemma PassErrors(w: World, order: seq<Int32>)
    requires !w.clock.failed && WellFormed(w.sys) && Enumerates(order, w.sys.devices)
    ensures var (w', out) := Pass(w, order); out == Some(0) <==> !w'.clock.failed
  {
    var ds1, ds2 := Listing(w.sys.devices, order, Wanted), Listing(w.sys.devices, order, Doomed);
    var w2 := w.(clock := w.clock.Tick().Tick());
    PassListsOf(w.sys, order);
    if !w2.clock.failed {
      ListErrors(ApplyOp, w2, ds1);
      PerformAllIsolated(ApplyOp, w2, ds1);
      var w3 := PerformAll(ApplyOp, w2, ds1).0;
      if w3.clock.failed {
        ListFailedStays(PruneOp, w3, ds2);
      } else {
        ListErrors(PruneOp, w3, ds2);
      }
    }
  }

  // ---------- the write-back, by annotation ----------

  /** Only the status of device `id` has changed, to `target`. */
  predicate OnlyStatus(s: System, t: System, id: Int32, target: Status)
    requires id in s.devices
  {
    t.hardware == s.hardware && t.devices == s.devices[id := s.devices[id].(status := target)]
  }

  lemma SetStatusSets(w: World, id: Int32, target: Status)
    requires w.clock.Reliable() && id in w.sys.devices
    ensures var (w', done) := SetStatus(w, id, target);
            OnlyStatus(w.sys, w'.sys, id, target) && done == Some(w.sys.devices[id].status != target)
  {
    var d := w.sys.devices[id];
    if d.status == target {
      assert d.(status := target) == d;
      assert w.sys.devices[id := d] == w.sys.devices;
    }
  }

  /** An event sets the labelled device to active when the object is provisioned, and to staged otherwise. */
  lemma EventOutcome(w: World, k: Key, id: Int32)
    requires w.clock.Reliable() && k in w.sys.hardware
    requires ParseInt32(Get(w.sys.hardware[k].labels, "netbox-device-id")) == Some(id) && id in w.sys.devices
    ensures var (w', ok) := ReconcileKey(w, k);
            ok && OnlyStatus(w.sys, w'.sys, id, if IsProvisioned(w.sys.hardware[k]) then Active else Staged)
  {
    SetStatusSets(w.(clock := w.clock.Tick()), id, Target(w.sys.hardware[k]));
  }

  /** The annotation is absent or "true"; the command-line sync-status ignores objects with any other value. */
  predicate Explicit(h: Hardware) {
    IsProvisioned(h) || "v1alpha1.tinkerbell.org/provisioned" !in h.annotations
  }

  /** An entry of the command-line sync-status, by annotation and label. */
  lemma EntryOutcome(w: World, x: Listed)
    requires w.clock.Reliable()
    ensures var (w', results) := StatusEntry(w, x);
            var text := Get(x.h.labels, "netbox-device-id");
            var id := ParseInt32(text);
            if !Explicit(x.h) then w' == w && results == []
            else if text == "" then w' == w && results == [StatusResult(x.k.name, None, false, Some(NoLabel))]
            else if id.None? then w' == w && results == [StatusResult(x.k.name, None, false, Some(BadLabel))]
            else if id.value !in w.sys.devices then w'.sys == w.sys && results == [StatusResult(x.k.name, id, false, Some(NotUpdated))]
            else
              var target := if IsProvisioned(x.h) then Active else Staged;
              && OnlyStatus(w.sys, w'.sys, id.value, target)
              && results == [StatusResult(x.k.name, id, w.sys.devices[id.value].status != target, None)]
  {
    var id := LabelId(x.h.labels);
    if id.Some? && id.value in w.sys.devices {
      SetStatusSets(w, id.value, Target(x.h));
    }
  }

  // ---------- both write-backs ----------

  /** The listing has an object at `k` that sync-status handles. */
  predicate Handles(xs: seq<Listed>, k: Key) { exists x | x in xs :: x.k == k && Explicit(x.h) }

  predicate Fresh(s: System, xs: seq<Listed>) { forall x | x in xs :: x.k in s.hardware && s.hardware[x.k] == x.h }

  /** `t` is `s` after sync-status of the listed objects. */
  ghost predicate StatusWritten(s: System, t: System, xs: seq<Listed>) {
    && t.hardware == s.hardware
    && SameDevices(s, t)
    && (forall i | i in s.devices ::
          t.devices[i].status ==
          if Handles(xs, KeyOf(s.devices[i])) then ReconciledStatus(s, s.devices[i]) else s.devices[i].status)
  }

  lemma EntryWrites(w: World, x: Listed)
    requires w.clock.Reliable() && WellFormed(w.sys) && Fresh(w.sys, [x])
    ensures var w' := StatusEntry(w, x).0; StatusWritten(w.sys, w'.sys, [x]) && w'.clock.Reliable()
  {
    var s, t := w.sys, StatusEntry(w, x).0.sys;
    EntryOutcome(w, x);
    assert x in [x];
    assert LabelAgrees(s, x.k, s.hardware[x.k]);
    forall i | i in s.devices
      ensures t.devices[i].status ==
              if Handles([x], KeyOf(s.devices[i])) then ReconciledStatus(s, s.devices[i]) else s.devices[i].status
    {
      assert Handles([x], KeyOf(s.devices[i])) <==> x.k == KeyOf(s.devices[i]) && Explicit(x.h);
    }
  }

  lemma HandlesCons(xs: seq<Listed>, k: Key)
    requires xs != []
    ensures Handles(xs, k) <==> Handles([xs[0]], k) || Handles(xs[1..], k)
  {
    assert forall x | x in xs :: x == xs[0] || x in xs[1..];
    assert xs[0] in xs;
  }

  /** The object at the key of device `i` carries its id. */
  predicate Reached(s: System, i: Int32)
    requires i in s.devices
  {
    var h := HwAt(s, KeyOf(s.devices[i]));
    h.Some? && LabelId(h.value.labels) == Some(s.devices[i].id)
  }

  lemma ReconciledStatusKept(s: System, t: System, i: Int32)
    requires SameDevices(s, t) && t.hardware == s.hardware && i in s.devices
    ensures ReconciledStatus(t, t.devices[i]) ==
            if ReconciledStatus(s, s.devices[i]) == s.devices[i].status && !Reached(s, i) then t.devices[i].status
            else ReconciledStatus(s, s.devices[i])
  {
    assert t.devices[i] == s.devices[i].(status := t.devices[i].status);
  }

  lemma StatusWrittenCons(s: System, s1: System, t: System, xs: seq<Listed>)
    requires xs != [] && StatusWritten(s, s1, [xs[0]]) && StatusWritten(s1, t, xs[1..])
    ensures StatusWritten(s, t, xs)
  {
    SameDevicesTransitive(s, s1, t);
    forall i | i in s.devices
      ensures t.devices[i].status ==
              if Handles(xs, KeyOf(s.devices[i])) then ReconciledStatus(s, s.devices[i]) else s.devices[i].status
    {
      HandlesCons(xs, KeyOf(s.devices[i]));
      assert s1.devices[i] == s.devices[i].(status := s1.devices[i].status);
      ReconciledStatusKept(s, s1, i);
    }
  }

  lemma SameKeepsWellFormed(s: System, t: System)
    requires WellFormed(s) && SameDevices(s, t) && t.hardware == s.hardware
    ensures WellFormed(t)
  {
    forall i | i in s.devices ensures t.devices[i].id == i && KeyOf(t.devices[i]) == KeyOf(s.devices[i]) {
      assert t.devices[i] == s.devices[i].(status := t.devices[i].status);
    }
    forall k | k in t.hardware ensures LabelAgrees(t, k, t.hardware[k]) {
      assert LabelAgrees(s, k, s.hardware[k]);
    }
  }

  lemma {:induction false} EntriesWrite(w: World, xs: seq<Listed>)
    requires w.clock.Reliable() && WellFormed(w.sys) && Fresh(w.sys, xs)
    ensures StatusWritten(w.sys, StatusEntries(w, xs).0.sys, xs)
    decreases |xs|
  {
    if xs != [] {
      var w1 := StatusEntry(w, xs[0]).0;
      assert xs[0] in xs;
      EntryWrites(w, xs[0]);
      SameKeepsWellFormed(w.sys, w1.sys);
      EntriesWrite(w1, xs[1..]);
      StatusWrittenCons(w.sys, w1.sys, StatusEntries(w1, xs[1..]).0.sys, xs);
    }
  }

  /** A listing has exactly the objects of its namespace; the empty one has all. */
  lemma {:induction false} ListingExactly(hardware: map<Key, Hardware>, order: seq<Key>, namespace: string, x: Listed)
    ensures x in HardwareIn(hardware, order, namespace) <==>
            x.k in order && x.k in hardware && hardware[x.k] == x.h && (namespace == "" || x.k.namespace == namespace)
  {
    if order != [] {
      ListingExactly(hardware, order[1..], namespace, x);
      assert x.k in order <==> x.k == order[0] || x.k in order[1..];
    }
  }

  /** The controller sets this device to staged, and the command line ignores it. */
  predicate Ignored(s: System, i: Int32)
    requires i in s.devices
  {
    Reached(s, i) && !Explicit(s.hardware[KeyOf(s.devices[i])]) && s.devices[i].status != Staged
  }

  lemma SameStatusAt(s: System, t: System, u: System, xs: seq<Listed>, events: seq<Key>, i: Int32)
    requires i in s.devices && StatusWritten(s, t, xs) && Reconciled(s, u, events) && CoversHardware(s, events)
    requires forall k | k in s.hardware :: Handles(xs, k) <==> Explicit(s.hardware[k])
    requires forall k | k !in s.hardware :: !Handles(xs, k)
    ensures t.devices[i] == u.devices[i] <==> !Ignored(s, i)
  {
    assert t.devices[i] == s.devices[i].(status := t.devices[i].status);
    assert u.devices[i] == s.devices[i].(status := u.devices[i].status);
  }

  lemma AllHandled(s: System, keys: seq<Key>)
    requires CoversHardware(s, keys)
    ensures var xs := HardwareIn(s.hardware, keys, "");
            && (forall k | k in s.hardware :: Handles(xs, k) <==> Explicit(s.hardware[k]))
            && (forall k | k !in s.hardware :: !Handles(xs, k))
  {
    forall k | k in s.hardware && Explicit(s.hardware[k]) ensures Handles(HardwareIn(s.hardware, keys, ""), k) {
      ListingExactly(s.hardware, keys, "", Listed(k, s.hardware[k]));
    }
  }

  /**
   The command-line sync-status over all objects leaves the stores as the controller does exactly when
   no device that is not staged has an object with an annotation other than "true".
   */
  lemma StatusPassAgreesIff(w: World, keys: seq<Key>, events: seq<Key>)
    requires w.clock.Reliable() && WellFormed(w.sys) && CoversHardware(w.sys, keys) && CoversHardware(w.sys, events)
    ensures StatusPass(w, keys, "").0.sys == ReconcileKeys(w, events).0.sys
            <==> forall i | i in w.sys.devices :: !Ignored(w.sys, i)
  {
    var s, t, u := w.sys, StatusPass(w, keys, "").0.sys, ReconcileKeys(w, events).0.sys;
    var xs := HardwareIn(s.hardware, keys, "");
    EntriesWrite(w.(clock := w.clock.Tick()), xs);
    ReconcileKeysEffect(w, events);
    AllHandled(s, keys);
    forall i | i in s.devices ensures t.devices[i] == u.devices[i] <==> !Ignored(s, i) {
      SameStatusAt(s, t, u, xs, events, i);
    }
    if forall i | i in s.devices :: !Ignored(s, i) {
      assert t.devices == u.devices;
    }
  }

  const HALF_DONE := Device(7, "node", None, map[], Planned, true, true)

  const HALF_DONE_HARDWARE := Hardware(map["netbox-device-id" := "7"], map["v1alpha1.tinkerbell.org/provisioned" := "false"])

  lemma IgnoredListing(w: World, k: Key, h: Hardware)
    requires w.clock.Reliable() && w.sys.hardware == map[k := h] && !Explicit(h)
    ensures StatusPass(w, [k], "").0.sys == w.sys
  {
    var xs := HardwareIn(w.sys.hardware, [k], "");
    var w1 := w.(clock := w.clock.Tick());
    assert [k][1..] == [] && HardwareIn(w.sys.hardware, [], "") == [];
    assert xs == [Listed(k, h)] && xs[1..] == [];
    EntryOutcome(w1, xs[0]);
    assert StatusEntries(w1, xs).0 == StatusEntries(w1, xs[1..]).0;
  }

  /** A planned device and an object that says "false": the controller stages it, the command line does not. */
  lemma FalseAnnotationExample(w: World)
    requires w.clock.Reliable() && w.sys == System(map[7 := HALF_DONE], map[PlaceOf(HALF_DONE) := HALF_DONE_HARDWARE])
    ensures var k := PlaceOf(HALF_DONE);
            ReconcileKey(w, k).0.sys.devices[7].status == Staged && StatusPass(w, [k], "").0.sys == w.sys
  {
    var k := PlaceOf(HALF_DONE);
    SevenParses();
    EventOutcome(w, k, 7);
    assert "false"[0] != "true"[0];
    IgnoredListing(w, k, HALF_DONE_HARDWARE);
  }

  // ---------- an error does not stop a loop ----------

  lemma PerformAllCons(op: Op, w: World, d: Device, rest: seq<Device>)
    ensures var (w1, ok) := Perform(op, w, d);
            var (w2, oks) := PerformAll(op, w1, rest);
            PerformAll(op, w, [d] + rest) == (w2, [ok] + oks)
  {
    assert ([d] + rest)[1..] == rest;
  }

  /** The loop over two lists is the loop over the first and then, from what that left, over the second. */
  lemma {:induction false} PerformAllConcat(op: Op, w: World, a: seq<Device>, b: seq<Device>)
    ensures var (w1, oks1) := PerformAll(op, w, a);
            var (w2, oks2) := PerformAll(op, w1, b);
            PerformAll(op, w, a + b) == (w2, oks1 + oks2)
    decreases |a|
  {
    if a == [] {
      assert a + b == b && [] + PerformAll(op, w, b).1 == PerformAll(op, w, b).1;
    } else {
      var (w1, ok) := Perform(op, w, a[0]);
      assert a == [a[0]] + a[1..];
      assert a + b == [a[0]] + (a[1..] + b);
      PerformAllConcat(op, w1, a[1..], b);
      PerformAllCons(op, w, a[0], a[1..]);
      PerformAllCons(op, w, a[0], a[1..] + b);
      var (w2, oks) := PerformAll(op, w1, a[1..]);
      ConcatAssociative([ok], oks, PerformAll(op, w2, b).1);
    }
  }

  /** Every item is attempted on what the items before it left, whatever became of them. */
  lemma ItemAttempted(op: Op, w: World, before: seq<Device>, d: Device, rest: seq<Device>)
    ensures var w1 := PerformAll(op, w, before).0;
            var oks := PerformAll(op, w, before + ([d] + rest)).1;
            |oks| > |before| && oks[|before|] == Perform(op, w1, d).1
  {
    PerformAllConcat(op, w, before, [d] + rest);
    PerformAllCons(op, PerformAll(op, w, before).0, d, rest);
  }

  /** No call from the one moment to the other fails. */
  ghost predicate NoFault(from: Clock, to: Clock) { forall n | from.calls <= n < to.calls :: n !in from.faults }

  lemma SetStatusSucceeds(w: World, id: Int32, target: Status)
    requires id in w.sys.devices && NoFault(w.clock, SetStatus(w, id, target).0.clock)
    ensures SetStatus(w, id, target).1.Some?
  {
  }

  lemma CallsGrow(w: World, d: Device, h: Hardware)
    ensures Activate(w, d, h).0.clock.calls >= w.clock.calls && Activate(w, d, h).0.clock.faults == w.clock.faults
  {
  }

  lemma ActivateSucceeds(w: World, d: Device, h: Hardware)
    requires d.id in w.sys.devices && NoFault(w.clock, Activate(w, d, h).0.clock)
    ensures Activate(w, d, h).1 && Activate(w, d, h).0.clock.calls >= w.clock.calls
  {
    OwnId(d);
    if Provisioned(h) {
      SetStatusSucceeds(w, d.id, Active);
    }
  }

  lemma PatchSucceeds(w: World, k: Key, desired: map<string, string>)
    requires k in w.sys.hardware
    ensures var (w', ok) := PatchLabels(w, k, desired);
            && w'.clock.calls >= w.clock.calls && w'.clock.faults == w.clock.faults
            && w'.sys.devices == w.sys.devices
            && (NoFault(w.clock, w'.clock) ==> ok)
  {
  }

  lemma PatchAndActivateSucceed(w: World, d: Device, h: Hardware)
    requires d.id in w.sys.devices && KeyOf(d) in w.sys.hardware
    ensures var (w1, ok) := PatchLabels(w, KeyOf(d), DesiredLabels(d));
            && (NoFault(w.clock, w1.clock) ==> ok)
            && (NoFault(w.clock, Activate(w1, d, h).0.clock) ==> ok && Activate(w1, d, h).1)
  {
    var w1 := PatchLabels(w, KeyOf(d), DesiredLabels(d)).0;
    PatchSucceeds(w, KeyOf(d), DesiredLabels(d));
    CallsGrow(w1, d, h);
    if NoFault(w.clock, Activate(w1, d, h).0.clock) {
      ActivateSucceeds(w1, d, h);
    }
  }

  lemma ReconcileSucceeds(w: World, d: Device)
    requires d.id in w.sys.devices && KeyOf(d) in w.sys.hardware && NoFault(w.clock, Reconcile(w, d).0.clock)
    ensures Reconcile(w, d).1
  {
    var w1 := w.(clock := w.clock.Tick());
    var h := w.sys.hardware[KeyOf(d)];
    PatchSucceeds(w1, KeyOf(d), DesiredLabels(d));
    CallsGrow(PatchLabels(w1, KeyOf(d), DesiredLabels(d)).0, d, h);
    PatchAndActivateSucceed(w1, d, h);
  }

  /** So an item fails only by a call of its own: with none of those failing it succeeds, whatever failed before. */
  lemma OperationSucceeds(op: Op, w: World, d: Device)
    requires op == ApplyOp || op == PruneOp || op == CliApplyOp
    requires d.id in w.sys.devices && NoFault(w.clock, Perform(op, w, d).0.clock)
    ensures Perform(op, w, d).1
  {
    if op != PruneOp && KeyOf(d) in w.sys.hardware {
      ReconcileSucceeds(w.(clock := w.clock.Tick()), d);
    }
  }

  lemma StatusEntriesCons(w: World, x: Listed, rest: seq<Listed>)
    ensures var (w1, first) := StatusEntry(w, x);
            var (w2, results) := StatusEntries(w1, rest);
            StatusEntries(w, [x] + rest) == (w2, first + results)
  {
    assert ([x] + rest)[1..] == rest;
  }

  /** The same for the loop of sync-status. */
  lemma {:induction false} StatusEntriesConcat(w: World, a: seq<Listed>, b: seq<Listed>)
    ensures var (w1, results1) := StatusEntries(w, a);
            var (w2, results2) := StatusEntries(w1, b);
            StatusEntries(w, a + b) == (w2, results1 + results2)
    decreases |a|
  {
    if a == [] {
      assert a + b == b && [] + StatusEntries(w, b).1 == StatusEntries(w, b).1;
    } else {
      var (w1, first) := StatusEntry(w, a[0]);
      assert a == [a[0]] + a[1..];
      assert a + b == [a[0]] + (a[1..] + b);
      StatusEntriesConcat(w1, a[1..], b);
      StatusEntriesCons(w, a[0], a[1..]);
      StatusEntriesCons(w, a[0], a[1..] + b);
      var (w2, results) := StatusEntries(w1, a[1..]);
      ConcatAssociative(first, results, StatusEntries(w2, b).1);
    }
  }
}
