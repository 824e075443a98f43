/** The imperative program: both controllers and the command line, changing the two stores step by step. */
module LifecycleClient {
  import opened Basics
  import opened Faults
  import opened Lifecycle

  // ---------- loop bookkeeping ----------

  /** The outcomes so far and the devices still to do add up to the whole list. */
  ghost predicate Continues(op: Op, start: World, ds: seq<Device>, w: World, rest: seq<Device>, oks: seq<bool>) {
    var todo := PerformAll(op, w, rest);
    PerformAll(op, start, ds) == (todo.0, oks + todo.1)
  }

  lemma ContinuesFrom(op: Op, start: World, ds: seq<Device>)
    ensures Continues(op, start, ds, start, ds[0..], [])
  {
    var todo := PerformAll(op, start, ds);
    assert ds[0..] == ds && [] + todo.1 == todo.1;
  }

  lemma ContinuesWith(op: Op, start: World, ds: seq<Device>, w: World, rest: seq<Device>, oks: seq<bool>)
    requires rest != [] && Continues(op, start, ds, w, rest, oks)
    ensures var (w1, ok) := Perform(op, w, rest[0]); Continues(op, start, ds, w1, rest[1..], oks + [ok])
  {
    var (w1, ok) := Perform(op, w, rest[0]);
    ConcatAssociative(oks, [ok], PerformAll(op, w1, rest[1..]).1);
  }

  lemma FailuresAppend(oks: seq<bool>, ok: bool)
    ensures Failures(oks + [ok]) == Failures(oks) + if ok then 0 else 1
  {
    if oks != [] {
      assert (oks + [ok])[1..] == oks[1..] + [ok];
      FailuresAppend(oks[1..], ok);
    }
  }

  lemma SameLabels(a: map<string, string>, b: map<string, string>, existing: map<string, string>, desired: map<string, string>)
    requires b == Merged(existing, desired)
    requires forall k | k in desired && Get(existing, k) != desired[k] :: k in a && a[k] == desired[k]
    requires forall k | k !in desired || Get(existing, k) == desired[k] ::
               (k in a <==> k in existing) && (k in a ==> a[k] == existing[k])
    ensures a == b
  {
  }

  // ---------- the two stores, step by step ----------

  class Stores {
    var devices: map<Int32, Device>
    var hardware: map<Key, Hardware>
    var clock: Clock

    ghost function State(): World
      reads this
    {
      World(System(devices, hardware), clock)
    }

    constructor (w: World)
      ensures State() == w
    {
      devices, hardware, clock := w.sys.devices, w.sys.hardware, w.clock;
    }

    /** One API call that only reads. */
    method Call() returns (ok: bool)
      modifies this`clock
      ensures ok == old(clock).Up() && clock == old(clock).Tick()
    {
      ok := clock.Up();
      clock := clock.Tick();
    }

    /** One API call that is about to change an object, when it goes through. */
    method WriteCall() returns (ok: bool)
      modifies this`clock
      ensures ok == old(clock).Up()
      ensures clock == if ok then old(clock).Wrote() else old(clock).Tick()
    {
      ok := clock.Up();
      clock := if ok then clock.Wrote() else clock.Tick();
    }

    /** setDeviceStatus */
    method SetDeviceStatus(id: Int32, target: Status) returns (updated: Option<bool>)
      modifies this`devices, this`clock
      ensures (State(), updated) == SetStatus(old(State()), id, target)
    {
      var ok := Call();
      if !ok || id !in devices { return None; }
      if devices[id].status == target { return Some(false); }
      ok := WriteCall();
      if !ok { return None; }
      devices := devices[id := devices[id].(status := target)];
      return Some(true);
    }

    /** The loop over the desired labels, in whatever order a map is traversed. */
    method MergeLabels(existing: map<string, string>, desired: map<string, string>)
        returns (labels: map<string, string>, needsPatch: bool)
      ensures labels == Merged(existing, desired)
      ensures needsPatch <==> labels != existing
    {
      labels, needsPatch := existing, false;
      var todo := desired.Keys;
      while todo != {}
        invariant todo <= desired.Keys
        invariant forall k | k in desired && k !in todo && Get(existing, k) != desired[k] ::
                    k in labels && labels[k] == desired[k]
        invariant forall k | k !in desired || k in todo || Get(existing, k) == desired[k] ::
                    (k in labels <==> k in existing) && (k in labels ==> labels[k] == existing[k])
        invariant needsPatch <==> exists k | k in desired && k !in todo :: Get(existing, k) != desired[k]
        decreases todo
      {
        var k :| k in todo;
        if Get(labels, k) != desired[k] {
          labels := labels[k := desired[k]];
          needsPatch := true;
        }
        todo := todo - {k};
      }
      SameLabels(labels, Merged(existing, desired), existing, desired);
    }

    /** ReconcileExistingHardware */
    method ReconcileExisting(d: Device) returns (ok: bool)
      modifies this
      ensures (State(), ok) == Reconcile(old(State()), d)
    {
      var k := KeyOf(d);
      ok := Call();
      if !ok || k !in hardware { return false; }
      var existing := hardware[k];
      var labels, needsPatch := MergeLabels(existing.labels, DesiredLabels(d));
      if needsPatch {
        ok := WriteCall();
        if !ok { return false; }
        hardware := hardware[k := existing.(labels := labels)];
      }
      if !Provisioned(existing) { return true; }
      var id := LabelId(DesiredLabels(d));
      if id.None? { return false; }
      var updated := SetDeviceStatus(id.value, Active);
      return updated.Some?;
    }

    /** applyHardware */
    method ApplyHardware(d: Device) returns (ok: bool)
      modifies this
      ensures (State(), ok) == Apply(old(State()), d)
    {
      ok := Call();
      if !ok { return; }
      if KeyOf(d) !in hardware {
        ok := WriteCall();
        if ok { hardware := hardware[KeyOf(d) := Hardware(DesiredLabels(d), map[])]; }
        return;
      }
      ok := ReconcileExisting(d);
    }

    /** pruneHardware */
    method PruneHardware(d: Device) returns (ok: bool)
      modifies this
      ensures (State(), ok) == Prune(old(State()), d)
    {
      ok := Call();
      if !ok || KeyOf(d) !in hardware { return; }
      ok := WriteCall();
      if ok { hardware := hardware - {KeyOf(d)}; }
    }

    /** The loop that applies a list; `errors` counts the items that failed. */
    method ApplyList(ds: seq<Device>) returns (errors: nat, ghost oks: seq<bool>)
      modifies this
      ensures (State(), oks) == PerformAll(ApplyOp, old(State()), ds) && errors == Failures(oks)
    {
      errors, oks := 0, [];
      ContinuesFrom(ApplyOp, State(), ds);
      for i := 0 to |ds|
        invariant Continues(ApplyOp, old(State()), ds, State(), ds[i..], oks)
        invariant errors == Failures(oks)
      {
        ContinuesWith(ApplyOp, old(State()), ds, State(), ds[i..], oks);
        assert ds[i..][0] == ds[i] && ds[i..][1..] == ds[i + 1..];
        var ok := ApplyHardware(ds[i]);
        if !ok { errors := errors + 1; }
        FailuresAppend(oks, ok);
        oks := oks + [ok];
      }
      assert ds[|ds|..] == [] && oks + [] == oks;
    }

    /** The loop that prunes a list. */
    method PruneList(ds: seq<Device>) returns (errors: nat, ghost oks: seq<bool>)
      modifies this
      ensures (State(), oks) == PerformAll(PruneOp, old(State()), ds) && errors == Failures(oks)
    {
      errors, oks := 0, [];
      ContinuesFrom(PruneOp, State(), ds);
      for i := 0 to |ds|
        invariant Continues(PruneOp, old(State()), ds, State(), ds[i..], oks)
        invariant errors == Failures(oks)
      {
        ContinuesWith(PruneOp, old(State()), ds, State(), ds[i..], oks);
        assert ds[i..][0] == ds[i] && ds[i..][1..] == ds[i + 1..];
        var ok := PruneHardware(ds[i]);
        if !ok { errors := errors + 1; }
        FailuresAppend(oks, ok);
        oks := oks + [ok];
      }
      assert ds[|ds|..] == [] && oks + [] == oks;
    }

    /** syncTinkerbell: None when a listing fails, otherwise the number of objects that failed to sync. */
    method SyncTinkerbell(order: seq<Int32>) returns (syncErrors: Option<nat>)
      modifies this
      ensures (State(), syncErrors) == Pass(old(State()), order)
    {
      var ok := Call();
      if !ok { return None; }
      var desired := Listing(devices, order, Wanted);
      ok := Call();
      if !ok { return None; }
      var toPrune := Listing(devices, order, Doomed);
      var applyErrors, _ := ApplyList(desired);
      var pruneErrors, _ := PruneList(toPrune);
      return Some(applyErrors + pruneErrors);
    }

    /** HardwareReconciler.Reconcile: without a NetBox client the event is queued again. */
    method ReconcileHardware(configured: bool, k: Key) returns (requeue: bool, ok: bool)
      modifies this
      ensures requeue == !configured
      ensures (State(), ok) == if configured then ReconcileKey(old(State()), k) else (old(State()), true)
    {
      if !configured { return true, true; }
      requeue := false;
      ok := Call();
      if !ok { return; }
      if k !in hardware { return false, true; }
      var id := LabelId(hardware[k].labels);
      if id.None? { return false, true; }
      var target := if Provisioned(hardware[k]) then Active else Staged;
      var updated := SetDeviceStatus(id.value, target);
      ok := updated.Some?;
    }

    /** The body of the sync-status loop. */
    method SyncStatusOf(x: Listed) returns (result: seq<StatusResult>)
      modifies this
      ensures (State(), result) == StatusEntry(old(State()), x)
    {
      var isProvisioned := PROVISIONED in x.h.annotations && x.h.annotations[PROVISIONED] == "true";
      var isUnprovisioned := PROVISIONED !in x.h.annotations;
      if !isProvisioned && !isUnprovisioned { return []; }
      if Get(x.h.labels, ID_LABEL) == "" { return [StatusResult(x.k.name, None, false, Some(NoLabel))]; }
      var id := LabelId(x.h.labels);
      if id.None? { return [StatusResult(x.k.name, None, false, Some(BadLabel))]; }
      var updated := SetDeviceStatus(id.value, if isProvisioned then Active else Staged);
      var problem := if updated.None? then Some(NotUpdated) else None;
      return [StatusResult(x.k.name, id, updated == Some(true), problem)];
    }

    /** The command-line sync-status: one result for each object it handles, or None when the listing fails. */
    method SyncStatus(order: seq<Key>, namespace: string) returns (out: Option<seq<StatusResult>>)
      modifies this
      ensures (State(), out) == StatusPass(old(State()), order, namespace)
    {
      var ok := Call();
      if !ok { return None; }
      var xs := HardwareIn(hardware, order, namespace);
      var results: seq<StatusResult> := [];
      ghost var total := StatusEntries(State(), xs);
      assert xs[0..] == xs && [] + total.1 == total.1;
      for i := 0 to |xs|
        invariant var rest := StatusEntries(State(), xs[i..]); total == (rest.0, results + rest.1)
      {
        assert xs[i..][0] == xs[i] && xs[i..][1..] == xs[i + 1..];
        ghost var (w1, first) := StatusEntry(State(), xs[i]);
        ConcatAssociative(results, first, StatusEntries(w1, xs[i + 1..]).1);
        var result := SyncStatusOf(xs[i]);
        results := results + result;
      }
      assert xs[|xs|..] == [] && results + [] == results;
      return Some(results);
    }

    /** The create-first loop of the command-line sync. */
    method CreateList(ds: seq<Device>) returns (failures: nat, ghost oks: seq<bool>)
      modifies this
      ensures (State(), oks) == PerformAll(CliApplyOp, old(State()), ds) && failures == Failures(oks)
    {
      failures, oks := 0, [];
      ContinuesFrom(CliApplyOp, State(), ds);
      for i := 0 to |ds|
        invariant Continues(CliApplyOp, old(State()), ds, State(), ds[i..], oks)
        invariant failures == Failures(oks)
      {
        var d := ds[i];
        ContinuesWith(CliApplyOp, old(State()), ds, State(), ds[i..], oks);
        assert ds[i..][0] == d && ds[i..][1..] == ds[i + 1..];
        var ok;
        if KeyOf(d) in hardware {
          ok := Call();
          if ok { ok := ReconcileExisting(d); }
        } else {
          ok := WriteCall();
          if ok { hardware := hardware[KeyOf(d) := Hardware(DesiredLabels(d), map[])]; }
        }
        if !ok { failures := failures + 1; }
        FailuresAppend(oks, ok);
        oks := oks + [ok];
      }
      assert ds[|ds|..] == [] && oks + [] == oks;
    }

    /** The delete loop of the command-line sync. */
    method DeleteList(ds: seq<Device>) returns (failures: nat, ghost oks: seq<bool>)
      modifies this
      ensures (State(), oks) == PerformAll(CliPruneOp, old(State()), ds) && failures == Failures(oks)
    {
      failures, oks := 0, [];
      ContinuesFrom(CliPruneOp, State(), ds);
      for i := 0 to |ds|
        invariant Continues(CliPruneOp, old(State()), ds, State(), ds[i..], oks)
        invariant failures == Failures(oks)
      {
        var k := KeyOf(ds[i]);
        ContinuesWith(CliPruneOp, old(State()), ds, State(), ds[i..], oks);
        assert ds[i..][0] == ds[i] && ds[i..][1..] == ds[i + 1..];
        var ok;
        if k in hardware {
          ok := WriteCall();
          if ok { hardware := hardware - {k}; }
        } else {
          ok := Call();
          ok := false;
        }
        if !ok { failures := failures + 1; }
        FailuresAppend(oks, ok);
        oks := oks + [ok];
      }
      assert ds[|ds|..] == [] && oks + [] == oks;
    }

    /** The command-line sync. */
    method CliSync(order: seq<Int32>)
      modifies this
      ensures State() == CliPass(old(State()), order)
    {
      var ok := Call();
      if !ok { return; }
      var _, _ := CreateList(Listing(devices, order, Wanted));
      ok := Call();
      if !ok { return; }
      var _, _ := DeleteList(Listing(devices, order, Doomed));
    }
  }
}
