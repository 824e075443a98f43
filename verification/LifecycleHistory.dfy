/**
 Safety over whole histories: every interleaving of steps of the two controllers, the
 command line, operators and the provisioner, with any failures and with stale reads.
 */
module LifecycleHistory {
  import opened Basics
  import opened Faults
  import opened Lifecycle
  import LifecycleEffects

  /** One step. The program's own steps carry the copies they had read earlier and the calls that fail. */
  datatype Action =
    | OnDevice(op: Op, d: Device, clock: Clock)          // an item of a sync pass, from a listed copy
    | OnKey(k: Key, clock: Clock)                        // HardwareReconciler
    | OnEntry(k: Key, h: Hardware, clock: Clock)         // command-line sync-status, from a listed copy
    | SetByOperator(id: Int32, device: Option<Device>)   // anyone editing NetBox
    | EditHardware(k: Key, edit: Option<Hardware>)          // the provisioner, or anyone editing Kubernetes

  predicate Ours(a: Action) { a.OnDevice? || a.OnKey? || a.OnEntry? }

  function Next(s: System, a: Action): System {
    match a
    case OnDevice(op, d, clock) => Perform(op, World(s, clock), d).0.sys
    case OnKey(k, clock) => ReconcileKey(World(s, clock), k).0.sys
    case OnEntry(k, h, clock) => StatusEntry(World(s, clock), Listed(k, h)).0.sys
    case SetByOperator(id, device) =>
      s.(devices := if device.Some? then s.devices[id := device.value] else s.devices - {id})
    case EditHardware(k, h) =>
      s.(hardware := if h.Some? then s.hardware[k := h.value] else s.hardware - {k})
  }

  /** The state after the first `n` actions. */
  function StateAt(s: System, actions: seq<Action>, n: nat): System
    requires n <= |actions|
  {
    if n == 0 then s else Next(StateAt(s, actions, n - 1), actions[n - 1])
  }

  predicate StoredDevice(s: System, d: Device) { d.id in s.devices && s.devices[d.id] == d }

  predicate StoredHardware(s: System, k: Key, h: Hardware) { k in s.hardware && s.hardware[k] == h }

  ghost predicate HonestAt(s: System, actions: seq<Action>, n: nat)
    requires n < |actions|
  {
    match actions[n]
    case OnDevice(_, d, _) => exists m | 0 <= m <= n :: StoredDevice(StateAt(s, actions, m), d)
    case OnEntry(k, h, _) => exists m | 0 <= m <= n :: StoredHardware(StateAt(s, actions, m), k, h)
    case _ => true
  }

  /** Copies are stale but not invented: what a step acts on was stored at some earlier moment. */
  ghost predicate Honest(s: System, actions: seq<Action>) {
    forall n: nat | n < |actions| :: HonestAt(s, actions, n)
  }

  predicate ProvisionedAt(s: System, k: Key) { k in s.hardware && Provisioned(s.hardware[k]) }

  predicate HasStatus(s: System, id: Int32, status: Status) { id in s.devices && s.devices[id].status == status }

  // ---------- one step ----------

  /** A Hardware object that entitles a step to write `active` for device `id`. */
  ghost predicate Entitles(a: Action, k: Key, h: Hardware, id: Int32) {
    && Provisioned(h)
    && match a
       case OnDevice(_, d, _) => k == KeyOf(d) && d.id == id
       case OnKey(key, _) => k == key && LabelId(h.labels) == Some(id)
       case OnEntry(key, copy, _) => k == key && h == copy && LabelId(h.labels) == Some(id)
       case _ => false
  }

  /** Device `i` is as before, or has only had its status set to `target`. */
  predicate Rewritten(s: System, t: System, i: Int32, target: Status)
    requires i in s.devices
  {
    i in t.devices && (t.devices[i] == s.devices[i] || t.devices[i] == s.devices[i].(status := target))
  }

  lemma SetStatusWrites(w: World, id: Int32, target: Status, i: Int32)
    requires i in w.sys.devices
    ensures var t := SetStatus(w, id, target).0.sys;
            && t.hardware == w.sys.hardware
            && Rewritten(w.sys, t, i, target)
            && (i != id ==> t.devices[i] == w.sys.devices[i])
  {
  }

  lemma ReconcileWrites(w: World, d: Device, i: Int32)
    requires i in w.sys.devices && KeyOf(d) in w.sys.hardware
    ensures var t := Reconcile(w, d).0.sys;
            && Rewritten(w.sys, t, i, Active)
            && (t.devices[i] != w.sys.devices[i] ==> i == d.id && Provisioned(w.sys.hardware[KeyOf(d)]))
  {
    LifecycleEffects.OwnId(d);
    var w2 := PatchLabels(w.(clock := w.clock.Tick()), KeyOf(d), DesiredLabels(d)).0;
    SetStatusWrites(w2, d.id, Active, i);
  }

  lemma PerformWrites(op: Op, w: World, d: Device, i: Int32)
    requires i in w.sys.devices
    ensures var t := Perform(op, w, d).0.sys;
            && Rewritten(w.sys, t, i, Active)
            && (t.devices[i] != w.sys.devices[i] ==>
                  i == d.id && KeyOf(d) in w.sys.hardware && Provisioned(w.sys.hardware[KeyOf(d)]))
  {
    if (op.ApplyOp? || op.CliApplyOp?) && KeyOf(d) in w.sys.hardware {
      ReconcileWrites(w.(clock := w.clock.Tick()), d, i);
    }
  }

  /** What a step of ours may do to device `i`, entitled by the object `h` at `k` if it activates. */
  ghost predicate StepAllowed(s: System, a: Action, i: Int32, k: Key, h: Hardware)
    requires i in s.devices
  {
    var t := Next(s, a);
    && (Rewritten(s, t, i, Staged) || Rewritten(s, t, i, Active))
    && (t.devices[i] != s.devices[i] && t.devices[i].status == Active ==>
          Entitles(a, k, h, i) && (StoredHardware(s, k, h) || (a.OnEntry? && a.h == h)))
  }

  lemma TargetWrites(s: System, clock: Clock, h: Hardware, id: Int32, i: Int32)
    requires i in s.devices
    ensures var t := SetStatus(World(s, clock), id, Target(h)).0.sys;
            && (Rewritten(s, t, i, Staged) || Rewritten(s, t, i, Active))
            && (t.devices[i] != s.devices[i] ==> i == id && t.devices[i].status == Target(h))
  {
  }

  /** Our steps write nothing but `staged` and `active`, and `active` only when a provisioned object was seen. */
  lemma StepWrites(s: System, a: Action, i: Int32) returns (k: Key, h: Hardware)
    requires Ours(a) && i in s.devices
    ensures StepAllowed(s, a, i, k, h)
  {
    k, h := Key("", ""), Hardware(map[], map[]);
    match a
    case OnDevice(op, d, clock) =>
      PerformWrites(op, World(s, clock), d, i);
      if KeyOf(d) in s.hardware {
        k, h := KeyOf(d), s.hardware[KeyOf(d)];
      }
    case OnKey(key, clock) =>
      if key in s.hardware {
        k, h := key, s.hardware[key];
        var id := LabelId(h.labels);
        if id.Some? {
          TargetWrites(s, clock.Tick(), h, id.value, i);
        }
      }
    case OnEntry(key, copy, clock) =>
      k, h := key, copy;
      var id := LabelId(h.labels);
      if id.Some? {
        TargetWrites(s, clock, h, id.value, i);
      }
  }

  /** The object at `k` afterwards is new and without annotations, or has the annotations it had. */
  predicate AnnotationsKept(s: System, t: System, k: Key) {
    k in t.hardware ==>
      t.hardware[k].annotations == map[] || (k in s.hardware && t.hardware[k].annotations == s.hardware[k].annotations)
  }

  lemma PatchKeepsAnnotations(w: World, key: Key, desired: map<string, string>, k: Key)
    requires key in w.sys.hardware
    ensures AnnotationsKept(w.sys, PatchLabels(w, key, desired).0.sys, k)
  {
  }

  lemma ActivateKeepsHardware(w: World, d: Device, h: Hardware)
    ensures Activate(w, d, h).0.sys.hardware == w.sys.hardware
  {
  }

  lemma ReconcileKeepsAnnotations(w: World, d: Device, k: Key)
    ensures AnnotationsKept(w.sys, Reconcile(w, d).0.sys, k)
  {
    if KeyOf(d) in w.sys.hardware {
      var w1 := w.(clock := w.clock.Tick());
      PatchKeepsAnnotations(w1, KeyOf(d), DesiredLabels(d), k);
      ActivateKeepsHardware(PatchLabels(w1, KeyOf(d), DesiredLabels(d)).0, d, w.sys.hardware[KeyOf(d)]);
    }
  }

  lemma PerformKeepsAnnotations(op: Op, w: World, d: Device, k: Key)
    ensures AnnotationsKept(w.sys, Perform(op, w, d).0.sys, k)
  {
    ReconcileKeepsAnnotations(w.(clock := w.clock.Tick()), d, k);
  }

  /** Our steps never provision: an object provisioned after one was provisioned before it. */
  lemma StepKeepsAnnotations(s: System, a: Action, k: Key)
    requires Ours(a) && ProvisionedAt(Next(s, a), k)
    ensures ProvisionedAt(s, k)
  {
    match a
    case OnDevice(op, d, clock) => PerformKeepsAnnotations(op, World(s, clock), d, k);
    case OnKey(_, _) => assert Next(s, a).hardware == s.hardware;
    case OnEntry(_, _, _) => assert Next(s, a).hardware == s.hardware;
  }

  // ---------- histories ----------

  /** Somebody other than the program made the object at `k` provisioned, at the start or in action `j`. */
  predicate Provisioner(s: System, actions: seq<Action>, k: Key, j: nat)
    requires j <= |actions|
  {
    if j == 0 then ProvisionedAt(s, k)
    else
      var a := actions[j - 1];
      a.EditHardware? && a.k == k && a.edit.Some? && Provisioned(a.edit.value)
  }

  /** Every provisioned object was provisioned from outside. */
  lemma {:induction false} ProvisionedHasOrigin(s: System, actions: seq<Action>, n: nat, k: Key) returns (j: nat)
    requires n <= |actions| && ProvisionedAt(StateAt(s, actions, n), k)
    ensures j <= n && Provisioner(s, actions, k, j)
  {
    if n == 0 || Provisioner(s, actions, k, n) {
      j := n;
    } else {
      var a := actions[n - 1];
      if Ours(a) {
        StepKeepsAnnotations(StateAt(s, actions, n - 1), a, k);
      }
      j := ProvisionedHasOrigin(s, actions, n - 1, k);
    }
  }

  /**
   History safety. In every history, whenever a step of the program changes a device, it sets
   its status to staged or active and nothing else; and when it sets it to active, someone
   outside the program had before that provisioned a Hardware object which, when the step or
   its listing read it, carried the device's id label or occupied the key of a stored version
   of the device.
   */
  lemma ActiveHasCause(s: System, actions: seq<Action>, n: nat, id: Int32) returns (k: Key, h: Hardware, j: nat)
    requires n < |actions| && Honest(s, actions) && Ours(actions[n])
    requires id in StateAt(s, actions, n).devices
    ensures j <= n
    ensures var before, after := StateAt(s, actions, n), StateAt(s, actions, n + 1);
            && (Rewritten(before, after, id, Staged) || Rewritten(before, after, id, Active))
            && (after.devices[id] != before.devices[id] && after.devices[id].status == Active ==>
                  && Entitles(actions[n], k, h, id)
                  && (exists m | 0 <= m <= n :: StoredHardware(StateAt(s, actions, m), k, h))
                  && Provisioner(s, actions, k, j))
  {
    var before, a := StateAt(s, actions, n), actions[n];
    var after := StateAt(s, actions, n + 1);
    k, h := StepWrites(before, a, id);
    j := 0;
    if after.devices[id] != before.devices[id] && after.devices[id].status == Active {
      var m: nat := n;
      if !StoredHardware(before, k, h) {
        assert HonestAt(s, actions, n);
        m :| 0 <= m <= n && StoredHardware(StateAt(s, actions, m), k, h);
      }
      assert StoredHardware(StateAt(s, actions, m), k, h);
      j := ProvisionedHasOrigin(s, actions, m, k);
    }
  }

  lemma EditKeepsDevices(s: System, a: Action)
    requires a.EditHardware?
    ensures Next(s, a).devices == s.devices
  {
  }

  /** Nothing is provisioned at the start or from outside before moment `n`, and nobody edits NetBox. */
  ghost predicate LeftAlone(s: System, actions: seq<Action>, n: nat)
    requires n <= |actions|
  {
    && (forall k, j | 0 <= j <= n :: !Provisioner(s, actions, k, j))
    && (forall j | 0 <= j < n :: !actions[j].SetByOperator?)
  }

  lemma StepActivatesNothing(s: System, actions: seq<Action>, n: nat, id: Int32)
    requires n < |actions| && Honest(s, actions) && LeftAlone(s, actions, n + 1)
    requires id in StateAt(s, actions, n).devices
    ensures id in StateAt(s, actions, n + 1).devices
    ensures HasStatus(StateAt(s, actions, n + 1), id, Active) ==> HasStatus(StateAt(s, actions, n), id, Active)
  {
    if Ours(actions[n]) {
      var k, h, j := ActiveHasCause(s, actions, n, id);
      assert !Provisioner(s, actions, k, j);
    } else {
      EditKeepsDevices(StateAt(s, actions, n), actions[n]);
    }
  }

  lemma LeftAloneBefore(s: System, actions: seq<Action>, n: nat)
    requires 0 < n <= |actions| && LeftAlone(s, actions, n)
    ensures LeftAlone(s, actions, n - 1)
  {
  }

  /** If nobody outside the program provisions anything, the program never activates a device. */
  lemma {:induction false} NothingActivatesAlone(s: System, actions: seq<Action>, n: nat, id: Int32)
    requires n <= |actions| && Honest(s, actions) && LeftAlone(s, actions, n)
    requires id in s.devices
    ensures id in StateAt(s, actions, n).devices
    ensures HasStatus(StateAt(s, actions, n), id, Active) ==> HasStatus(s, id, Active)
  {
    if n == 0 {
      assert StateAt(s, actions, n) == s;
    } else {
      LeftAloneBefore(s, actions, n);
      NothingActivatesAlone(s, actions, n - 1, id);
      StepActivatesNothing(s, actions, n - 1, id);
    }
  }
}
