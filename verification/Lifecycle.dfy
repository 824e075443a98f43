/**
 The device lifecycle: one controller creates and prunes Hardware objects from device
 status, another writes device status from a Hardware annotation, and a command-line tool
 does both. Each operation is a function of the two stores and of the calls that fail.
 */
module Lifecycle {
  import opened Basics
  import opened Text
  import opened Faults

  // ---------- the two stores ----------

  datatype Key = Key(namespace: string, name: string)
  datatype Status = Offline | Active | Planned | Staged | Failed | Inventory | Decommissioning

  /** A Tinkerbell Hardware object. */
  datatype Hardware = Hardware(labels: map<string, string>, annotations: map<string, string>)

  /** A NetBox device, with what the sync needs to know about it. */
  datatype Device = Device(
    id: Int32,
    name: string,
    tenant: Option<string>,       // slug
    facts: map<string, string>,   // serial, model, role, site, ... as label values
    status: Status,
    inScope: bool,                // has a primary IP and passes the configured filters
    complete: bool                // Hardware data can be extracted from it
  )

  datatype System = System(devices: map<Int32, Device>, hardware: map<Key, Hardware>)
  datatype World = World(sys: System, clock: Clock)

  const ID_LABEL := "netbox-device-id"
  const PROVISIONED := "v1alpha1.tinkerbell.org/provisioned"

  function KeyOf(d: Device): Key {
    Key(match d.tenant case None => "default" case Some(slug) => slug, d.name)
  }

  function StatusLabel(s: Status): string {
    match s
    case Offline => "Offline"
    case Active => "Active"
    case Planned => "Planned"
    case Staged => "Staged"
    case Failed => "Failed"
    case Inventory => "Inventory"
    case Decommissioning => "Decommissioning"
  }

  /** createMetaFromDevice: the labels a device wants on its Hardware. */
  function DesiredLabels(d: Device): (m: map<string, string>)
    ensures ID_LABEL in m && m[ID_LABEL] == Itoa(d.id)
  {
    d.facts["generated-by" := "machinecfg"]["status" := StatusLabel(d.status)][ID_LABEL := Itoa(d.id)]
  }

  /** Reading a missing key of a Go map gives the empty string. */
  function Get(m: map<string, string>, k: string): string { if k in m then m[k] else "" }

  predicate Provisioned(h: Hardware) { Get(h.annotations, PROVISIONED) == "true" }

  /** The device id on a Hardware object, when the label is there and is a number. */
  function LabelId(labels: map<string, string>): (r: Option<Int32>) { ParseInt32(Get(labels, ID_LABEL)) }

  /** Labels after reconciliation: a desired key is written only where it reads differently. */
  function Merged(labels: map<string, string>, desired: map<string, string>): (m: map<string, string>)
    ensures forall k | k in desired :: Get(m, k) == desired[k]
    ensures forall k | k !in desired :: k in m <==> k in labels
    ensures forall k | k in labels && k !in desired :: m[k] == labels[k]
    ensures m == labels <==> forall k | k in desired :: Get(labels, k) == desired[k]
  {
    var patch := map k | k in desired && Get(labels, k) != desired[k] :: desired[k];
    assert forall k | k in patch :: Get(labels + patch, k) == desired[k];
    labels + patch
  }

  // ---------- selection ----------

  /** Devices whose Hardware must exist. */
  predicate Wanted(d: Device) { d.status == Staged && d.inScope && d.complete }

  /** Devices whose Hardware must go. */
  predicate Doomed(d: Device) { (d.status == Offline || d.status == Planned) && d.inScope && d.complete }

  /** The devices NetBox lists, in the order `order`, that satisfy `p`. */
  function Listing(devices: map<Int32, Device>, order: seq<Int32>, p: Device -> bool): (r: seq<Device>)
    ensures forall d | d in r :: p(d) && exists id | id in order :: id in devices && devices[id] == d
    ensures forall id | id in order && id in devices && p(devices[id]) :: devices[id] in r
  {
    if order == [] then []
    else
      var rest := Listing(devices, order[1..], p);
      assert order == [order[0]] + order[1..];
      if order[0] in devices && p(devices[order[0]]) then [devices[order[0]]] + rest else rest
  }

  // ---------- single operations ----------

  /** setDeviceStatus: read, then patch if different. None is an error. */
  function SetStatus(w: World, id: Int32, target: Status): (r: (World, Option<bool>)) {
    var c1 := w.clock.Tick();
    if !w.clock.Up() || id !in w.sys.devices then (w.(clock := c1), None)
    else if w.sys.devices[id].status == target then (w.(clock := c1), Some(false))
    else if !c1.Up() then (w.(clock := c1.Tick()), None)
    else
      var d := w.sys.devices[id].(status := target);
      (World(w.sys.(devices := w.sys.devices[id := d]), c1.Wrote()), Some(true))
  }

  /** Patches the labels of an existing object, if some desired key reads differently. */
  function PatchLabels(w: World, k: Key, desired: map<string, string>): (r: (World, bool))
    requires k in w.sys.hardware
  {
    var h := w.sys.hardware[k];
    var labels := Merged(h.labels, desired);
    if labels == h.labels then (w, true)
    else if !w.clock.Up() then (w.(clock := w.clock.Tick()), false)
    else (World(w.sys.(hardware := w.sys.hardware[k := h.(labels := labels)]), w.clock.Wrote()), true)
  }

  /** The provisioned-to-active transition. */
  function Activate(w: World, d: Device, h: Hardware): (r: (World, bool)) {
    if !Provisioned(h) then (w, true)
    else
      match LabelId(DesiredLabels(d))
      case None => (w, false)
      case Some(id) =>
        var (w2, done) := SetStatus(w, id, Active);
        (w2, done.Some?)
  }

  /** ReconcileExistingHardware: patch labels, then activate a provisioned device. */
  function Reconcile(w: World, d: Device): (r: (World, bool)) {
    var k := KeyOf(d);
    var w1 := w.(clock := w.clock.Tick());
    if !w.clock.Up() || k !in w.sys.hardware then (w1, false)
    else
      var (w2, ok) := PatchLabels(w1, k, DesiredLabels(d));
      if !ok then (w2, false) else Activate(w2, d, w.sys.hardware[k])
  }

  function Created(w: World, d: Device): World {
    World(w.sys.(hardware := w.sys.hardware[KeyOf(d) := Hardware(DesiredLabels(d), map[])]), w.clock.Wrote())
  }

  /** applyHardware: get, then create or reconcile. */
  function Apply(w: World, d: Device): (r: (World, bool)) {
    var w1 := w.(clock := w.clock.Tick());
    if !w.clock.Up() then (w1, false)
    else if KeyOf(d) in w.sys.hardware then Reconcile(w1, d)
    else if !w1.clock.Up() then (w1.(clock := w1.clock.Tick()), false)
    else (Created(w1, d), true)
  }

  function Removed(w: World, k: Key): World {
    World(w.sys.(hardware := w.sys.hardware - {k}), w.clock.Wrote())
  }

  /** pruneHardware: get, then delete. */
  function Prune(w: World, d: Device): (r: (World, bool)) {
    var w1 := w.(clock := w.clock.Tick());
    if !w.clock.Up() then (w1, false)
    else if KeyOf(d) !in w.sys.hardware then (w1, true)
    else if !w1.clock.Up() then (w1.(clock := w1.clock.Tick()), false)
    else (Removed(w1, KeyOf(d)), true)
  }

  /** One item of the command-line sync: create first, reconcile when it already exists. */
  function CliApply(w: World, d: Device): (r: (World, bool)) {
    if !w.clock.Up() then (w.(clock := w.clock.Tick()), false)
    else if KeyOf(d) in w.sys.hardware then Reconcile(w.(clock := w.clock.Tick()), d)
    else (Created(w, d), true)
  }

  /** One item of the command-line prune: a delete, which fails on an absent object. */
  function CliPrune(w: World, d: Device): (r: (World, bool)) {
    if !w.clock.Up() || KeyOf(d) !in w.sys.hardware then (w.(clock := w.clock.Tick()), false)
    else (Removed(w, KeyOf(d)), true)
  }

  function Target(h: Hardware): Status { if Provisioned(h) then Active else Staged }

  /** HardwareReconciler.Reconcile for one key. */
  function ReconcileKey(w: World, k: Key): (r: (World, bool)) {
    var w1 := w.(clock := w.clock.Tick());
    if !w.clock.Up() then (w1, false)
    else if k !in w.sys.hardware then (w1, true)
    else
      var h := w.sys.hardware[k];
      match LabelId(h.labels)
      case None => (w1, true)
      case Some(id) =>
        var (w2, done) := SetStatus(w1, id, Target(h));
        (w2, done.Some?)
  }

  /** A copy of an object, as a listing returned it. */
  datatype Listed = Listed(k: Key, h: Hardware)

  datatype StatusProblem = NoLabel | BadLabel | NotUpdated

  datatype StatusResult = StatusResult(hostname: string, id: Option<Int32>, updated: bool, problem: Option<StatusProblem>)

  /** One entry of the command-line sync-status; an annotation that is neither "true" nor absent gives no result. */
  function StatusEntry(w: World, x: Listed): (r: (World, seq<StatusResult>))
    ensures |r.1| <= 1
  {
    if PROVISIONED in x.h.annotations && x.h.annotations[PROVISIONED] != "true" then (w, [])
    else if Get(x.h.labels, ID_LABEL) == "" then (w, [StatusResult(x.k.name, None, false, Some(NoLabel))])
    else
      match LabelId(x.h.labels)
      case None => (w, [StatusResult(x.k.name, None, false, Some(BadLabel))])
      case Some(id) =>
        var (w2, done) := SetStatus(w, id, Target(x.h));
        (w2, [StatusResult(x.k.name, Some(id), done == Some(true), if done.None? then Some(NotUpdated) else None)])
  }

  // ---------- passes ----------

  datatype Op = ApplyOp | PruneOp | CliApplyOp | CliPruneOp

  function Perform(op: Op, w: World, d: Device): (r: (World, bool)) {
    match op
    case ApplyOp => Apply(w, d)
    case PruneOp => Prune(w, d)
    case CliApplyOp => CliApply(w, d)
    case CliPruneOp => CliPrune(w, d)
  }

  /** One operation on each device of a list; which of them succeeded. */
  function PerformAll(op: Op, w: World, ds: seq<Device>): (r: (World, seq<bool>))
    ensures |r.1| == |ds|
    decreases |ds|
  {
    if ds == [] then (w, [])
    else
      var (w1, ok) := Perform(op, w, ds[0]);
      var (w2, oks) := PerformAll(op, w1, ds[1..]);
      (w2, [ok] + oks)
  }

  function Failures(oks: seq<bool>): (n: nat)
    ensures n <= |oks|
    ensures n == 0 <==> forall i | 0 <= i < |oks| :: oks[i]
  {
    if oks == [] then 0 else (if oks[0] then 0 else 1) + Failures(oks[1..])
  }

  datatype Loops = Loops(w: World, applied: seq<bool>, pruned: seq<bool>)

  /** The two loops of syncTinkerbell. */
  function RunLoops(w: World, desired: seq<Device>, toPrune: seq<Device>): (r: Loops)
    ensures |r.applied| == |desired| && |r.pruned| == |toPrune|
  {
    var (w1, applied) := PerformAll(ApplyOp, w, desired);
    var (w2, pruned) := PerformAll(PruneOp, w1, toPrune);
    Loops(w2, applied, pruned)
  }

  /** syncTinkerbell: both lists are read before anything is applied. None is a failed listing. */
  function Pass(w: World, order: seq<Int32>): (r: (World, Option<nat>)) {
    var w1 := w.(clock := w.clock.Tick());
    var w2 := w1.(clock := w1.clock.Tick());
    if !w.clock.Up() then (w1, None)
    else if !w1.clock.Up() then (w2, None)
    else
      var l := RunLoops(w2, Listing(w.sys.devices, order, Wanted), Listing(w.sys.devices, order, Doomed));
      (l.w, Some(Failures(l.applied) + Failures(l.pruned)))
  }

  /** The command-line sync: the prune list is read after applying. */
  function CliPass(w: World, order: seq<Int32>): (r: World) {
    var w1 := w.(clock := w.clock.Tick());
    if !w.clock.Up() then w1
    else
      var (w2, _) := PerformAll(CliApplyOp, w1, Listing(w.sys.devices, order, Wanted));
      var w3 := w2.(clock := w2.clock.Tick());
      if !w2.clock.Up() then w3
      else PerformAll(CliPruneOp, w3, Listing(w2.sys.devices, order, Doomed)).0
  }

  /** HardwareReconciler on a sequence of events. */
  function ReconcileKeys(w: World, keys: seq<Key>): (r: (World, seq<bool>))
    ensures |r.1| == |keys|
    decreases |keys|
  {
    if keys == [] then (w, [])
    else
      var (w1, ok) := ReconcileKey(w, keys[0]);
      var (w2, oks) := ReconcileKeys(w1, keys[1..]);
      (w2, [ok] + oks)
  }

  /** The loop of the command-line sync-status, over the objects it listed. */
  function StatusEntries(w: World, xs: seq<Listed>): (r: (World, seq<StatusResult>))
    decreases |xs|
  {
    if xs == [] then (w, [])
    else
      var (w1, first) := StatusEntry(w, xs[0]);
      var (w2, rest) := StatusEntries(w1, xs[1..]);
      (w2, first + rest)
  }

  /** The objects of a namespace, in the order in which Kubernetes lists them; "" stands for all namespaces. */
  function HardwareIn(hardware: map<Key, Hardware>, order: seq<Key>, namespace: string): (xs: seq<Listed>)
    ensures forall x | x in xs :: x.k in hardware && hardware[x.k] == x.h
  {
    if order == [] then []
    else
      (if order[0] in hardware && (namespace == "" || order[0].namespace == namespace) then [Listed(order[0], hardware[order[0]])] else [])
      + HardwareIn(hardware, order[1..], namespace)
  }

  /** The command-line sync-status. None is a failed listing. */
  function StatusPass(w: World, order: seq<Key>, namespace: string): (r: (World, Option<seq<StatusResult>>)) {
    var w1 := w.(clock := w.clock.Tick());
    if !w.clock.Up() then (w1, None)
    else
      var (w2, results) := StatusEntries(w1, HardwareIn(w.sys.hardware, order, namespace));
      (w2, Some(results))
  }
}
