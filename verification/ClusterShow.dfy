/** The reader of what the write-back stores: the table of cluster addresses with their NetBox status. */
module ClusterShow {
  import opened Basics
  import opened Text
  import opened Faults
  import opened Ipam
  import opened ClusterSync
  import opened ClusterEvolution
  import opened ClusterIdempotence

  datatype Source = CiliumSource | TailscaleSource
  datatype Row = Row(cluster: string, ip: string, source: Source, known: bool, status: string)

  /** getNetBoxIPStatus, when the query goes through. */
  function StatusRow(s: Store, cluster: string, shown: string, source: Source, ip: string): Row {
    var i := Search(s.addresses, ip);
    if i < |s.addresses| then Row(cluster, shown, source, true, s.addresses[i].status)
    else Row(cluster, shown, source, false, "")
  }

  function ReadRow(clock: Clock, s: Store, cluster: string, shown: string, source: Source, ip: string): Row {
    if clock.Up() then StatusRow(s, cluster, shown, source, ip) else Row(cluster, shown, source, false, "")
  }

  datatype Shown = Shown(clock: Clock, rows: seq<Row>)

  /** One row per non-blank entry of the Cilium annotation. */
  function CiliumRows(clock: Clock, s: Store, cluster: string, entries: seq<string>): (r: Shown)
    decreases |entries|
  {
    if entries == [] then Shown(clock, [])
    else
      var ip := TrimSpace(entries[0]);
      if ip == "" then CiliumRows(clock, s, cluster, entries[1..])
      else
        var rest := CiliumRows(clock.Tick(), s, cluster, entries[1..]);
        Shown(rest.clock, [ReadRow(clock, s, cluster, ip, CiliumSource, ip)] + rest.rows)
  }

  function TailscaleRows(env: Env, clock: Clock, s: Store, p: ControlPlane): (r: Shown) {
    if !TailscaleExposed(p.annotations) then Shown(clock, [])
    else
      var (c1, device) := ReadProxy(env, clock, p.name);
      match device
      case None => Shown(c1, [])
      case Some(d) =>
        if d.ip == "" then Shown(c1, [Row(p.name, d.Address(), TailscaleSource, false, "")])
        else Shown(c1.Tick(), [ReadRow(c1, s, p.name, d.Address(), TailscaleSource, d.ip)])
  }

  function PlaneEntries(p: ControlPlane): seq<string> {
    if p.annotations.Unreadable? then [] else Split(Annotation(p.annotations.values, CILIUM_IPS), ',')
  }

  function PlaneRows(env: Env, clock: Clock, s: Store, p: ControlPlane): (r: Shown) {
    var cilium := CiliumRows(clock, s, p.name, PlaneEntries(p));
    var tailscale := TailscaleRows(env, cilium.clock, s, p);
    Shown(tailscale.clock, cilium.rows + tailscale.rows)
  }

  /** The filter of ShowIPAddresses: blank names are dropped, and an empty filter lets everything through. */
  predicate Picked(names: seq<string>, name: string) {
    (forall n | n in names :: n == "") || (name != "" && name in names)
  }

  function ShowPlanes(env: Env, clock: Clock, s: Store, planes: seq<ControlPlane>, names: seq<string>): (r: Shown)
    decreases |planes|
  {
    if planes == [] then Shown(clock, [])
    else if !Picked(names, planes[0].name) then ShowPlanes(env, clock, s, planes[1..], names)
    else
      var first := PlaneRows(env, clock, s, planes[0]);
      var rest := ShowPlanes(env, first.clock, s, planes[1..], names);
      Shown(rest.clock, first.rows + rest.rows)
  }

  /** The inner loop, over the entries of one annotation. */
  method ShowEntries(start: Clock, s: Store, cluster: string, entries: seq<string>) returns (clock: Clock, rows: seq<Row>)
    ensures Shown(clock, rows) == CiliumRows(start, s, cluster, entries)
  {
    clock, rows := start, [];
    for j := 0 to |entries|
      invariant var rest := CiliumRows(clock, s, cluster, entries[j..]);
                CiliumRows(start, s, cluster, entries) == Shown(rest.clock, rows + rest.rows)
    {
      assert entries[j..][0] == entries[j] && entries[j..][1..] == entries[j + 1..];
      var ip := TrimSpace(entries[j]);
      if ip == "" { continue; }
      rows := rows + [ReadRow(clock, s, cluster, ip, CiliumSource, ip)];
      clock := clock.Tick();
    }
  }

  method ShowPlane(env: Env, start: Clock, s: Store, p: ControlPlane) returns (clock: Clock, rows: seq<Row>)
    ensures Shown(clock, rows) == PlaneRows(env, start, s, p)
  {
    clock, rows := ShowEntries(start, s, p.name, PlaneEntries(p));
    var tailscale := TailscaleRows(env, clock, s, p);
    clock, rows := tailscale.clock, rows + tailscale.rows;
  }

  /** ShowIPAddresses: the loop over control planes. */
  method ShowIPAddresses(env: Env, w: World, names: seq<string>) returns (rows: Option<seq<Row>>)
    ensures rows == if w.clock.Up() then Some(ShowPlanes(env, w.clock.Tick(), w.store, env.planes, names).rows) else None
  {
    if !w.clock.Up() { return None; }
    var clock := w.clock.Tick();
    var out: seq<Row> := [];
    ghost var total := ShowPlanes(env, clock, w.store, env.planes, names).rows;
    for i := 0 to |env.planes|
      invariant total == out + ShowPlanes(env, clock, w.store, env.planes[i..], names).rows
    {
      var p := env.planes[i];
      assert env.planes[i..][0] == p && env.planes[i..][1..] == env.planes[i + 1..];
      if !Picked(names, p.name) { continue; }
      var rows;
      clock, rows := ShowPlane(env, clock, w.store, p);
      out := out + rows;
    }
    assert env.planes[|env.planes|..] == [] && out + [] == out;
    return Some(out);
  }

  // ---------- the reader agrees with the writer ----------

  lemma {:induction false} CiliumRowShown(clock: Clock, s: Store, cluster: string, entries: seq<string>, k: nat)
    requires clock.Reliable() && k < |entries| && TrimSpace(entries[k]) != ""
    ensures var ip := TrimSpace(entries[k]);
            StatusRow(s, cluster, ip, CiliumSource, ip) in CiliumRows(clock, s, cluster, entries).rows
    decreases |entries|
  {
    if k > 0 {
      CiliumRowShown(if TrimSpace(entries[0]) == "" then clock else clock.Tick(), s, cluster, entries[1..], k - 1);
    }
  }

  lemma {:induction false} CiliumRowsReliable(clock: Clock, s: Store, cluster: string, entries: seq<string>)
    requires clock.Reliable()
    ensures CiliumRows(clock, s, cluster, entries).clock.Reliable()
    decreases |entries|
  {
    if entries != [] {
      CiliumRowsReliable(clock, s, cluster, entries[1..]);
      CiliumRowsReliable(clock.Tick(), s, cluster, entries[1..]);
    }
  }

  lemma {:induction false} RowsOfPlaneShown(env: Env, clock: Clock, s: Store, planes: seq<ControlPlane>, names: seq<string>, k: nat)
      returns (at: Clock)
    requires clock.Reliable() && k < |planes| && Picked(names, planes[k].name)
    ensures at.Reliable()
    ensures forall row | row in PlaneRows(env, at, s, planes[k]).rows :: row in ShowPlanes(env, clock, s, planes, names).rows
    decreases |planes|
  {
    var first := PlaneRows(env, clock, s, planes[0]);
    if k == 0 {
      at := clock;
    } else {
      CiliumRowsReliable(clock, s, planes[0].name, PlaneEntries(planes[0]));
      at := RowsOfPlaneShown(env, if Picked(names, planes[0].name) then first.clock else clock, s, planes[1..], names, k - 1);
    }
  }

  /** Every non-blank entry of a picked control plane has its row. */
  lemma EntryShown(env: Env, clock: Clock, s: Store, planes: seq<ControlPlane>, names: seq<string>, i: nat, k: nat)
    requires clock.Reliable() && i < |planes| && Picked(names, planes[i].name)
    requires k < |PlaneEntries(planes[i])| && TrimSpace(PlaneEntries(planes[i])[k]) != ""
    ensures var ip := TrimSpace(PlaneEntries(planes[i])[k]);
            StatusRow(s, planes[i].name, ip, CiliumSource, ip) in ShowPlanes(env, clock, s, planes, names).rows
  {
    var at := RowsOfPlaneShown(env, clock, s, planes, names, i);
    CiliumRowShown(at, s, planes[i].name, PlaneEntries(planes[i]), k);
  }

  /** The rows that a settled cluster must show as assigned. */
  ghost predicate ShownAssigned(env: Env, rows: seq<Row>, c: Cluster) {
    var ip, d := CiliumIP(env, c.name), TailscaleOf(env, c.name);
    && (ip.Some? && ip.value != "" ==>
          exists row | row in rows ::
            row.cluster == c.name && row.ip == ip.value && row.source == CiliumSource && row.known)
    && (d.Some? && d.value.ip != "" ==>
          exists row | row in rows ::
            row.cluster == c.name && row.ip == d.value.Address() && row.source == TailscaleSource && row.known)
  }

  lemma SettledIsShown(env: Env, clock: Clock, s: Store, c: Cluster, names: seq<string>)
    requires clock.Reliable() && c.kind == Managed && EndpointOf(env, c).Some? && Settled(env, s, c)
    requires Picked(names, c.name)
    ensures ShownAssigned(env, ShowPlanes(env, clock, s, env.planes, names).rows, c)
  {
    var k := Plane(env, c.name);
    if k < |env.planes| {
      var p := env.planes[k];
      var at := RowsOfPlaneShown(env, clock, s, env.planes, names, k);
      var shown := PlaneRows(env, at, s, p).rows;
      var ip, d := CiliumIP(env, c.name), TailscaleOf(env, c.name);
      if ip.Some? && ip.value != "" {
        CiliumRowShown(at, s, c.name, PlaneEntries(p), 0);
        assert StatusRow(s, c.name, ip.value, CiliumSource, ip.value) in shown;
      }
      if d.Some? && d.value.ip != "" {
        CiliumRowsReliable(at, s, p.name, PlaneEntries(p));
        assert StatusRow(s, c.name, d.value.Address(), TailscaleSource, d.value.ip) in shown;
      }
    }
  }

  /**
   Writer and reader agree: after a run in which no call failed, the table shows as assigned
   the first annotation entry, when it is not blank, and the Tailscale address, when the
   device has one, of every managed cluster of the run that has an endpoint.
   */
  lemma WrittenIsShown(env: Env, w: World, names: seq<string>, clock: Clock, shown: seq<string>, c: Cluster)
    requires clock.Reliable() && !SyncStatus(env, w, names).0.clock.failed
    requires c in Selected(env.clusters, names) && c.kind == Managed && EndpointOf(env, c).Some?
    requires Picked(shown, c.name)
    ensures ShownAssigned(env, ShowPlanes(env, clock, SyncStatus(env, w, names).0.store, env.planes, shown).rows, c)
  {
    var cs := Selected(env.clusters, names);
    var v := w.(clock := w.clock.Tick().Tick());
    SyncAllOk(env, v, cs, NextGroupId(w.store.groups));
    SyncAllSettles(env, v, cs, NextGroupId(w.store.groups));
    SettledIsShown(env, clock, SyncStatus(env, w, names).0.store, c, shown);
  }
}
