/** The configuration the reconcilers share: reloaded as a whole, read field by field. */
module ControllerConfig {
  import opened Basics
  import opened Text
  import opened Csv
  import opened DeviceQuery

  /** A NetBox client, identified by what it was made from. */
  datatype Client = Client(endpoint: string, token: string)

  const DEFAULT_ENDPOINT := "http://netbox.svc"
  const DEFAULT_BACKEND := "tinkerbell"

  /** Five minutes, in nanoseconds. */
  const DEFAULT_INTERVAL: int := 300_000_000_000

  const NO_FILTERS := Filters([], [], [], [], [], [], [], [])

  /** The arguments of one update. */
  datatype Update = Update(
    endpoint: string, token: string, backend: string, interval: int,
    variant: Option<string>, filters: Filters, otelEnabled: bool, otelEndpoint: string
  )

  /** The contents of the shared object at one moment. */
  datatype Settings = Settings(current: Update, client: Option<Client>)

  const INITIAL := Settings(Update(DEFAULT_ENDPOINT, "", DEFAULT_BACKEND, DEFAULT_INTERVAL, None, NO_FILTERS, false, ""), None)

  predicate Connects(u: Update) { u.endpoint != "" && u.token != "" }

  function Updated(s: Settings, u: Update): Settings {
    Settings(u, if Connects(u) then Some(Client(u.endpoint, u.token)) else s.client)
  }

  // ---------- the getters ----------

  function BackendOf(s: Settings): string { if s.current.backend == "" then DEFAULT_BACKEND else s.current.backend }

  function IntervalOf(s: Settings): int { if s.current.interval <= 0 then DEFAULT_INTERVAL else s.current.interval }

  // ---------- reading the ConfigMap and the Secret ----------

  /** time.ParseDuration; None is an error. */
  type Durations = string -> Option<int>

  /** The keys of the ConfigMap that are read; a missing key reads as "". */
  datatype ConfigMap = ConfigMap(
    netboxEndpoint: string, backend: string, syncInterval: string, ignitionVariant: string,
    sites: string, roles: string, tenants: string, regions: string, locations: string,
    otelEnabled: string, otelEndpoint: string
  )

  /** The key of the Secret that is read. */
  datatype Secret = Secret(netboxToken: string)

  const EMPTY_MAP := ConfigMap("", "", "", "", "", "", "", "", "", "", "")

  function Or(s: string, default: string): string { if s == "" then default else s }

  function ReloadInterval(raw: string, parse: Durations): int {
    if raw != "" && parse(raw).Some? && parse(raw).value > 0 then parse(raw).value else DEFAULT_INTERVAL
  }

  function VariantOf(raw: string): Option<string> {
    var v := TrimSpace(raw);
    if v == "" then None else Some(v)
  }

  function FiltersOf(cm: ConfigMap): Filters {
    NO_FILTERS.(sites := SplitCSV(cm.sites), roles := SplitCSV(cm.roles), tenants := SplitCSV(cm.tenants),
                regions := SplitCSV(cm.regions), locations := SplitCSV(cm.locations))
  }

  function UpdateOf(cm: ConfigMap, secret: Secret, parse: Durations): (u: Update) {
    Update(Or(cm.netboxEndpoint, DEFAULT_ENDPOINT), secret.netboxToken, Or(cm.backend, DEFAULT_BACKEND),
           ReloadInterval(cm.syncInterval, parse), VariantOf(cm.ignitionVariant), FiltersOf(cm),
           cm.otelEnabled == "true", cm.otelEndpoint)
  }

  /** The outcome of reading one of the two objects. */
  datatype Fetched<T> = Got(data: T) | Missing | Unreachable

  /** One reconcile of the configuration: what it reads of the ConfigMap and of the Secret. */
  datatype Reload = Reload(cm: Fetched<ConfigMap>, secret: Fetched<Secret>)

  /** A reload that cannot read both objects changes nothing. */
  function Reloaded(s: Settings, r: Reload, parse: Durations): Settings {
    if r.cm.Got? && r.secret.Got? then Updated(s, UpdateOf(r.cm.data, r.secret.data, parse)) else s
  }

  method WithDefault(s: string, default: string) returns (r: string)
    ensures r == Or(s, default)
  {
    r := s;
    if r == "" { r := default; }
  }

  method ReadInterval(raw: string, parse: Durations) returns (every: int)
    ensures every == ReloadInterval(raw, parse)
  {
    every := DEFAULT_INTERVAL;
    if raw != "" {
      var d := parse(raw);
      if d.Some? && d.value > 0 { every := d.value; }
    }
  }

  method ReadFilters(cm: ConfigMap) returns (f: Filters)
    ensures f == FiltersOf(cm)
  {
    var sites := SplitCsvLoop(cm.sites);
    var roles := SplitCsvLoop(cm.roles);
    var tenants := SplitCsvLoop(cm.tenants);
    var regions := SplitCsvLoop(cm.regions);
    var locations := SplitCsvLoop(cm.locations);
    f := NO_FILTERS.(sites := sites, roles := roles, tenants := tenants, regions := regions, locations := locations);
  }

  method ReadVariant(raw: string) returns (variant: Option<string>)
    ensures variant == VariantOf(raw)
  {
    var v := TrimSpace(raw);
    variant := None;
    if v != "" { variant := Some(v); }
  }

  method ReadUpdate(cm: ConfigMap, secret: Secret, parse: Durations) returns (u: Update)
    ensures u == UpdateOf(cm, secret, parse)
  {
    var endpoint := WithDefault(cm.netboxEndpoint, DEFAULT_ENDPOINT);
    var backend := WithDefault(cm.backend, DEFAULT_BACKEND);
    var every := ReadInterval(cm.syncInterval, parse);
    var variant := ReadVariant(cm.ignitionVariant);
    var filters := ReadFilters(cm);
    u := Update(endpoint, secret.netboxToken, backend, every, variant, filters,
                cm.otelEnabled == "true", cm.otelEndpoint);
  }

  class Config {
    var endpoint: string
    var token: string
    var backend: string
    var interval: int
    var variant: Option<string>
    var filters: Filters
    var otelEnabled: bool
    var otelEndpoint: string
    var client: Option<Client>

    function Contents(): Settings
      reads this
    {
      Settings(Update(endpoint, token, backend, interval, variant, filters, otelEnabled, otelEndpoint), client)
    }

    constructor ()
      ensures Contents() == INITIAL
    {
      endpoint, token, backend, interval := DEFAULT_ENDPOINT, "", DEFAULT_BACKEND, DEFAULT_INTERVAL;
      variant, filters, otelEnabled, otelEndpoint, client := None, NO_FILTERS, false, "", None;
    }

    function GetBackend(): (b: string)
      reads this
      ensures b == BackendOf(Contents()) && b != ""
    {
      if backend == "" then DEFAULT_BACKEND else backend
    }

    function GetSyncInterval(): (d: int)
      reads this
      ensures d == IntervalOf(Contents()) && d > 0
    {
      if interval <= 0 then DEFAULT_INTERVAL else interval
    }

    /** update: the fields are replaced under one lock. */
    method Replace(u: Update)
      modifies this
      ensures Contents() == Updated(old(Contents()), u)
    {
      endpoint, token, backend, interval := u.endpoint, u.token, u.backend, u.interval;
      variant, filters, otelEnabled, otelEndpoint := u.variant, u.filters, u.otelEnabled, u.otelEndpoint;
      if u.endpoint != "" && u.token != "" { client := Some(Client(u.endpoint, u.token)); }
    }

    /** applyConfigMapAndSecret */
    method Apply(cm: ConfigMap, secret: Secret, parse: Durations)
      modifies this
      ensures Contents() == Updated(old(Contents()), UpdateOf(cm, secret, parse))
    {
      var u := ReadUpdate(cm, secret, parse);
      Replace(u);
    }

    /** ConfigReconciler.Reconcile: a missing object is not an error. */
    method Reconcile(r: Reload, parse: Durations) returns (ok: bool)
      modifies this
      ensures Contents() == Reloaded(old(Contents()), r, parse)
      ensures ok == !(r.cm.Unreachable? || (r.cm.Got? && r.secret.Unreachable?))
    {
      if !r.cm.Got? { return r.cm.Missing?; }
      if !r.secret.Got? { return r.secret.Missing?; }
      Apply(r.cm.data, r.secret.data, parse);
      return true;
    }
  }

  // ---------- readers among reloads ----------

  /** The settings after the first `k` reloads of a history; a getter reads one of these states. */
  function At(s: Settings, rs: seq<Reload>, k: nat, parse: Durations): (r: Settings)
    requires k <= |rs|
  {
    if k == 0 then s else Reloaded(At(s, rs, k - 1, parse), rs[k - 1], parse)
  }

  /** The reload makes a new client. */
  predicate Reconnects(r: Reload) {
    r.cm.Got? && r.secret.Got? && r.secret.data.netboxToken != ""
  }

  function ClientOf(r: Reload): Client
    requires Reconnects(r)
  {
    Client(Or(r.cm.data.netboxEndpoint, DEFAULT_ENDPOINT), r.secret.data.netboxToken)
  }

  /** One more than the position of the last of the first `k` reloads that makes a client, or 0. */
  function LastConnect(rs: seq<Reload>, k: nat): (i: nat)
    requires k <= |rs|
    ensures i <= k && (i > 0 ==> Reconnects(rs[i - 1]))
  {
    if k == 0 then 0 else if Reconnects(rs[k - 1]) then k else LastConnect(rs, k - 1)
  }

  lemma {:induction false} NoneConnectsAfter(rs: seq<Reload>, k: nat)
    requires k <= |rs|
    ensures forall j | LastConnect(rs, k) <= j < k :: !Reconnects(rs[j])
  {
    if k > 0 && !Reconnects(rs[k - 1]) {
      NoneConnectsAfter(rs, k - 1);
    }
  }

  function LatestClient(s: Settings, rs: seq<Reload>, k: nat): (c: Option<Client>)
    requires k <= |rs|
  {
    var i := LastConnect(rs, k);
    if i == 0 then s.client else Some(ClientOf(rs[i - 1]))
  }

  function ClientAfter(c: Option<Client>, r: Reload): (d: Option<Client>) {
    if Reconnects(r) then Some(ClientOf(r)) else c
  }

  lemma AtClient(s: Settings, rs: seq<Reload>, k: nat, parse: Durations)
    requires 0 < k <= |rs|
    ensures At(s, rs, k, parse).client == ClientAfter(At(s, rs, k - 1, parse).client, rs[k - 1])
  {
  }

  lemma LatestStep(s: Settings, rs: seq<Reload>, k: nat)
    requires 0 < k <= |rs|
    ensures LatestClient(s, rs, k) == ClientAfter(LatestClient(s, rs, k - 1), rs[k - 1])
  {
  }

  /** The client is the one of the latest reload that had both endpoint and token. */
  lemma {:induction false} ClientIsLatest(s: Settings, rs: seq<Reload>, k: nat, parse: Durations)
    requires k <= |rs|
    ensures At(s, rs, k, parse).client == LatestClient(s, rs, k)
  {
    if k > 0 {
      ClientIsLatest(s, rs, k - 1, parse);
      AtClient(s, rs, k, parse);
      LatestStep(s, rs, k);
    }
  }

  /** Once there is a client, every later read finds one. */
  lemma {:induction false} ClientNeverLost(s: Settings, rs: seq<Reload>, i: nat, j: nat, parse: Durations)
    requires i <= j <= |rs| && At(s, rs, i, parse).client.Some?
    ensures At(s, rs, j, parse).client.Some?
  {
    if i < j {
      ClientNeverLost(s, rs, i, j - 1, parse);
      AtClient(s, rs, j, parse);
    }
  }

  /** The first client appears exactly with the first reload that has a token. */
  lemma {:induction false} ClientAppearsIff(rs: seq<Reload>, k: nat, parse: Durations)
    requires k <= |rs|
    ensures At(INITIAL, rs, k, parse).client.Some? <==> exists i | 0 <= i < k :: Reconnects(rs[i])
  {
    ClientIsLatest(INITIAL, rs, k, parse);
    NoneConnectsAfter(rs, k);
    if LastConnect(rs, k) > 0 {
      assert Reconnects(rs[LastConnect(rs, k) - 1]);
    }
  }

  // ---------- one polling pass ----------

  /** What a polling pass does with the configuration; `items` are the clients it uses for the devices, one by one. */
  datatype Plan =
    | Wait(after: int)
    | Sync(client: Client, filters: Filters, variant: Option<string>, items: seq<Client>, after: int)
    | Crash
    | Skip(after: int)

  /** The moments of the reads of one pass; reloads may fall between any two of them. */
  datatype Times = Times(check: nat, backend: nat, client: nat, filters: nat, variant: nat, items: seq<nat>, interval: nat)

  predicate InOrder(t: Times, n: nat) {
    && t.check <= t.backend <= t.client <= t.filters <= t.variant <= t.interval <= n
    && (forall i | 0 <= i < |t.items| :: t.variant <= t.items[i] <= t.interval)
    && (forall i, j | 0 <= i < j < |t.items| :: t.items[i] <= t.items[j])
  }

  /** The clients read at several moments; None when one of them is missing. */
  function ClientsAt(s: Settings, rs: seq<Reload>, moments: seq<nat>, parse: Durations): (cs: Option<seq<Client>>)
    requires forall i | 0 <= i < |moments| :: moments[i] <= |rs|
  {
    if moments == [] then Some([])
    else
      match (At(s, rs, moments[0], parse).client, ClientsAt(s, rs, moments[1..], parse))
      case (Some(c), Some(rest)) => Some([c] + rest)
      case _ => None
  }

  /** NetBoxSyncReconciler.Reconcile and what it reads for each device; using a nil client would crash it. */
  function Poll(s: Settings, rs: seq<Reload>, t: Times, parse: Durations): (p: Plan)
    requires InOrder(t, |rs|)
  {
    var after := IntervalOf(At(s, rs, t.interval, parse));
    if At(s, rs, t.check, parse).client.None? then Wait(after)
    else if BackendOf(At(s, rs, t.backend, parse)) != DEFAULT_BACKEND then Skip(after)
    else
      match (At(s, rs, t.client, parse).client, ClientsAt(s, rs, t.items, parse))
      case (Some(c), Some(items)) =>
        Sync(c, At(s, rs, t.filters, parse).current.filters, At(s, rs, t.variant, parse).current.variant, items, after)
      case _ => Crash
  }

  lemma LaterClient(s: Settings, rs: seq<Reload>, i: nat, j: nat, parse: Durations)
    requires i <= j <= |rs| && At(s, rs, i, parse).client.Some?
    ensures At(s, rs, j, parse).client == LatestClient(s, rs, j) && LatestClient(s, rs, j).Some?
  {
    ClientNeverLost(s, rs, i, j, parse);
    ClientIsLatest(s, rs, j, parse);
  }

  /** The clients used at `moments` are the latest ones at each of them. */
  ghost predicate AllLatest(s: Settings, rs: seq<Reload>, moments: seq<nat>, cs: seq<Client>)
    requires forall i | 0 <= i < |moments| :: moments[i] <= |rs|
  {
    |cs| == |moments| && forall i | 0 <= i < |cs| :: Some(cs[i]) == LatestClient(s, rs, moments[i])
  }

  lemma {:induction false} LaterClients(s: Settings, rs: seq<Reload>, k: nat, moments: seq<nat>, parse: Durations)
    requires k <= |rs| && At(s, rs, k, parse).client.Some?
    requires forall i | 0 <= i < |moments| :: k <= moments[i] <= |rs|
    ensures ClientsAt(s, rs, moments, parse).Some?
    ensures AllLatest(s, rs, moments, ClientsAt(s, rs, moments, parse).value)
  {
    if moments != [] {
      LaterClient(s, rs, k, moments[0], parse);
      LaterClients(s, rs, k, moments[1..], parse);
    }
  }

  /**
   Whatever reloads fall between its reads, a pass never uses a missing client, neither to list the
   devices nor for any single one, and always polls again after a positive time; each client it
   uses is the latest at the moment it was read.
   */
  lemma PollIsSafe(s: Settings, rs: seq<Reload>, t: Times, parse: Durations)
    requires InOrder(t, |rs|)
    ensures match Poll(s, rs, t, parse)
            case Wait(after) => after > 0
            case Skip(after) => after > 0
            case Sync(c, _, _, items, after) =>
              after > 0 && Some(c) == LatestClient(s, rs, t.client) && AllLatest(s, rs, t.items, items)
            case Crash => false
  {
    if At(s, rs, t.check, parse).client.Some? {
      LaterClient(s, rs, t.check, t.client, parse);
      LaterClients(s, rs, t.check, t.items, parse);
    }
  }

  lemma {:induction false} QuietClient(s: Settings, rs: seq<Reload>, i: nat, j: nat, parse: Durations)
    requires i <= j <= |rs| && forall k | i <= k < j :: !Reconnects(rs[k])
    ensures At(s, rs, j, parse).client == At(s, rs, i, parse).client
  {
    if i < j {
      QuietClient(s, rs, i, j - 1, parse);
      AtClient(s, rs, j, parse);
    }
  }

  lemma {:induction false} QuietClients(s: Settings, rs: seq<Reload>, k: nat, moments: seq<nat>, parse: Durations)
    requires forall i | 0 <= i < |moments| :: k <= moments[i] <= |rs| && forall r | k <= r < moments[i] :: !Reconnects(rs[r])
    requires k <= |rs| && ClientsAt(s, rs, moments, parse).Some?
    ensures forall c | c in ClientsAt(s, rs, moments, parse).value :: Some(c) == At(s, rs, k, parse).client
  {
    if moments != [] {
      QuietClient(s, rs, k, moments[0], parse);
      QuietClients(s, rs, k, moments[1..], parse);
    }
  }

  /** The client that listed the devices is the one used for all of them when no client is made meanwhile. */
  lemma OneClientWhenQuiet(s: Settings, rs: seq<Reload>, t: Times, parse: Durations)
    requires InOrder(t, |rs|) && forall k | t.client <= k < t.interval :: !Reconnects(rs[k])
    ensures var p := Poll(s, rs, t, parse); p.Sync? ==> forall c | c in p.items :: c == p.client
  {
    if Poll(s, rs, t, parse).Sync? {
      QuietClients(s, rs, t.client, t.items, parse);
    }
  }

  /** When a pass waits, works or skips, and with what: each part as it was at the moment it was read. */
  lemma PollMeaning(s: Settings, rs: seq<Reload>, t: Times, parse: Durations)
    requires InOrder(t, |rs|)
    ensures var p := Poll(s, rs, t, parse);
            var backend := At(s, rs, t.backend, parse).current.backend;
            && (p.Wait? <==> LatestClient(s, rs, t.check).None?)
            && (p.Sync? <==> LatestClient(s, rs, t.check).Some? && (backend == "" || backend == "tinkerbell"))
            && (p.Sync? ==>
                  && p.filters == At(s, rs, t.filters, parse).current.filters
                  && p.variant == At(s, rs, t.variant, parse).current.variant)
            && (!p.Crash? ==>
                  var interval := At(s, rs, t.interval, parse).current.interval;
                  p.after == if interval > 0 then interval else 300_000_000_000)
  {
    ClientIsLatest(s, rs, t.check, parse);
    PollIsSafe(s, rs, t, parse);
  }

  // ---------- client and filters of one pass ----------

  predicate Effective(r: Reload) { r.cm.Got? && r.secret.Got? }

  /** One more than the position of the last of the first `k` reloads that takes effect, or 0. */
  function LastEffective(rs: seq<Reload>, k: nat): (i: nat)
    requires k <= |rs|
    ensures i <= k && (i > 0 ==> Effective(rs[i - 1]))
  {
    if k == 0 then 0 else if Effective(rs[k - 1]) then k else LastEffective(rs, k - 1)
  }

  /** The filters configured by the last of the first `k` reloads that takes effect. */
  function LatestFilters(s: Settings, rs: seq<Reload>, k: nat): (f: Filters)
    requires k <= |rs|
  {
    var i := LastEffective(rs, k);
    if i == 0 then s.current.filters else FiltersOf(rs[i - 1].cm.data)
  }

  function FiltersAfter(f: Filters, r: Reload): (g: Filters) { if Effective(r) then FiltersOf(r.cm.data) else f }

  lemma AtFilters(s: Settings, rs: seq<Reload>, k: nat, parse: Durations)
    requires 0 < k <= |rs|
    ensures At(s, rs, k, parse).current.filters == FiltersAfter(At(s, rs, k - 1, parse).current.filters, rs[k - 1])
  {
  }

  lemma LatestFiltersStep(s: Settings, rs: seq<Reload>, k: nat)
    requires 0 < k <= |rs|
    ensures LatestFilters(s, rs, k) == FiltersAfter(LatestFilters(s, rs, k - 1), rs[k - 1])
  {
    if Effective(rs[k - 1]) {
      assert LastEffective(rs, k) == k;
    } else {
      assert LastEffective(rs, k) == LastEffective(rs, k - 1);
    }
  }

  lemma FiltersStayLatest(s: Settings, rs: seq<Reload>, k: nat, parse: Durations)
    requires 0 < k <= |rs| && At(s, rs, k - 1, parse).current.filters == LatestFilters(s, rs, k - 1)
    ensures At(s, rs, k, parse).current.filters == LatestFilters(s, rs, k)
  {
    AtFilters(s, rs, k, parse);
    LatestFiltersStep(s, rs, k);
  }

  /** The filters are those of the latest reload that could read both objects. */
  lemma {:induction false} FiltersAreLatest(s: Settings, rs: seq<Reload>, k: nat, parse: Durations)
    requires k <= |rs|
    ensures At(s, rs, k, parse).current.filters == LatestFilters(s, rs, k)
  {
    if k > 0 {
      FiltersAreLatest(s, rs, k - 1, parse);
      FiltersStayLatest(s, rs, k, parse);
    }
  }

  predicate Holds(x: Settings, c: Option<Client>, f: Filters) { x.client == c && x.current.filters == f }

  /** Some single moment held both the client read after `i` reloads and the filters read after `j`. */
  ghost predicate OneSnapshot(s: Settings, rs: seq<Reload>, i: nat, j: nat, parse: Durations)
    requires i <= j <= |rs|
  {
    var c, f := At(s, rs, i, parse).client, At(s, rs, j, parse).current.filters;
    exists k | i <= k <= j :: Holds(At(s, rs, k, parse), c, f)
  }

  /** After `k` reloads the latest client is `c` and the latest filters are `f`. */
  predicate Configured(s: Settings, rs: seq<Reload>, k: nat, c: Option<Client>, f: Filters)
    requires k <= |rs|
  {
    LatestClient(s, rs, k) == c && LatestFilters(s, rs, k) == f
  }

  lemma HoldsIffConfigured(s: Settings, rs: seq<Reload>, k: nat, c: Option<Client>, f: Filters, parse: Durations)
    requires k <= |rs|
    ensures Holds(At(s, rs, k, parse), c, f) <==> Configured(s, rs, k, c, f)
  {
    ClientIsLatest(s, rs, k, parse);
    FiltersAreLatest(s, rs, k, parse);
  }

  /** At some moment from `i` to `j` the reloads had configured the client of `i` together with the filters of `j`. */
  ghost predicate Together(s: Settings, rs: seq<Reload>, i: nat, j: nat)
    requires i <= j <= |rs|
  {
    exists k | i <= k <= j :: Configured(s, rs, k, LatestClient(s, rs, i), LatestFilters(s, rs, j))
  }

  /**
   The client and the filters a pass reads belong together exactly when the reloads themselves configured the
   two together at some moment between the reads: for any number of reloads, from their contents.
   */
  lemma SnapshotIff(s: Settings, rs: seq<Reload>, i: nat, j: nat, parse: Durations)
    requires i <= j <= |rs|
    ensures OneSnapshot(s, rs, i, j, parse) <==> Together(s, rs, i, j)
  {
    var c, f := LatestClient(s, rs, i), LatestFilters(s, rs, j);
    ClientIsLatest(s, rs, i, parse);
    FiltersAreLatest(s, rs, j, parse);
    forall k | i <= k <= j
      ensures Holds(At(s, rs, k, parse), c, f) <==> Configured(s, rs, k, c, f)
    {
      HoldsIffConfigured(s, rs, k, c, f, parse);
    }
  }

  /** The reload leaves the client as it is, makes the same client again, or keeps the filters. */
  predicate KeepsOne(r: Reload, c: Option<Client>, f: Filters) {
    !Reconnects(r) || c == Some(ClientOf(r)) || f == FiltersOf(r.cm.data)
  }

  lemma ConfiguredBeforeOrAfter(s: Settings, rs: seq<Reload>, k: nat)
    requires k < |rs|
    ensures var c, f := LatestClient(s, rs, k), LatestFilters(s, rs, k + 1);
            Configured(s, rs, k, c, f) || Configured(s, rs, k + 1, c, f)
            <==> KeepsOne(rs[k], c, LatestFilters(s, rs, k))
  {
    LatestStep(s, rs, k + 1);
    LatestFiltersStep(s, rs, k + 1);
  }

  lemma TogetherAt(s: Settings, rs: seq<Reload>, i: nat, j: nat, k: nat)
    requires i <= k <= j <= |rs| && Configured(s, rs, k, LatestClient(s, rs, i), LatestFilters(s, rs, j))
    ensures Together(s, rs, i, j)
  {
  }

  lemma TogetherWhen(s: Settings, rs: seq<Reload>, i: nat, j: nat) returns (k: nat)
    requires i <= j <= |rs| && Together(s, rs, i, j)
    ensures i <= k <= j && Configured(s, rs, k, LatestClient(s, rs, i), LatestFilters(s, rs, j))
  {
    k :| i <= k <= j && Configured(s, rs, k, LatestClient(s, rs, i), LatestFilters(s, rs, j));
  }

  lemma TogetherAtEither(s: Settings, rs: seq<Reload>, i: nat)
    requires i < |rs|
    ensures var c, f := LatestClient(s, rs, i), LatestFilters(s, rs, i + 1);
            Together(s, rs, i, i + 1) <==> Configured(s, rs, i, c, f) || Configured(s, rs, i + 1, c, f)
  {
    var c, f := LatestClient(s, rs, i), LatestFilters(s, rs, i + 1);
    if Together(s, rs, i, i + 1) {
      var k := TogetherWhen(s, rs, i, i + 1);
      assert k == i || k == i + 1;
    }
    if Configured(s, rs, i, c, f) {
      TogetherAt(s, rs, i, i + 1, i);
    }
    if Configured(s, rs, i + 1, c, f) {
      TogetherAt(s, rs, i, i + 1, i + 1);
    }
  }

  lemma TogetherIff(s: Settings, rs: seq<Reload>, i: nat)
    requires i < |rs|
    ensures Together(s, rs, i, i + 1) <==> KeepsOne(rs[i], LatestClient(s, rs, i), LatestFilters(s, rs, i))
  {
    TogetherAtEither(s, rs, i);
    ConfiguredBeforeOrAfter(s, rs, i);
  }

  /** With a single reload between the two reads it depends on what that reload holds. */
  lemma SnapshotOfOneReload(s: Settings, rs: seq<Reload>, i: nat, parse: Durations)
    requires i < |rs|
    ensures OneSnapshot(s, rs, i, i + 1, parse) <==> KeepsOne(rs[i], LatestClient(s, rs, i), LatestFilters(s, rs, i))
  {
    SnapshotIff(s, rs, i, i + 1, parse);
    TogetherIff(s, rs, i);
  }

  /** The pair is consistent when no new client is made between the two reads. */
  lemma SnapshotWhenQuiet(s: Settings, rs: seq<Reload>, i: nat, j: nat, parse: Durations)
    requires i <= j <= |rs| && forall k | i <= k < j :: !Reconnects(rs[k])
    ensures OneSnapshot(s, rs, i, j, parse)
  {
    QuietClient(s, rs, i, j, parse);
    var after := At(s, rs, j, parse);
    assert Holds(after, At(s, rs, i, parse).client, after.current.filters);
  }

  // ---------- a torn pair ----------

  const PARIS := Reload(Got(EMPTY_MAP.(sites := "paris")), Got(Secret("a")))
  const EVERYWHERE := Reload(Got(EMPTY_MAP.(sites := ",")), Got(Secret("b")))

  lemma TornReloads()
    ensures Reconnects(PARIS) && Reconnects(EVERYWHERE) && ClientOf(PARIS) != ClientOf(EVERYWHERE)
    ensures FiltersOf(PARIS.cm.data) != FiltersOf(EVERYWHERE.cm.data)
  {
    assert ClientOf(PARIS).token == "a" && ClientOf(EVERYWHERE).token == "b";
    NoFilterIff("paris");
    NoFilterIff(",");
    assert "paris"[0] == 'p';
  }

  lemma LatestIsFirst(rs: seq<Reload>)
    requires |rs| >= 1 && Reconnects(rs[0])
    ensures LatestClient(INITIAL, rs, 1) == Some(ClientOf(rs[0])) && LatestFilters(INITIAL, rs, 1) == FiltersOf(rs[0].cm.data)
  {
  }

  /** Token and sites are both changed between the reads: the old client is used with the new filters. */
  lemma TornExample(parse: Durations)
    ensures !OneSnapshot(INITIAL, [PARIS, EVERYWHERE], 1, 2, parse)
  {
    var rs := [PARIS, EVERYWHERE];
    TornReloads();
    LatestIsFirst(rs);
    SnapshotOfOneReload(INITIAL, rs, 1, parse);
  }

  // ---------- what a reload makes readable ----------

  /** The duration text is a positive duration. */
  predicate Valid(raw: string, parse: Durations) { raw != "" && parse(raw).Some? && parse(raw).value > 0 }

  /** Each getter after a reload, from the texts of the two objects. */
  lemma ReloadReads(s: Settings, cm: ConfigMap, secret: Secret, parse: Durations)
    ensures var x := Reloaded(s, Reload(Got(cm), Got(secret)), parse);
            && (Valid(cm.syncInterval, parse) ==> IntervalOf(x) == parse(cm.syncInterval).value)
            && (!Valid(cm.syncInterval, parse) ==> IntervalOf(x) == 300_000_000_000)
            && (cm.backend == "" ==> BackendOf(x) == "tinkerbell")
            && (cm.backend != "" ==> BackendOf(x) == cm.backend)
            && (secret.netboxToken == "" ==> x.client == s.client)
            && (secret.netboxToken != "" ==>
                  x.client == Some(Client(if cm.netboxEndpoint == "" then "http://netbox.svc" else cm.netboxEndpoint, secret.netboxToken)))
            && (x.current.otelEnabled <==> cm.otelEnabled == "true") && x.current.otelEndpoint == cm.otelEndpoint
  {
  }

  /** The variant is the configured text without the blanks around it, and none when it is all blanks. */
  lemma ReloadVariant(s: Settings, cm: ConfigMap, secret: Secret, parse: Durations)
    ensures var v := Reloaded(s, Reload(Got(cm), Got(secret)), parse).current.variant;
            && (v.None? <==> Blank(cm.ignitionVariant))
            && (v.Some? ==> v.value == TrimSpace(cm.ignitionVariant))
  {
    TokenEmpty(cm.ignitionVariant);
  }

  // ---------- the device query ----------

  predicate SentAs(parameter: Option<seq<string>>, configured: string) {
    parameter == if Void(configured) then None else Some(SplitCSV(configured))
  }

  /** The device query of a reload: each configured string is sent as its tokens, or not at all. */
  lemma ReloadedQuery(s: Settings, r: Reload, parse: Durations, lookup: Clusters)
    requires r.cm.Got? && r.secret.Got?
    ensures var q := QueryOf(Reloaded(s, r, parse).current.filters, lookup);
            && q.Send? && q.request.rack.None? && q.request.cluster.None?
            && SentAs(q.request.site, r.cm.data.sites) && SentAs(q.request.role, r.cm.data.roles)
            && SentAs(q.request.region, r.cm.data.regions) && SentAs(q.request.location, r.cm.data.locations)
            && SentAs(q.request.tenant, r.cm.data.tenants)
  {
    ConfiguredFilter(r.cm.data.sites);
    ConfiguredFilter(r.cm.data.roles);
    ConfiguredFilter(r.cm.data.regions);
    ConfiguredFilter(r.cm.data.locations);
    ConfiguredFilter(r.cm.data.tenants);
  }
}
