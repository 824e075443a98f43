/** The comma-separated filters of the controller configuration, and the device query they become. */
module Csv {
  import opened Basics
  import opened Text

  /** One piece of a filter, as it is compared with NetBox slugs. */
  function Token(p: string): (t: string) { ToLower(TrimSpace(p)) }

  function Tokens(parts: seq<string>): (ts: seq<string>) {
    if parts == [] then []
    else (if Token(parts[0]) == "" then [] else [Token(parts[0])]) + Tokens(parts[1..])
  }

  /** splitCSV; no filter at all is []. */
  function SplitCSV(s: string): (ts: seq<string>) {
    var t := TrimSpace(s);
    if t == "" then [] else Tokens(Split(t, ','))
  }

  lemma TokensStep(parts: seq<string>, i: nat, acc: seq<string>)
    requires i < |parts|
    ensures acc + Tokens(parts[i..]) == (if Token(parts[i]) == "" then acc else acc + [Token(parts[i])]) + Tokens(parts[i + 1..])
  {
    assert parts[i..][1..] == parts[i + 1..];
    if Token(parts[i]) == "" {
      assert [] + Tokens(parts[i + 1..]) == Tokens(parts[i + 1..]);
    } else {
      ConcatAssociative(acc, [Token(parts[i])], Tokens(parts[i + 1..]));
    }
  }

  method SplitCsvLoop(s: string) returns (result: seq<string>)
    ensures result == SplitCSV(s)
  {
    var t := TrimSpace(s);
    if t == "" { return []; }
    var parts := Split(t, ',');
    result := [];
    for i := 0 to |parts|
      invariant Tokens(parts) == result + Tokens(parts[i..])
    {
      TokensStep(parts, i, result);
      var token := Token(parts[i]);
      if token != "" { result := result + [token]; }
    }
  }

  // ---------- blanks around the text do not matter ----------

  predicate Blank(s: string) { forall i | 0 <= i < |s| :: IsSpace(s[i]) }

  lemma {:induction false} TrimLeftAppend(s: string, c: char)
    requires IsSpace(c)
    ensures TrimLeft(s + [c]) == if Blank(s) then "" else TrimLeft(s) + [c]
  {
    if s == "" {
      assert s + [c] == [c] && [c][1..] == "";
    } else {
      assert (s + [c])[1..] == s[1..] + [c];
      if IsSpace(s[0]) {
        TrimLeftAppend(s[1..], c);
        assert Blank(s) == Blank(s[1..]) by {
          assert forall i | 0 < i < |s| :: s[i] == s[1..][i - 1];
        }
      }
    }
  }

  lemma {:induction false} TrimLeftBlank(s: string)
    ensures TrimLeft(s) == "" <==> Blank(s)
  {
    if s != "" && IsSpace(s[0]) {
      TrimLeftBlank(s[1..]);
      assert forall i | 0 < i < |s| :: s[i] == s[1..][i - 1];
    }
  }

  lemma {:induction false} TrimRightBlank(s: string)
    requires s != "" && !IsSpace(s[0])
    ensures TrimRight(s) != ""
  {
    if |s| > 1 && IsSpace(s[|s| - 1]) {
      TrimRightBlank(s[..|s| - 1]);
    }
  }

  lemma TokenEmpty(p: string)
    ensures Token(p) == "" <==> Blank(p)
  {
    TrimLeftBlank(p);
    if !Blank(p) {
      TrimRightBlank(TrimLeft(p));
    }
  }

  lemma TokenAppend(p: string, c: char)
    requires IsSpace(c)
    ensures Token(p + [c]) == Token(p)
  {
    TrimLeftAppend(p, c);
    TrimLeftBlank(p);
    var l := TrimLeft(p);
    assert (l + [c])[..|l|] == l;
  }

  lemma TokensCons(p: string, parts: seq<string>)
    ensures Tokens([p] + parts) == (if Token(p) == "" then [] else [Token(p)]) + Tokens(parts)
  {
  }

  lemma TokensConcatCons(p: string, t: seq<string>, u: seq<string>, y: seq<string>)
    requires Tokens(u) == Tokens(t) + y
    ensures Tokens([p] + u) == Tokens([p] + t) + y
  {
    TokensCons(p, t);
    TokensCons(p, u);
    ConcatAssociative(if Token(p) == "" then [] else [Token(p)], Tokens(t), y);
  }

  lemma TokensNone(b: seq<string>)
    ensures Tokens([] + b) == Tokens([]) + Tokens(b)
  {
    assert [] + b == b;
  }

  lemma {:induction false} TokensConcat(a: seq<string>, b: seq<string>)
    ensures Tokens(a + b) == Tokens(a) + Tokens(b)
  {
    if a == [] {
      TokensNone(b);
    } else {
      var h, t := a[0], a[1..];
      assert a == [h] + t;
      assert a + b == [h] + (t + b);
      TokensConcat(t, b);
      TokensConcatCons(h, t, t + b, Tokens(b));
    }
  }

  lemma SplitPrepend(c: char, s: string)
    requires IsSpace(c)
    ensures Tokens(Split([c] + s, ',')) == Tokens(Split(s, ','))
  {
  }

  lemma OnePart(b: string)
    requires ',' !in b
    ensures Tokens(Split(b, ',')) == if Token(b) == "" then [] else [Token(b)]
  {
    SplitWhole(b, ',');
    TokensCons(b, []);
    assert [b] + [] == [b];
  }

  lemma TokensOfConcat(h: string, b: string)
    ensures Tokens(Split(h + [','] + b, ',')) == Tokens(Split(h, ',')) + Tokens(Split(b, ','))
  {
    SplitConcat(h, b, ',');
    TokensConcat(Split(h, ','), Split(b, ','));
  }

  /** Where the last piece of the text starts. */
  function LastComma(s: string): (i: nat)
    ensures i <= |s| && ',' !in s[i..]
    ensures i > 0 ==> s[i - 1] == ','
  {
    if s == "" || s[|s| - 1] == ',' then |s| else
    var i := LastComma(s[..|s| - 1]);
    assert s[i..] == s[..|s| - 1][i..] + [s[|s| - 1]];
    i
  }

  lemma AppendToPart(b: string, c: char)
    requires ',' !in b && IsSpace(c)
    ensures Tokens(Split(b + [c], ',')) == Tokens(Split(b, ','))
  {
    TokenAppend(b, c);
    OnePart(b);
    OnePart(b + [c]);
  }

  lemma AppendAfterComma(h: string, b: string, c: char)
    requires ',' !in b && IsSpace(c)
    ensures Tokens(Split(h + [','] + b + [c], ',')) == Tokens(Split(h + [','] + b, ','))
  {
    AppendToPart(b, c);
    TokensOfConcat(h, b);
    TokensOfConcat(h, b + [c]);
    ConcatAssociative(h + [','], b, [c]);
  }

  lemma SplitAppend(s: string, c: char)
    requires IsSpace(c)
    ensures Tokens(Split(s + [c], ',')) == Tokens(Split(s, ','))
  {
    var i := LastComma(s);
    var b := s[i..];
    if i == 0 {
      assert b == s;
      AppendToPart(b, c);
    } else {
      var h := s[..i - 1];
      assert s == h + [','] + b;
      AppendAfterComma(h, b, c);
    }
  }

  lemma {:induction false} TrimLeftTokens(s: string)
    ensures Tokens(Split(TrimLeft(s), ',')) == Tokens(Split(s, ','))
  {
    if s != "" && IsSpace(s[0]) {
      TrimLeftTokens(s[1..]);
      SplitPrepend(s[0], s[1..]);
      assert s == [s[0]] + s[1..];
    }
  }

  lemma TrimRightStep(t: string, c: char)
    requires IsSpace(c)
    ensures TrimRight(t + [c]) == TrimRight(t)
  {
    assert (t + [c])[..|t|] == t;
  }

  lemma {:induction false} TrimRightTokens(s: string)
    ensures Tokens(Split(TrimRight(s), ',')) == Tokens(Split(s, ','))
  {
    if s != "" && IsSpace(s[|s| - 1]) {
      var t, c := s[..|s| - 1], s[|s| - 1];
      assert s == t + [c];
      TrimRightTokens(t);
      TrimRightStep(t, c);
      SplitAppend(t, c);
    }
  }

  lemma SplitCSVTokens(s: string)
    ensures SplitCSV(s) == Tokens(Split(s, ','))
  {
    TrimLeftTokens(s);
    TrimRightTokens(TrimLeft(s));
  }

  // ---------- the laws of the parser ----------

  /** The filters of two lists joined by a comma are the filters of the two lists. */
  lemma SplitOfConcat(a: string, b: string)
    ensures SplitCSV(a + "," + b) == SplitCSV(a) + SplitCSV(b)
  {
    SplitCSVTokens(a + "," + b);
    SplitCSVTokens(a);
    SplitCSVTokens(b);
    TokensOfConcat(a, b);
  }

  /** A token is non-empty, without blanks around it, in lower case and without a comma. */
  predicate Clean(t: string) {
    t != "" && TrimSpace(t) == t && ToLower(t) == t && ',' !in t
  }

  lemma {:induction false} TrimLeftPart(s: string, c: char)
    requires c !in s
    ensures c !in TrimLeft(s)
  {
    if s != "" && IsSpace(s[0]) {
      TrimLeftPart(s[1..], c);
    }
  }

  lemma LowerTwice(s: string)
    ensures ToLower(ToLower(s)) == ToLower(s)
  {
  }

  lemma TokenClean(p: string)
    requires ',' !in p
    ensures Token(p) != "" ==> Clean(Token(p))
  {
    TrimLeftPart(p, ',');
    var u, t := TrimSpace(p), Token(p);
    assert ',' !in u;
    LowerTwice(u);
    if t != "" {
      assert !IsSpace(t[0]) && !IsSpace(t[|t| - 1]);
      assert forall i | 0 <= i < |t| :: t[i] == LowerChar(u[i]) && u[i] in u;
    }
  }

  lemma {:induction false} TokensClean(parts: seq<string>)
    requires forall p | p in parts :: ',' !in p
    ensures forall t | t in Tokens(parts) :: Clean(t)
  {
    if parts != [] {
      TokenClean(parts[0]);
      TokensClean(parts[1..]);
    }
  }

  lemma TokensAreClean(s: string)
    ensures forall t | t in SplitCSV(s) :: Clean(t)
  {
    SplitParts(TrimSpace(s), ',');
    TokensClean(Split(TrimSpace(s), ','));
  }

  lemma {:induction false} CleanTokensStay(ts: seq<string>)
    requires forall t | t in ts :: Clean(t)
    ensures Tokens(ts) == ts
  {
    if ts != [] {
      CleanTokensStay(ts[1..]);
      assert Clean(ts[0]);
    }
  }

  /** Joining the tokens and splitting again changes nothing. */
  lemma RejoinIsIdentity(s: string)
    ensures SplitCSV(Join(SplitCSV(s), ",")) == SplitCSV(s)
  {
    var ts := SplitCSV(s);
    TokensAreClean(s);
    if ts != [] {
      SplitJoin(ts, ',');
      CleanTokensStay(ts);
      SplitCSVTokens(Join(ts, ","));
    }
  }

  // ---------- when there is a filter at all ----------

  /** The text holds nothing but commas and blanks. */
  predicate Void(s: string) { forall i | 0 <= i < |s| :: s[i] == ',' || IsSpace(s[i]) }

  predicate AllBlank(parts: seq<string>) { parts == [] || (Blank(parts[0]) && AllBlank(parts[1..])) }

  lemma {:induction false} TokensEmpty(parts: seq<string>)
    ensures Tokens(parts) == [] <==> AllBlank(parts)
  {
    if parts != [] {
      TokenEmpty(parts[0]);
      TokensEmpty(parts[1..]);
    }
  }

  lemma BlankCons(c: char, p: string)
    ensures Blank([c] + p) == (IsSpace(c) && Blank(p))
    ensures Void([c] + p) == ((c == ',' || IsSpace(c)) && Void(p))
  {
    var s := [c] + p;
    assert forall i | 0 <= i < |p| :: s[i + 1] == p[i];
    assert s[0] == c;
  }

  lemma {:induction false} VoidParts(s: string)
    ensures AllBlank(Split(s, ',')) <==> Void(s)
  {
    if s != "" {
      var rest := Split(s[1..], ',');
      VoidParts(s[1..]);
      BlankCons(s[0], s[1..]);
      assert s == [s[0]] + s[1..];
      if s[0] == ',' {
        assert ([""] + rest)[1..] == rest;
      } else {
        BlankCons(s[0], rest[0]);
        assert ([[s[0]] + rest[0]] + rest[1..])[1..] == rest[1..];
      }
    }
  }

  /** There is no filter exactly when the text is all commas and blanks. */
  lemma NoFilterIff(s: string)
    ensures SplitCSV(s) == [] <==> Void(s)
  {
    SplitCSVTokens(s);
    TokensEmpty(Split(s, ','));
    VoidParts(s);
  }
}

/** The device query of the program: which of its filters it sends, and with which values. */
module DeviceQuery {
  import opened Basics
  import opened Csv

  datatype Filters = Filters(
    sites: seq<string>, roles: seq<string>, regions: seq<string>, locations: seq<string>, tenants: seq<string>,
    racks: seq<int>, clusters: seq<string>, status: seq<string>
  )

  /** The parameters of the request; None is a parameter that is not sent. */
  datatype Request = Request(
    hasPrimaryIp: bool, status: seq<string>, site: Option<seq<string>>, role: Option<seq<string>>, region: Option<seq<string>>,
    location: Option<seq<string>>, tenant: Option<seq<string>>, rack: Option<seq<int>>, cluster: Option<seq<Int32>>
  )

  datatype ClusterRecord = ClusterRecord(id: Int32, name: string)

  /** The clusters NetBox knows by the given names; None when it cannot be asked. */
  type Clusters = seq<string> -> Option<seq<ClusterRecord>>

  /** The ids of the devices a request selects; None when it fails. */
  type Inventory = Request -> Option<seq<Int32>>

  /** What is asked for: one request, or nothing because no cluster matches or the clusters cannot be read. */
  datatype Query = Send(request: Request) | NoDevices | ClusterError

  datatype Answer = Devices(ids: seq<Int32>) | Error

  function Sent<T(==)>(values: seq<T>, blank: T): (r: Option<seq<T>>) {
    if |values| > 0 && values[0] != blank then Some(values) else None
  }

  function Ids(records: seq<ClusterRecord>): (ids: seq<Int32>)
    ensures |ids| == |records| && forall i | 0 <= i < |ids| :: ids[i] == records[i].id
  {
    if records == [] then [] else [records[0].id] + Ids(records[1..])
  }

  /** resolveClusterIDs */
  method ResolveClusterIds(names: seq<string>, lookup: Clusters) returns (ids: Option<seq<Int32>>)
    ensures ids.None? <==> lookup(names).None?
    ensures ids.Some? ==> ids.value == Ids(lookup(names).value)
  {
    var found := lookup(names);
    if found.None? { return None; }
    var result: seq<Int32> := [];
    for i := 0 to |found.value|
      invariant |result| == i && forall j | 0 <= j < i :: result[j] == found.value[j].id
    {
      result := result + [found.value[i].id];
    }
    assert result == Ids(found.value);
    return Some(result);
  }

  function QueryOf(f: Filters, lookup: Clusters): (q: Query) {
    var base := Request(true, f.status, Sent(f.sites, ""), Sent(f.roles, ""), Sent(f.regions, ""), Sent(f.locations, ""),
                        Sent(f.tenants, ""), Sent(f.racks, 0), None);
    if Sent(f.clusters, "").None? then Send(base)
    else
      match lookup(f.clusters)
      case None => ClusterError
      case Some(records) => if records == [] then NoDevices else Send(base.(cluster := Some(Ids(records))))
  }

  function AnswerOf(q: Query, list: Inventory): (a: Answer) {
    match q
    case NoDevices => Devices([])
    case ClusterError => Error
    case Send(request) =>
      match list(request)
      case None => Error
      case Some(ids) => Devices(ids)
  }

  /** GetDevices */
  method GetDevices(f: Filters, lookup: Clusters, list: Inventory) returns (a: Answer)
    ensures a == AnswerOf(QueryOf(f, lookup), list)
  {
    var req := Request(true, f.status, None, None, None, None, None, None, None);
    req := req.(site := Sent(f.sites, ""));
    req := req.(role := Sent(f.roles, ""));
    req := req.(region := Sent(f.regions, ""));
    req := req.(location := Sent(f.locations, ""));
    req := req.(tenant := Sent(f.tenants, ""));
    req := req.(rack := Sent(f.racks, 0));
    if |f.clusters| > 0 && f.clusters[0] != "" {
      var ids := ResolveClusterIds(f.clusters, lookup);
      if ids.None? { return Error; }
      if |ids.value| == 0 { return Devices([]); }
      req := req.(cluster := Some(ids.value));
    }
    var devices := list(req);
    if devices.None? { return Error; }
    return Devices(devices.value);
  }

  /** A configured string sends its tokens, and sends nothing exactly when it is all commas and blanks. */
  lemma ConfiguredFilter(s: string)
    ensures Sent(SplitCSV(s), "") == if Void(s) then None else Some(SplitCSV(s))
  {
    NoFilterIff(s);
    TokensAreClean(s);
    if SplitCSV(s) != [] {
      assert Clean(SplitCSV(s)[0]);
    }
  }

  // ---------- what a query means ----------

  /** The parameter carries the filter exactly when the filter has a first element that is not blank. */
  predicate Carries<T(==)>(parameter: Option<seq<T>>, filter: seq<T>, blank: T) {
    && (parameter.Some? <==> filter != [] && filter[0] != blank)
    && (parameter.Some? ==> parameter.value == filter)
  }

  predicate ByCluster(f: Filters) { f.clusters != [] && f.clusters[0] != "" }

  /** Every parameter of the request, and when there is no request at all. */
  lemma QueryMeaning(f: Filters, lookup: Clusters)
    ensures var q := QueryOf(f, lookup);
            && (q.ClusterError? <==> ByCluster(f) && lookup(f.clusters).None?)
            && (q.NoDevices? <==> ByCluster(f) && lookup(f.clusters) == Some([]))
            && (q.Send? ==>
                  var r := q.request;
                  && r.hasPrimaryIp && r.status == f.status
                  && Carries(r.site, f.sites, "") && Carries(r.role, f.roles, "") && Carries(r.region, f.regions, "")
                  && Carries(r.location, f.locations, "") && Carries(r.tenant, f.tenants, "") && Carries(r.rack, f.racks, 0)
                  && (r.cluster.Some? <==> ByCluster(f)))
            && (q.Send? && ByCluster(f) ==>
                  var ids, records := q.request.cluster.value, lookup(f.clusters).value;
                  |ids| == |records| && forall i | 0 <= i < |ids| :: ids[i] == records[i].id)
  {
  }

  /** What NetBox knows of a device that the filters speak of. */
  datatype Candidate = Candidate(
    hasPrimaryIp: bool, status: string, site: string, role: string, region: string,
    location: string, tenant: string, rack: int, cluster: Option<Int32>
  )

  predicate Allows<T(==)>(parameter: Option<seq<T>>, value: T) { parameter.None? || value in parameter.value }

  predicate MatchesLists(r: Request, d: Candidate) {
    && (r.hasPrimaryIp ==> d.hasPrimaryIp)
    && (r.status == [] || d.status in r.status)
    && Allows(r.site, d.site) && Allows(r.role, d.role) && Allows(r.region, d.region)
    && Allows(r.location, d.location) && Allows(r.tenant, d.tenant) && Allows(r.rack, d.rack)
  }

  predicate MatchesCluster(ids: Option<seq<Int32>>, d: Candidate) {
    ids.None? || (d.cluster.Some? && d.cluster.value in ids.value)
  }

  /** NetBox's side: a parameter that is not sent, or a list without values, asks for nothing. */
  predicate Matches(r: Request, d: Candidate) { MatchesLists(r, d) && MatchesCluster(r.cluster, d) }

  predicate Passes<T(==)>(filter: seq<T>, blank: T, value: T) { filter == [] || filter[0] == blank || value in filter }

  predicate MeantByLists(f: Filters, d: Candidate) {
    && d.hasPrimaryIp
    && (f.status == [] || d.status in f.status)
    && Passes(f.sites, "", d.site) && Passes(f.roles, "", d.role) && Passes(f.regions, "", d.region)
    && Passes(f.locations, "", d.location) && Passes(f.tenants, "", d.tenant) && Passes(f.racks, 0, d.rack)
  }

  /** The filters as the caller means them, for the cluster records that have the wanted names. */
  predicate Meant(f: Filters, records: seq<ClusterRecord>, d: Candidate) {
    MeantByLists(f, d) && (ByCluster(f) ==> exists i | 0 <= i < |records| :: d.cluster == Some(records[i].id))
  }

  lemma ListsSelect(f: Filters, lookup: Clusters, d: Candidate)
    requires QueryOf(f, lookup).Send?
    ensures MatchesLists(QueryOf(f, lookup).request, d) <==> MeantByLists(f, d)
  {
  }

  lemma ClusterSelects(ids: seq<Int32>, records: seq<ClusterRecord>, d: Candidate)
    requires |ids| == |records| && forall i | 0 <= i < |ids| :: ids[i] == records[i].id
    ensures MatchesCluster(Some(ids), d) <==> exists i | 0 <= i < |records| :: d.cluster == Some(records[i].id)
  {
    if i :| 0 <= i < |records| && d.cluster == Some(records[i].id) {
      assert ids[i] in ids;
    }
    if d.cluster.Some? && d.cluster.value in ids {
      var i :| 0 <= i < |ids| && ids[i] == d.cluster.value;
      assert d.cluster == Some(records[i].id);
    }
  }

  /** The devices of the answer are exactly the ones that are meant, also when nothing is asked. */
  lemma QuerySelects(f: Filters, lookup: Clusters, d: Candidate)
    requires !QueryOf(f, lookup).ClusterError?
    ensures var records := if ByCluster(f) then lookup(f.clusters).value else [];
            var q := QueryOf(f, lookup);
            (q.Send? && Matches(q.request, d)) <==> Meant(f, records, d)
  {
    QueryMeaning(f, lookup);
    var q := QueryOf(f, lookup);
    if q.Send? {
      ListsSelect(f, lookup, d);
      if ByCluster(f) {
        ClusterSelects(q.request.cluster.value, lookup(f.clusters).value, d);
      }
    }
  }
}
