/** systemd-networkd files: lines of `Key=Value` settings, written and read back. */
module Networkd {
  import opened Basics
  import opened Text

  datatype Field =
    | NameF | MacAddressF | LldpF | EmitLldpF | DhcpF | AddressF | GatewayF | DnsF
    | DnsDefaultRouteF | DomainsF | VlanF | KindF | IdF

  datatype Title = MatchT | NetworkT | NetDevT | VlanT

  datatype Line = Blank | Header(title: Title) | Setting(field: Field, value: string)

  function FieldText(f: Field): (s: string)
    ensures s != "" && s[0] != '['
  {
    match f
    case NameF => "Name"
    case MacAddressF => "MACAddress"
    case LldpF => "LLDP"
    case EmitLldpF => "EmitLLDP"
    case DhcpF => "DHCP"
    case AddressF => "Address"
    case GatewayF => "Gateway"
    case DnsF => "DNS"
    case DnsDefaultRouteF => "DNSDefaultRoute"
    case DomainsF => "Domains"
    case VlanF => "VLAN"
    case KindF => "Kind"
    case IdF => "Id"
  }

  function TitleText(t: Title): (s: string) {
    match t
    case MatchT => "Match"
    case NetworkT => "Network"
    case NetDevT => "NetDev"
    case VlanT => "VLAN"
  }

  function LineText(l: Line): (s: string) {
    match l
    case Blank => ""
    case Header(title) => "[" + TitleText(title) + "]"
    case Setting(f, value) => FieldText(f) + "=" + value
  }

  /** The file with these lines, each ended by a newline. */
  function Render(ls: seq<Line>): (s: string) {
    if ls == [] then "" else LineText(ls[0]) + "\n" + Render(ls[1..])
  }

  // ---------- reading ----------

  const ALL_FIELDS := [
    NameF, MacAddressF, LldpF, EmitLldpF, DhcpF, AddressF, GatewayF, DnsF,
    DnsDefaultRouteF, DomainsF, VlanF, KindF, IdF
  ]

  function FindField(fields: seq<Field>, s: string): (r: Option<Field>) {
    if fields == [] then None
    else if FieldText(fields[0]) == s then Some(fields[0])
    else FindField(fields[1..], s)
  }

  function ReadSetting(s: string): (r: Option<Line>) {
    var i := First(s, (c: char) => c == '=');
    if i == |s| then None
    else
      match FindField(ALL_FIELDS, s[..i])
      case None => None
      case Some(f) => Some(Setting(f, s[i + 1..]))
  }

  function ReadTitle(s: string): (r: Option<Line>) {
    if s == "Match" then Some(Header(MatchT))
    else if s == "Network" then Some(Header(NetworkT))
    else if s == "NetDev" then Some(Header(NetDevT))
    else if s == "VLAN" then Some(Header(VlanT))
    else None
  }

  /** One line of a file; unknown titles, unknown keys and lines without "=" read as None. */
  function ReadLine(s: string): (r: Option<Line>) {
    if s == "" then Some(Blank)
    else if s[0] == '[' then if |s| == 1 then None else ReadTitle(s[1..|s| - 1])
    else ReadSetting(s)
  }

  function ReadLines(parts: seq<string>): (r: seq<Option<Line>>) {
    if parts == [] then [] else [ReadLine(parts[0])] + ReadLines(parts[1..])
  }

  /** The lines of a text; what follows the last newline is not a line. */
  function Read(text: string): (r: seq<Option<Line>>) {
    var parts := Split(text, '\n');
    ReadLines(parts[..|parts| - 1])
  }

  // ---------- round trip ----------

  lemma FieldTextInjective(f: Field, g: Field)
    ensures FieldText(f) == FieldText(g) ==> f == g
  {
  }

  lemma {:induction false} FindFieldFinds(fields: seq<Field>, f: Field)
    requires f in fields
    ensures FindField(fields, FieldText(f)) == Some(f)
  {
    FieldTextInjective(fields[0], f);
    if fields[0] != f {
      FindFieldFinds(fields[1..], f);
    }
  }

  lemma FieldTextPlain(f: Field)
    ensures '=' !in FieldText(f) && '\n' !in FieldText(f)
  {
  }

  lemma {:induction false} FirstSeparator(k: string, rest: string)
    requires '=' !in k
    ensures First(k + "=" + rest, (c: char) => c == '=') == |k|
  {
    var s := k + "=" + rest;
    assert s[|k|] == '=' && forall j | 0 <= j < |k| :: s[j] == k[j] && k[j] in k;
  }

  lemma SettingRoundTrip(f: Field, value: string)
    ensures ReadSetting(FieldText(f) + "=" + value) == Some(Setting(f, value))
  {
    var k := FieldText(f);
    var s := k + "=" + value;
    FieldTextPlain(f);
    FirstSeparator(k, value);
    assert s[..|k|] == k && s[|k| + 1..] == value;
    assert f in ALL_FIELDS;
    FindFieldFinds(ALL_FIELDS, f);
  }

  lemma TitleRoundTrip(t: Title)
    ensures ReadTitle(TitleText(t)) == Some(Header(t))
  {
  }

  lemma LineRoundTrip(l: Line)
    ensures ReadLine(LineText(l)) == Some(l)
  {
    match l
    case Blank =>
    case Header(title) =>
      var s := LineText(l);
      assert s[1..|s| - 1] == TitleText(title);
      TitleRoundTrip(title);
    case Setting(f, value) =>
      assert LineText(l)[0] == FieldText(f)[0];
      SettingRoundTrip(f, value);
  }

  /** The line stays on one line. */
  predicate OneLine(l: Line) {
    match l
    case Blank => true
    case Header(title) => true
    case Setting(_, value) => '\n' !in value
  }

  predicate OneLines(ls: seq<Line>) { ls == [] || (OneLine(ls[0]) && OneLines(ls[1..])) }

  function Texts(ls: seq<Line>): (r: seq<string>) {
    if ls == [] then [] else [LineText(ls[0])] + Texts(ls[1..])
  }

  function Understood(ls: seq<Line>): (r: seq<Option<Line>>) {
    if ls == [] then [] else [Some(ls[0])] + Understood(ls[1..])
  }

  lemma {:induction false} SplitRender(ls: seq<Line>)
    requires OneLines(ls)
    ensures Split(Render(ls), '\n') == Texts(ls) + [""]
  {
    if ls != [] {
      var text, rest := LineText(ls[0]), Render(ls[1..]);
      SplitRender(ls[1..]);
      if ls[0].Setting? {
        FieldTextPlain(ls[0].field);
      } else if ls[0].Header? {
        assert '\n' !in TitleText(ls[0].title);
      }
      SplitConcat(text, rest, '\n');
      SplitWhole(text, '\n');
      assert text + "\n" + rest == text + ['\n'] + rest;
      ConcatAssociative([text], Texts(ls[1..]), [""]);
    }
  }

  lemma {:induction false} TextsUnderstood(ls: seq<Line>)
    ensures ReadLines(Texts(ls)) == Understood(ls)
  {
    if ls != [] {
      LineRoundTrip(ls[0]);
      TextsUnderstood(ls[1..]);
      assert Texts(ls)[1..] == Texts(ls[1..]);
    }
  }

  /** Reading a rendered file gives back exactly its lines. */
  lemma RenderRoundTrip(ls: seq<Line>)
    requires OneLines(ls)
    ensures Read(Render(ls)) == Understood(ls)
  {
    SplitRender(ls);
    TextsUnderstood(ls);
    assert (Texts(ls) + [""])[..|Texts(ls)|] == Texts(ls);
  }

  // ---------- settings by key ----------

  /** The values of one key, in the order of the file. */
  function Values(ls: seq<Option<Line>>, f: Field): (vs: seq<string>) {
    if ls == [] then []
    else
      (if ls[0].Some? && ls[0].value.Setting? && ls[0].value.field == f then [ls[0].value.value] else [])
      + Values(ls[1..], f)
  }

  function Pick(ls: seq<Line>, f: Field): (vs: seq<string>) {
    if ls == [] then []
    else (if ls[0].Setting? && ls[0].field == f then [ls[0].value] else []) + Pick(ls[1..], f)
  }

  function One(l: Line, f: Field): (vs: seq<string>) { if l.Setting? && l.field == f then [l.value] else [] }

  /** Concatenation, with nothing to concatenate when one side is empty. */
  function Merge(x: seq<string>, y: seq<string>): (z: seq<string>) {
    if x == [] then y else if y == [] then x else x + y
  }

  lemma Merged(x: seq<string>, y: seq<string>)
    ensures Merge(x, y) == x + y
  {
  }

  lemma PickCons(l: Line, ls: seq<Line>, f: Field)
    ensures Pick([l] + ls, f) == Merge(One(l, f), Pick(ls, f))
    ensures OneLines([l] + ls) == (OneLine(l) && OneLines(ls))
  {
  }

  lemma PickConcatCons(l: Line, t: seq<Line>, u: seq<Line>, y: seq<string>, f: Field)
    requires Pick(u, f) == Merge(Pick(t, f), y)
    ensures Pick([l] + u, f) == Merge(Pick([l] + t, f), y)
  {
    PickCons(l, t, f);
    PickCons(l, u, f);
    if One(l, f) != [] && Pick(t, f) != [] && y != [] {
      ConcatAssociative(One(l, f), Pick(t, f), y);
    }
  }

  lemma {:induction false} PickConcat(a: seq<Line>, b: seq<Line>, f: Field)
    ensures Pick(a + b, f) == Merge(Pick(a, f), Pick(b, f))
    ensures OneLines(a + b) == (OneLines(a) && OneLines(b))
  {
    if a == [] {
      assert a + b == b;
    } else {
      var h, t := a[0], a[1..];
      assert a == [h] + t;
      assert a + b == [h] + (t + b);
      PickConcat(t, b, f);
      PickConcatCons(h, t, t + b, Pick(b, f), f);
      PickCons(h, t, f);
      PickCons(h, t + b, f);
    }
  }

  lemma {:induction false} ValuesUnderstood(ls: seq<Line>, f: Field)
    ensures Values(Understood(ls), f) == Pick(ls, f)
  {
    if ls != [] {
      ValuesUnderstood(ls[1..], f);
      assert Understood(ls)[1..] == Understood(ls[1..]);
    }
  }

  /** What a reader of the text finds under a key. */
  function Lookup(text: string, f: Field): (vs: seq<string>) { Values(Read(text), f) }

  lemma LookupRender(ls: seq<Line>, f: Field)
    requires OneLines(ls)
    ensures Lookup(Render(ls), f) == Pick(ls, f)
  {
    RenderRoundTrip(ls);
    ValuesUnderstood(ls, f);
  }

  lemma RenderCons(l: Line, ls: seq<Line>)
    ensures Render([l] + ls) == (LineText(l) + "\n") + Render(ls)
  {
  }

  lemma RenderConcatCons(l: Line, t: seq<Line>, u: seq<Line>, text: string)
    requires Render(u) == Render(t) + text
    ensures Render([l] + u) == Render([l] + t) + text
  {
  }

  lemma RenderNone(b: seq<Line>)
    ensures Render([] + b) == Render([]) + Render(b)
  {
    assert [] + b == b;
  }

  lemma {:induction false} RenderConcat(a: seq<Line>, b: seq<Line>)
    ensures Render(a + b) == Render(a) + Render(b)
  {
    if a == [] {
      RenderNone(b);
    } else {
      var h, t := a[0], a[1..];
      assert a == [h] + t;
      assert a + b == [h] + (t + b);
      RenderConcat(t, b);
      RenderConcatCons(h, t, t + b, Render(b));
    }
  }
}
