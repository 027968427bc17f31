/** Annotated scrape targets (pkg/agent/kubernetes_metrics_discovery.go): the four relabel
    programs that decide what is collected, and the Go code that reports what is collected. */
module ScrapeJobs {
  import opened Options
  import opened Relabel
  import opened Sorting

  datatype Annotation = Scrape | Scheme | Path | Port | Auth | Insecure

  type Annotations = map<Annotation, string>

  datatype Label =
    | ServiceMeta(a: Annotation) | SliceMeta(a: Annotation) | Tmp(a: Annotation)
    | ReadyMeta | NamespaceMeta | ServiceNameMeta
    | Address | SchemeLabel | MetricsPath | NamespaceLabel | ServiceLabel | JobLabel
    | Plain(name: string)

  datatype Variant = Variant(serviceAccount: bool, insecure: bool)

  // ---------------------------------------------------------------- the generated program

  const ANNOTATIONS: seq<Annotation> := [Scrape, Scheme, Path, Port, Auth, Insecure]

  function Copy(source: Label, target: Label, pattern: Pattern): Rule<Label> {
    Replace([source], ";", pattern, target, Groups)
  }

  /** The slice's annotation is copied over the Service's. */
  function Overrides(annotations: seq<Annotation>): seq<Rule<Label>> {
    if annotations == [] then [] else
      [ Copy(ServiceMeta(annotations[0]), Tmp(annotations[0]), SomeText),
        Copy(SliceMeta(annotations[0]), Tmp(annotations[0]), SomeText) ]
      + Overrides(annotations[1..])
  }

  function Gates(): seq<Rule<Label>> {
    [ Keep([Tmp(Scrape)], OneOf(["true"])),
      Keep([Tmp(Scheme)], OneOf(["", "http", "https"])),
      Keep([Tmp(Path)], OptionalPath),
      Keep([Tmp(Port)], OptionalPort),
      Keep([ReadyMeta], OneOf(["true"])) ]
  }

  function AuthGates(v: Variant): seq<Rule<Label>> {
    if v.serviceAccount then
      [Keep([Tmp(Auth)], OneOf(["service-account"])), Keep([Tmp(Scheme)], OneOf(["https"]))]
    else
      [Keep([Tmp(Auth)], OneOf(["", "none"]))]
  }

  function TlsGates(v: Variant): seq<Rule<Label>> {
    if v.insecure then
      [Keep([Tmp(Insecure)], OneOf(["true"])), Keep([Tmp(Scheme)], OneOf(["https"]))]
    else
      [Keep([Tmp(Insecure)], OneOf(["", "false"]))]
  }

  predicate IsPrivate(l: Label) {
    l.Tmp? || (l.Plain? && ("__tmp_zke_" <= l.name || "zke_" <= l.name))
  }

  function TargetRewrites(): seq<Rule<Label>> {
    [ Copy(Tmp(Scheme), SchemeLabel, OneOf(["http", "https"])),
      Copy(Tmp(Path), MetricsPath, AbsolutePath),
      Replace([Address, Tmp(Port)], ";", HostPortThenPort, Address, Groups) ]
  }

  function NameRewrites(): seq<Rule<Label>> {
    [ Copy(NamespaceMeta, NamespaceLabel, AnyText),
      Copy(ServiceNameMeta, ServiceLabel, AnyText),
      Replace([NamespaceMeta, ServiceNameMeta], "/", AnyText, JobLabel, Groups) ]
  }

  /** renderAnnotatedEndpointScrapeJob's relabel_configs. */
  function Program(v: Variant): seq<Rule<Label>> {
    Overrides(ANNOTATIONS) + Selection(v) + Rewrites()
  }

  function Selection(v: Variant): seq<Rule<Label>> {
    Gates() + AuthGates(v) + TlsGates(v)
  }

  function Rewrites(): seq<Rule<Label>> {
    TargetRewrites() + NameRewrites() + [LabelDrop(IsPrivate)]
  }

  // ---------------------------------------------------------------- what the report says

  datatype Endpoint = Endpoint(addresses: seq<string>, ready: Option<bool>)

  datatype Slice = Slice(annotations: Annotations, endpoints: seq<Endpoint>, ports: seq<Option<nat>>)

  /** A Service, if it exists, and the EndpointSlices that name it, in name order. */
  datatype Source = Source(namespace: string, name: string, service: Option<Annotations>, slices: seq<Slice>)

  datatype Job = Job(name: string, scheme: string, path: string, port: string, auth: string, insecure: bool)

  /** unicode.IsSpace. */
  predicate IsSpace(c: char) {
    || c in "\t\n\U{0B}\U{0C}\r " || c == '\U{85}' || c == '\U{A0}' || c == '\U{1680}'
    || '\U{2000}' <= c <= '\U{200A}' || c == '\U{2028}' || c == '\U{2029}' || c == '\U{202F}'
    || c == '\U{205F}' || c == '\U{3000}'
  }

  /** strings.TrimSpace. */
  function Trim(s: string): string {
    if s != [] && IsSpace(s[0]) then Trim(s[1..])
    else if s != [] && IsSpace(s[|s| - 1]) then Trim(s[..|s| - 1])
    else s
  }

  predicate IsTrimmed(s: string) {
    s == [] || (!IsSpace(s[0]) && !IsSpace(s[|s| - 1]))
  }

  /** White space by its code points. */
  predicate IsBlank(c: char) {
    || c as int in {0x09, 0x0A, 0x0B, 0x0C, 0x0D, 0x20, 0x85, 0xA0, 0x1680, 0x2028, 0x2029, 0x202F, 0x205F, 0x3000}
    || 0x2000 <= c as int <= 0x200A
  }

  /** `r` is `s` from `i` on, with white space around it. */
  predicate IsCutOf(r: string, s: string, i: nat) {
    && i + |r| <= |s| && r == s[i..i + |r|]
    && (forall k | 0 <= k < i :: IsBlank(s[k])) && (forall k | i + |r| <= k < |s| :: IsBlank(s[k]))
  }

  lemma SpaceIsBlank(c: char)
    ensures IsSpace(c) <==> IsBlank(c)
  {
  }

  lemma CutFront(r: string, s: string, i: nat)
    requires s != [] && IsBlank(s[0]) && IsCutOf(r, s[1..], i)
    ensures IsCutOf(r, s, i + 1)
  {
    assert s[i + 1..i + 1 + |r|] == s[1..][i..i + |r|];
    forall k | 0 <= k < |s| && (k < i + 1 || i + 1 + |r| <= k) ensures IsBlank(s[k]) {
      assert k > 0 ==> s[k] == s[1..][k - 1];
    }
  }

  lemma CutBack(r: string, s: string, i: nat)
    requires s != [] && IsBlank(s[|s| - 1]) && IsCutOf(r, s[..|s| - 1], i)
    ensures IsCutOf(r, s, i)
  {
    assert s[i..i + |r|] == s[..|s| - 1][i..i + |r|];
    forall k | 0 <= k < |s| && (k < i || i + |r| <= k) ensures IsBlank(s[k]) {
      assert k < |s| - 1 ==> s[k] == s[..|s| - 1][k];
    }
  }

  lemma {:induction false} TrimCuts(s: string) returns (i: nat)
    ensures IsCutOf(Trim(s), s, i)
  {
    i := 0;
    if s != [] {
      SpaceIsBlank(s[0]);
      SpaceIsBlank(s[|s| - 1]);
      if IsSpace(s[0]) {
        i := TrimCuts(s[1..]);
        CutFront(Trim(s), s, i);
        i := i + 1;
      } else if IsSpace(s[|s| - 1]) {
        i := TrimCuts(s[..|s| - 1]);
        CutBack(Trim(s), s, i);
      }
    }
  }

  /** Trimming takes away white space at both ends, all of it and nothing else. */
  lemma TrimExactly(s: string)
    ensures exists i :: IsCutOf(Trim(s), s, i)
    ensures Trim(s) != "" ==> !IsBlank(Trim(s)[0]) && !IsBlank(Trim(s)[|Trim(s)| - 1])
  {
    var i := TrimCuts(s);
    TrimEnds(s);
  }

  lemma {:induction false} TrimEnds(s: string)
    ensures Trim(s) != "" ==> !IsBlank(Trim(s)[0]) && !IsBlank(Trim(s)[|Trim(s)| - 1])
  {
    if s != [] {
      SpaceIsBlank(s[0]);
      SpaceIsBlank(s[|s| - 1]);
      if IsSpace(s[0]) {
        TrimEnds(s[1..]);
      } else if IsSpace(s[|s| - 1]) {
        TrimEnds(s[..|s| - 1]);
      }
    }
  }

  function Trimmed(m: Annotations): Annotations {
    map a | a in m :: Trim(m[a])
  }

  /** The last slice that carries an annotation wins over the Service. */
  function Effective(service: Option<Annotations>, slices: seq<Slice>): Annotations {
    if slices == [] then (if service.Some? then Trimmed(service.value) else map[])
    else Effective(service, slices[..|slices| - 1]) + Trimmed(slices[|slices| - 1].annotations)
  }

  function EffectiveOf(source: Source): Annotations {
    Effective(source.service, source.slices)
  }

  method CopyTrimmed(result: Annotations, from: Annotations) returns (merged: Annotations)
    ensures merged == result + Trimmed(from)
  {
    merged := result;
    var left := from.Keys;
    while left != {}
      invariant left <= from.Keys
      invariant merged == result + map a | a in from && a !in left :: Trim(from[a])
    {
      var a :| a in left;
      merged := merged[a := Trim(from[a])];
      left := left - {a};
    }
  }

  method EffectiveScrapeAnnotations(source: Source) returns (result: Annotations)
    ensures result == EffectiveOf(source)
  {
    result := map[];
    if source.service.Some? {
      result := CopyTrimmed(result, source.service.value);
    }
    for i := 0 to |source.slices|
      invariant result == Effective(source.service, source.slices[..i])
    {
      assert source.slices[..i + 1][..i] == source.slices[..i];
      result := CopyTrimmed(result, source.slices[i].annotations);
    }
    assert source.slices[..|source.slices|] == source.slices;
  }

  /** sourceEnabled, on the effective annotations. */
  predicate Enabled(m: Annotations) {
    var auth, scheme, insecure := Value(m, Auth), Value(m, Scheme), Value(m, Insecure);
    if Value(m, Scrape) != "true" then false
    else if auth != "" && auth != "none" && auth != "service-account" then false
    else if auth == "service-account" && scheme != "https" then false
    else insecure == "" || insecure == "false" || (insecure == "true" && scheme == "https")
  }

  function Or(s: string, default: string): string {
    if s == "" then default else s
  }

  /** The values annotatedSourceJob accepts. */
  predicate Describable(m: Annotations) {
    Value(m, Scheme) in ["", "http", "https"] && Matches(OptionalPath, Value(m, Path))
      && Matches(OptionalPort, Value(m, Port))
  }

  /** annotatedSourceJob, on the effective annotations. */
  function JobOf(source: Source, m: Annotations): Option<Job> {
    if !Describable(m) then None
    else Some(Job(source.namespace + "/" + source.name, Or(Value(m, Scheme), "http"), Or(Value(m, Path), "/metrics"),
                  Value(m, Port), Or(Value(m, Auth), "none"), Value(m, Insecure) == "true"))
  }

  /** What is reported for a source, if anything. */
  function Reported(source: Source): Option<Job> {
    if Enabled(EffectiveOf(source)) then JobOf(source, EffectiveOf(source)) else None
  }

  /** net.JoinHostPort. */
  function JoinHostPort(host: string, port: string): string {
    if ':' in host then "[" + host + "]:" + port else host + ":" + port
  }

  /** strconv.Itoa. */
  function Decimal(n: nat): (s: string)
    ensures IsNumber(s) && Number(s) == n && (|s| == 1 || s[0] != '0')
  {
    var digit := ('0' as int + n % 10) as char;
    if n < 10 then
      [digit]
    else
      var s := Decimal(n / 10) + [digit];
      assert s[..|s| - 1] == Decimal(n / 10);
      s
  }

  /** One address of one endpoint, on one numbered port of the slice. */
  datatype Target = Target(slice: nat, endpoint: nat, address: nat, port: nat)

  predicate IsTarget(slices: seq<Slice>, t: Target) {
    && t.slice < |slices|
    && t.endpoint < |slices[t.slice].endpoints|
    && t.address < |slices[t.slice].endpoints[t.endpoint].addresses|
    && t.port < |slices[t.slice].ports| && slices[t.slice].ports[t.port].Some?
  }

  predicate IsReady(e: Endpoint) {
    e.ready == Some(true)
  }

  /** What endpointSliceTargets adds for one address of a ready endpoint. */
  function AddressTargets(address: string, ports: seq<Option<nat>>, port: string): set<string> {
    if port != "" then {JoinHostPort(address, port)}
    else set p <- ports | p.Some? :: JoinHostPort(address, Decimal(p.value))
  }

  function AddressesTargets(addresses: seq<string>, ports: seq<Option<nat>>, port: string): set<string> {
    set a <- addresses, x <- AddressTargets(a, ports, port) :: x
  }

  function EndpointsTargets(endpoints: seq<Endpoint>, ports: seq<Option<nat>>, port: string): set<string> {
    set e <- endpoints, x <- EndpointTargets(e, ports, port) :: x
  }

  function EndpointTargets(e: Endpoint, ports: seq<Option<nat>>, port: string): set<string> {
    if IsReady(e) then AddressesTargets(e.addresses, ports, port) else {}
  }

  function SliceTargets(slice: Slice, port: string): set<string> {
    EndpointsTargets(slice.endpoints, slice.ports, port)
  }

  function ReportedTargets(slices: seq<Slice>, port: string): set<string> {
    set slice <- slices, x <- SliceTargets(slice, port) :: x
  }

  // ---------------------------------------------------------------- what the addresses are

  /** The one way to write a number. */
  predicate IsNumeral(s: string) {
    IsNumber(s) && (|s| == 1 || s[0] != '0')
  }

  lemma {:induction false} NumeralIsDecimal(s: string)
    requires IsNumeral(s)
    ensures Number(s) >= 0 && s == Decimal(Number(s)) && (Number(s) == 0 ==> s == "0")
  {
    var init, last := s[..|s| - 1], s[|s| - 1];
    assert s == init + [last] && IsDigit(last) && IsDigit(s[0]);
    if init != [] {
      assert init[0] == s[0] && forall c <- init :: c in s;
      NumeralIsDecimal(init);
      assert Number(init) > 0;
      assert Number(s) / 10 == Number(init) && Number(s) % 10 == DigitValue(last);
    }
  }

  /** A host and a port as one address: bracketed exactly when the host holds a colon. */
  predicate IsAddress(x: string, host: string, port: string) {
    x == (if ':' in host then ['['] + host + [']'] else host) + [':'] + port
  }

  /** The port of a target: the override, or a number the slice has among its ports. */
  predicate IsPortOf(port: string, ports: seq<Option<nat>>, overridePort: string) {
    if overridePort != "" then port == overridePort
    else IsNumeral(port) && Number(port) >= 0 && Some(Number(port) as nat) in ports
  }

  ghost predicate IsAddressOn(x: string, host: string, ports: seq<Option<nat>>, overridePort: string) {
    exists port :: IsPortOf(port, ports, overridePort) && IsAddress(x, host, port)
  }

  /** The addresses of ready endpoints. */
  ghost predicate IsScrapeAddress(x: string, slices: seq<Slice>, overridePort: string) {
    exists slice <- slices, e <- slice.endpoints, host <- e.addresses ::
      e.ready == Some(true) && IsAddressOn(x, host, slice.ports, overridePort)
  }

  lemma AddressIsJoined(x: string, host: string, port: string)
    ensures IsAddress(x, host, port) <==> x == JoinHostPort(host, port)
  {
    assert ['['] + host + [']'] + [':'] + port == "[" + host + "]:" + port;
    assert host + [':'] + port == host + ":" + port;
  }

  /** The texts of the ports are the override, or the decimals of the numbered ones. */
  lemma PortTextsAre(port: string, ports: seq<Option<nat>>, overridePort: string)
    ensures IsPortOf(port, ports, overridePort) <==>
      if overridePort != "" then port == overridePort
      else exists p <- ports :: p.Some? && port == Decimal(p.value)
  {
    if overridePort == "" {
      if IsNumeral(port) {
        NumeralIsDecimal(port);
      }
      if p :| p in ports && p.Some? && port == Decimal(p.value) {
        assert p == Some(Number(port) as nat);
      }
    }
  }

  lemma AddressTargetsAre(x: string, host: string, ports: seq<Option<nat>>, overridePort: string)
    ensures x in AddressTargets(host, ports, overridePort) <==> IsAddressOn(x, host, ports, overridePort)
  {
    if x in AddressTargets(host, ports, overridePort) {
      var port := overridePort;
      if overridePort == "" {
        var p :| p in ports && p.Some? && x == JoinHostPort(host, Decimal(p.value));
        port := Decimal(p.value);
      }
      PortTextsAre(port, ports, overridePort);
      AddressIsJoined(x, host, port);
    }
    if port :| IsPortOf(port, ports, overridePort) && IsAddress(x, host, port) {
      PortTextsAre(port, ports, overridePort);
      AddressIsJoined(x, host, port);
    }
  }

  /** The reported addresses, none missing and none added. */
  lemma ReportedTargetsAre(slices: seq<Slice>, overridePort: string)
    ensures forall x :: x in ReportedTargets(slices, overridePort) <==> IsScrapeAddress(x, slices, overridePort)
  {
    forall x ensures x in ReportedTargets(slices, overridePort) <==> IsScrapeAddress(x, slices, overridePort) {
      if x in ReportedTargets(slices, overridePort) {
        var slice :| slice in slices && x in SliceTargets(slice, overridePort);
        var e :| e in slice.endpoints && x in EndpointTargets(e, slice.ports, overridePort);
        var host :| host in e.addresses && x in AddressTargets(host, slice.ports, overridePort);
        AddressTargetsAre(x, host, slice.ports, overridePort);
      }
      if IsScrapeAddress(x, slices, overridePort) {
        var slice, e, host :| slice in slices && e in slice.endpoints && host in e.addresses
          && e.ready == Some(true) && IsAddressOn(x, host, slice.ports, overridePort);
        AddressTargetsAre(x, host, slice.ports, overridePort);
        assert x in EndpointTargets(e, slice.ports, overridePort);
        assert x in SliceTargets(slice, overridePort);
      }
    }
  }

  // ---------------------------------------------------------------- the loops that collect them

  lemma AddressesGrow(addresses: seq<string>, i: nat, ports: seq<Option<nat>>, port: string)
    requires i < |addresses|
    ensures AddressesTargets(addresses[..i + 1], ports, port)
         == AddressesTargets(addresses[..i], ports, port) + AddressTargets(addresses[i], ports, port)
  {
    assert addresses[..i + 1] == addresses[..i] + [addresses[i]];
  }

  lemma EndpointsGrow(endpoints: seq<Endpoint>, i: nat, ports: seq<Option<nat>>, port: string)
    requires i < |endpoints|
    ensures EndpointsTargets(endpoints[..i + 1], ports, port)
         == EndpointsTargets(endpoints[..i], ports, port) + EndpointTargets(endpoints[i], ports, port)
  {
    assert endpoints[..i + 1] == endpoints[..i] + [endpoints[i]];
  }

  lemma SlicesGrow(slices: seq<Slice>, i: nat, port: string)
    requires i < |slices|
    ensures ReportedTargets(slices[..i + 1], port) == ReportedTargets(slices[..i], port) + SliceTargets(slices[i], port)
  {
    assert slices[..i + 1] == slices[..i] + [slices[i]];
  }

  method AddAddress(unique: set<string>, address: string, ports: seq<Option<nat>>, overridePort: string)
      returns (more: set<string>)
    ensures more == unique + AddressTargets(address, ports, overridePort)
  {
    if overridePort != "" {
      return unique + {JoinHostPort(address, overridePort)};
    }
    more := unique;
    for j := 0 to |ports|
      invariant more == unique + AddressTargets(address, ports[..j], overridePort)
    {
      assert ports[..j + 1] == ports[..j] + [ports[j]];
      if ports[j].Some? {
        more := more + {JoinHostPort(address, Decimal(ports[j].value))};
      }
    }
    assert ports[..|ports|] == ports;
  }

  method AddAddresses(unique: set<string>, addresses: seq<string>, ports: seq<Option<nat>>, overridePort: string)
      returns (more: set<string>)
    ensures more == unique + AddressesTargets(addresses, ports, overridePort)
  {
    more := unique;
    for i := 0 to |addresses|
      invariant more == unique + AddressesTargets(addresses[..i], ports, overridePort)
    {
      AddressesGrow(addresses, i, ports, overridePort);
      more := AddAddress(more, addresses[i], ports, overridePort);
    }
    assert addresses[..|addresses|] == addresses;
  }

  method AddEndpoint(unique: set<string>, e: Endpoint, ports: seq<Option<nat>>, overridePort: string)
      returns (more: set<string>)
    ensures more == unique + EndpointTargets(e, ports, overridePort)
  {
    if !IsReady(e) {
      return unique;
    }
    more := AddAddresses(unique, e.addresses, ports, overridePort);
  }

  method AddSlice(unique: set<string>, slice: Slice, overridePort: string) returns (more: set<string>)
    ensures more == unique + SliceTargets(slice, overridePort)
  {
    more := unique;
    for j := 0 to |slice.endpoints|
      invariant more == unique + EndpointsTargets(slice.endpoints[..j], slice.ports, overridePort)
    {
      EndpointsGrow(slice.endpoints, j, slice.ports, overridePort);
      more := AddEndpoint(more, slice.endpoints[j], slice.ports, overridePort);
    }
    assert slice.endpoints[..|slice.endpoints|] == slice.endpoints;
  }

  method UniqueTargets(slices: seq<Slice>, overridePort: string) returns (unique: set<string>)
    ensures unique == ReportedTargets(slices, overridePort)
    ensures forall x :: x in unique <==> IsScrapeAddress(x, slices, overridePort)
  {
    unique := {};
    for i := 0 to |slices|
      invariant unique == ReportedTargets(slices[..i], overridePort)
    {
      SlicesGrow(slices, i, overridePort);
      unique := AddSlice(unique, slices[i], overridePort);
    }
    assert slices[..|slices|] == slices;
    ReportedTargetsAre(slices, overridePort);
  }

  const MAX_REPORTED_TARGETS := 200

  function Itself(s: string): string {
    s
  }

  predicate NoRepeats(s: seq<string>) {
    forall i, j :: 0 <= i < j < |s| ==> s[i] != s[j]
  }

  /** All of `unique` in order, each once. */
  ghost predicate Lists(full: seq<string>, unique: set<string>) {
    NoRepeats(full) && IsSorted(full, Itself) && (forall x :: x in full <==> x in unique) && |full| == |unique|
  }

  lemma SortedLists(s: seq<string>, unique: set<string>)
    requires NoRepeats(s) && (forall x :: x in s <==> x in unique) && |s| == |unique|
    ensures Lists(Sorted(s, Itself), unique)
  {
    var r := Sorted(s, Itself);
    SortedIsSorted(s, Itself);
    SameMembers(r, s);
    NoRepeatsIsMultiset(s);
    forall i, j | 0 <= i < j < |r| ensures r[i] != r[j] {
      if r[i] == r[j] {
        RepeatCounts(r, i, j);
      }
    }
  }

  lemma RepeatCounts(s: seq<string>, i: nat, j: nat)
    requires i < j < |s| && s[i] == s[j]
    ensures multiset(s)[s[j]] >= 2
  {
    assert s == s[..j] + [s[j]] + s[j + 1..];
    assert s[..j][i] in s[..j];
  }

  lemma {:induction false} NoRepeatsIsMultiset(s: seq<string>)
    requires NoRepeats(s)
    ensures forall x :: multiset(s)[x] <= 1
  {
    if s != [] {
      var init, last := s[..|s| - 1], s[|s| - 1];
      assert s == init + [last];
      NoRepeatsIsMultiset(init);
      assert last !in multiset(init) by { assert last !in init; }
    }
  }

  /** The first 200 targets in order, and whether there are more. */
  method EndpointSliceTargets(slices: seq<Slice>, overridePort: string)
      returns (targets: seq<string>, truncated: bool, ghost full: seq<string>)
    ensures Lists(full, ReportedTargets(slices, overridePort))
    ensures forall x :: x in full <==> IsScrapeAddress(x, slices, overridePort)
    ensures targets == if |full| > 200 then full[..200] else full
    ensures truncated == (|full| > 200)
  {
    var unique := UniqueTargets(slices, overridePort);
    var left := unique;
    targets := [];
    while left != {}
      invariant left <= unique && NoRepeats(targets) && |targets| + |left| == |unique|
      invariant forall x :: x in targets <==> x in unique && x !in left
    {
      var x :| x in left;
      targets := targets + [x];
      left := left - {x};
    }
    SortedLists(targets, unique);
    targets := Sorted(targets, Itself);
    full := targets;
    truncated := |targets| > MAX_REPORTED_TARGETS;
    if truncated {
      targets := targets[..MAX_REPORTED_TARGETS];
    }
  }
}
