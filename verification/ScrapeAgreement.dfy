/** What is scraped against what is reported, source by source. */
module ScrapeAgreement {
  import opened Options
  import opened Relabel
  import opened ScrapeJobs
  import opened ScrapeGuarantees

  // ---------------------------------------------------------------- discovery

  function EndpointOf(source: Source, t: Target): Endpoint
    requires IsTarget(source.slices, t)
  {
    source.slices[t.slice].endpoints[t.endpoint]
  }

  function AddressOf(source: Source, t: Target): string
    requires IsTarget(source.slices, t)
  {
    EndpointOf(source, t).addresses[t.address]
  }

  function PortOf(source: Source, t: Target): string
    requires IsTarget(source.slices, t)
  {
    Decimal(source.slices[t.slice].ports[t.port].value)
  }

  function ServiceValue(source: Source, a: Annotation): string {
    if source.service.Some? then Value(source.service.value, a) else ""
  }

  /** The labels service discovery gives one target, with the job's defaults for scheme and path.
      A ready condition that is not set reads as false. */
  ghost predicate Discovered(source: Source, t: Target, labels: Labels<Label>)
    requires IsTarget(source.slices, t)
  {
    && Fresh(labels)
    && (forall a: Annotation :: Value(labels, ServiceMeta(a)) == ServiceValue(source, a))
    && (forall a: Annotation :: Value(labels, SliceMeta(a)) == Value(source.slices[t.slice].annotations, a))
    && Value(labels, ReadyMeta) == (if IsReady(EndpointOf(source, t)) then "true" else "false")
    && Value(labels, NamespaceMeta) == source.namespace
    && Value(labels, ServiceNameMeta) == source.name
    && Value(labels, Address) == JoinHostPort(AddressOf(source, t), PortOf(source, t))
    && Value(labels, SchemeLabel) == "http" && Value(labels, MetricsPath) == "/metrics"
  }

  // ---------------------------------------------------------------- when the two views agree

  predicate Usable(s: string) {
    s != "" && '\n' !in s
  }

  /** The annotation as the last slice that has it wrote it, else as the Service did. */
  function LastWritten(source: Source, a: Annotation): string {
    LastIn(source.slices, a, ServiceValue(source, a))
  }

  function LastIn(slices: seq<Slice>, a: Annotation, default: string): string {
    if slices == [] then default
    else if a in slices[|slices| - 1].annotations then slices[|slices| - 1].annotations[a]
    else LastIn(slices[..|slices| - 1], a, default)
  }

  lemma {:induction false} EffectiveIsLastWritten(service: Option<Annotations>, slices: seq<Slice>, a: Annotation)
    ensures Value(Effective(service, slices), a)
         == Trim(LastIn(slices, a, if service.Some? then Value(service.value, a) else ""))
  {
    if slices != [] {
      EffectiveIsLastWritten(service, slices[..|slices| - 1], a);
    }
  }

  /** The value that decides for a slice: its own if usable, else the Service's if usable. */
  function Deciding(source: Source, slice: Slice, a: Annotation): string {
    if Usable(Value(slice.annotations, a)) then Value(slice.annotations, a)
    else if Usable(ServiceValue(source, a)) then ServiceValue(source, a)
    else ""
  }

  /** Where relabelling and report read different values, on the annotations as written.  An empty
      or multi-line value decides nothing; of what decides, surrounding space or a later slice with
      another text makes the difference; and where nothing decides, any text at all does. */
  predicate Differs(source: Source, slice: Slice, a: Annotation) {
    var own, service, last := Value(slice.annotations, a), ServiceValue(source, a), LastWritten(source, a);
    if Usable(own) then !IsTrimmed(own) || Trim(last) != Trim(own)
    else if Usable(service) then !IsTrimmed(service) || Trim(last) != Trim(service)
    else Trim(last) != ""
  }

  ghost predicate AgreeingAt(source: Source, slice: Slice) {
    forall a: Annotation :: !Differs(source, slice, a)
  }

  lemma TrimIsTrimmed(s: string)
    ensures IsTrimmed(Trim(s))
    ensures Trim(s) == s <==> IsTrimmed(s)
  {
  }

  lemma DiffersExactly(source: Source, slice: Slice, a: Annotation)
    ensures Deciding(source, slice, a) != Trim(LastWritten(source, a)) <==> Differs(source, slice, a)
  {
    TrimIsTrimmed(Value(slice.annotations, a));
    TrimIsTrimmed(ServiceValue(source, a));
    TrimIsTrimmed(LastWritten(source, a));
  }

  lemma ChosenIsDeciding(source: Source, slice: Slice, labels: Labels<Label>, a: Annotation)
    requires Value(labels, ServiceMeta(a)) == ServiceValue(source, a)
    requires Value(labels, SliceMeta(a)) == Value(slice.annotations, a)
    ensures Value(Resolution(labels), a) == Deciding(source, slice, a)
  {
    ResolutionIs(labels, a);
  }

  lemma ViewsResolve(source: Source, t: Target, labels: Labels<Label>, a: Annotation)
    requires IsTarget(source.slices, t) && Discovered(source, t, labels)
    ensures Value(Resolution(labels), a) == Deciding(source, source.slices[t.slice], a)
    ensures Value(EffectiveOf(source), a) == Trim(LastWritten(source, a))
  {
    EffectiveIsLastWritten(source.service, source.slices, a);
    ChosenIsDeciding(source, source.slices[t.slice], labels, a);
  }

  ghost predicate SameView(source: Source, labels: Labels<Label>) {
    forall a: Annotation :: Value(Resolution(labels), a) == Value(EffectiveOf(source), a)
  }

  /** The two views resolve every annotation of a target alike exactly when none of them differs
      as written. */
  lemma ViewsAgreeExactly(source: Source, t: Target, labels: Labels<Label>)
    requires IsTarget(source.slices, t) && Discovered(source, t, labels)
    ensures SameView(source, labels) <==> AgreeingAt(source, source.slices[t.slice])
  {
    var slice := source.slices[t.slice];
    forall a: Annotation
      ensures Value(Resolution(labels), a) == Value(EffectiveOf(source), a) <==>
        !Differs(source, slice, a)
    {
      DiffersExactly(source, slice, a);
      ViewsResolve(source, t, labels, a);
    }
  }

  /** Annotations as people write them: trimmed, on one line, not empty on a slice, and the same
      on every slice of the Service. */
  predicate Plainly(source: Source) {
    && (source.service.Some? ==> forall a <- source.service.value :: Clean(source.service.value[a]))
    && (forall slice <- source.slices, a <- slice.annotations ::
          Clean(slice.annotations[a]) && slice.annotations[a] != "")
    && (forall i, j :: 0 <= i < j < |source.slices| ==> source.slices[i].annotations == source.slices[j].annotations)
  }

  predicate Clean(s: string) {
    IsTrimmed(s) && OneLine(s)
  }

  lemma {:induction false} LastOfEqual(slices: seq<Slice>, a: Annotation, default: string)
    requires slices != []
    requires forall slice <- slices :: slice.annotations == slices[0].annotations
    ensures LastIn(slices, a, default) == if a in slices[0].annotations then slices[0].annotations[a] else default
  {
    if a !in slices[0].annotations && |slices| > 1 {
      assert forall slice <- slices[..|slices| - 1] :: slice in slices;
      LastOfEqual(slices[..|slices| - 1], a, default);
    }
  }

  lemma PlainSourcesAgree(source: Source, slice: Slice)
    requires Plainly(source) && slice in source.slices
    ensures AgreeingAt(source, slice)
  {
    forall a: Annotation ensures !Differs(source, slice, a) {
      LastOfEqual(source.slices, a, ServiceValue(source, a));
      TrimIsTrimmed(LastWritten(source, a));
    }
  }

  // ---------------------------------------------------------------- main results

  lemma SameOutcome(m: Annotations, n: Annotations, source: Source)
    requires forall a: Annotation :: Value(m, a) == Value(n, a)
    ensures Accepted(m) <==> Accepted(n)
    ensures ModeOf(m) == ModeOf(n)
    ensures JobOf(source, m) == JobOf(source, n)
  {
    assert Value(m, Scrape) == Value(n, Scrape) && Value(m, Scheme) == Value(n, Scheme)
      && Value(m, Path) == Value(n, Path);
    assert Value(m, Port) == Value(n, Port) && Value(m, Auth) == Value(n, Auth)
      && Value(m, Insecure) == Value(n, Insecure);
  }

  /** The variant a reported job belongs to. */
  function ModeOfJob(job: Job): Variant {
    Variant(job.auth == "service-account", job.insecure)
  }

  lemma ReportedIs(source: Source)
    ensures Reported(source).Some? <==> Accepted(EffectiveOf(source))
    ensures Reported(source).Some? ==> ModeOfJob(Reported(source).value) == ModeOf(EffectiveOf(source))
  {
    WordsDiffer();
  }

  /** A target is scraped by exactly the program of the reported mode, if it is ready and its
      source is reported at all, and by no other. */
  lemma ScrapedExactlyWhenReported(v: Variant, source: Source, t: Target, labels: Labels<Label>)
    requires IsTarget(source.slices, t) && Discovered(source, t, labels) && AgreeingAt(source, source.slices[t.slice])
    ensures Run(Program(v), labels).Some? <==>
      IsReady(EndpointOf(source, t)) && Reported(source).Some? && v == ModeOfJob(Reported(source).value)
  {
    ViewsAgreeExactly(source, t, labels);
    SameOutcome(Resolution(labels), EffectiveOf(source), source);
    ReportedIs(source);
    ProgramDecides(v, labels);
    WordsDiffer();
  }

  // ---------------------------------------------------------------- scraped if and only if reported

  /** What keeps a target from being accepted, annotation by annotation; https is asked for by two
      of them. */
  predicate FaultAt(v: Annotation -> string, a: Annotation) {
    match a
    case Scrape => v(Scrape) != "true"
    case Scheme => v(Scheme) !in ["", "http", "https"]
    case Path => v(Path) != "" && (v(Path)[0] != '/' || '\n' in v(Path))
    case Port => v(Port) != "" && !(IsNumeral(v(Port)) && 1 <= Number(v(Port)) <= 65535)
    case Auth => v(Auth) !in ["", "none", "service-account"] || (v(Auth) == "service-account" && v(Scheme) != "https")
    case Insecure => v(Insecure) !in ["", "false", "true"] || (v(Insecure) == "true" && v(Scheme) != "https")
  }

  ghost predicate Faultless(v: Annotation -> string) {
    forall a: Annotation :: !FaultAt(v, a)
  }

  lemma PathIs(s: string)
    ensures Matches(OptionalPath, s) <==> s == "" || (s[0] == '/' && '\n' !in s)
  {
  }

  lemma PortIs(s: string)
    ensures Matches(OptionalPort, s) <==> s == "" || (IsNumeral(s) && 1 <= Number(s) <= 65535)
  {
    PortPatternIsRange(s);
  }

  lemma AcceptedIsFaultless(m: Annotations, v: Annotation -> string)
    requires forall a: Annotation :: Value(m, a) == v(a)
    ensures Accepted(m) <==> Faultless(v)
  {
    assert Value(m, Scrape) == v(Scrape) && Value(m, Scheme) == v(Scheme) && Value(m, Path) == v(Path);
    assert Value(m, Port) == v(Port) && Value(m, Auth) == v(Auth) && Value(m, Insecure) == v(Insecure);
    WordsDiffer();
    PathIs(v(Path));
    PortIs(v(Port));
    if Accepted(m) {
      forall a: Annotation ensures !FaultAt(v, a) {
        match a case Scrape => case Scheme => case Path => case Port => case Auth => case Insecure =>
      }
    } else {
      assert FaultAt(v, Scrape) || FaultAt(v, Scheme) || FaultAt(v, Path) || FaultAt(v, Port) || FaultAt(v, Auth)
          || FaultAt(v, Insecure);
    }
  }

  /** The annotations as relabelling reads them on a slice, and as the report reads them. */
  function Relabelled(source: Source, slice: Slice): Annotation -> string {
    a => Deciding(source, slice, a)
  }

  function Described(source: Source): Annotation -> string {
    a => Trim(LastWritten(source, a))
  }

  ghost predicate IsScraped(labels: Labels<Label>) {
    exists v: Variant :: Run(Program(v), labels).Some?
  }

  lemma ScrapedIsFaultless(source: Source, t: Target, labels: Labels<Label>)
    requires IsTarget(source.slices, t) && Discovered(source, t, labels)
    ensures IsScraped(labels) <==>
      IsReady(EndpointOf(source, t)) && Faultless(Relabelled(source, source.slices[t.slice]))
    ensures Reported(source).Some? <==> Faultless(Described(source))
  {
    forall a: Annotation
      ensures Value(Resolution(labels), a) == Deciding(source, source.slices[t.slice], a)
      ensures Value(EffectiveOf(source), a) == Trim(LastWritten(source, a))
    {
      ViewsResolve(source, t, labels, a);
    }
    AcceptedIsFaultless(Resolution(labels), Relabelled(source, source.slices[t.slice]));
    AcceptedIsFaultless(EffectiveOf(source), Described(source));
    ReportedIs(source);
    WordsDiffer();
    forall v: Variant ensures Run(Program(v), labels).Some? <==> Keeps(v, labels) {
      ProgramDecides(v, labels);
    }
    assert Keeps(ModeOf(Resolution(labels)), labels) <==>
      IsReady(EndpointOf(source, t)) && Accepted(Resolution(labels));
  }

  /** Scraped if and only if ready and reported: for a ready target this fails exactly when one
      reading of its annotations is faultless and the other is not. */
  lemma ScrapedIffReportedExactly(source: Source, t: Target, labels: Labels<Label>)
    requires IsTarget(source.slices, t) && Discovered(source, t, labels)
    ensures (IsScraped(labels) <==> IsReady(EndpointOf(source, t)) && Reported(source).Some?) <==>
      (IsReady(EndpointOf(source, t)) ==>
         (Faultless(Relabelled(source, source.slices[t.slice])) <==> Faultless(Described(source))))
  {
    ScrapedIsFaultless(source, t, labels);
  }

  lemma SameReadingSameFault(v: Annotation -> string, w: Annotation -> string, a: Annotation)
    requires v(a) == w(a) && v(Scheme) == w(Scheme)
    ensures FaultAt(v, a) == FaultAt(w, a)
  {
  }

  lemma FaultOnOneSide(v: Annotation -> string, w: Annotation -> string) returns (a: Annotation)
    requires Faultless(v) != Faultless(w)
    ensures FaultAt(v, a) != FaultAt(w, a)
  {
    if Faultless(v) {
      a :| FaultAt(w, a);
    } else {
      a :| FaultAt(v, a);
    }
  }

  /** And then some annotation is at fault on one side only, and it or the scheme it depends on
      differs as written. */
  lemma DisagreementHasACause(source: Source, slice: Slice) returns (a: Annotation)
    requires Faultless(Relabelled(source, slice)) != Faultless(Described(source))
    ensures FaultAt(Relabelled(source, slice), a) != FaultAt(Described(source), a)
    ensures Differs(source, slice, a) || Differs(source, slice, Scheme)
  {
    a := FaultOnOneSide(Relabelled(source, slice), Described(source));
    CauseOf(source, slice, a);
  }

  lemma CauseOf(source: Source, slice: Slice, a: Annotation)
    ensures FaultAt(Relabelled(source, slice), a) == FaultAt(Described(source), a)
         || Differs(source, slice, a) || Differs(source, slice, Scheme)
  {
    DiffersExactly(source, slice, a);
    DiffersExactly(source, slice, Scheme);
    if Relabelled(source, slice)(a) == Described(source)(a)
      && Relabelled(source, slice)(Scheme) == Described(source)(Scheme) {
      SameReadingSameFault(Relabelled(source, slice), Described(source), a);
    }
  }

  /** Where all other annotations are in order on both sides, one annotation decides alone. */
  lemma OneAnnotationDecides(source: Source, t: Target, labels: Labels<Label>, a: Annotation)
    requires IsTarget(source.slices, t) && Discovered(source, t, labels) && IsReady(EndpointOf(source, t))
    requires var slice := source.slices[t.slice];
             forall b: Annotation :: b != a ==> !FaultAt(Relabelled(source, slice), b) && !FaultAt(Described(source), b)
    ensures var slice := source.slices[t.slice];
            (IsScraped(labels) <==> Reported(source).Some?) <==>
              (FaultAt(Relabelled(source, slice), a) <==> FaultAt(Described(source), a))
  {
    ScrapedIsFaultless(source, t, labels);
  }

  function TargetAddress(source: Source, t: Target, port: string): string
    requires IsTarget(source.slices, t)
  {
    JoinHostPort(AddressOf(source, t), Or(port, PortOf(source, t)))
  }

  lemma PortIsNumber(port: string)
    requires Matches(OptionalPort, port) && port != ""
    ensures IsNumber(port)
  {
    PortPatternIsRange(port);
  }

  lemma OverriddenAddress(host: string, old_port: string, port: string)
    requires host != "" && OneLine(host) && IsNumber(old_port) && Matches(OptionalPort, port)
    ensures HostPort(JoinHostPort(host, old_port) + ";" + port).GetOr(JoinHostPort(host, old_port))
         == JoinHostPort(host, Or(port, old_port))
  {
    var joined := JoinHostPort(host, old_port);
    if port == "" {
      SplitLastIs(joined, ';', "");
      assert joined + ";" + "" == joined + [';'] + "";
    } else {
      PortIsNumber(port);
      var bracketed := if ':' in host then "[" + host + "]" else host;
      assert joined == bracketed + ":" + old_port;
      HostPortOf(bracketed, old_port, port);
    }
  }

  /** A scraped target's labels against the reported job. */
  ghost predicate LooksLike(scraped: Labels<Label>, source: Source, t: Target, job: Job)
    requires IsTarget(source.slices, t)
  {
    && Value(scraped, SchemeLabel) == job.scheme
    && Value(scraped, MetricsPath) == job.path
    && Value(scraped, Address) == TargetAddress(source, t, job.port)
    && Value(scraped, JobLabel) == job.name
    && Value(scraped, NamespaceLabel) == source.namespace
    && Value(scraped, ServiceLabel) == source.name
    && (forall a: Annotation :: Value(scraped, Tmp(a)) == "")
    && (forall name: string :: "__tmp_zke_" <= name || "zke_" <= name ==> Value(scraped, Plain(name)) == "")
  }

  /** Two readings that come to the same scheme, path and port once the defaults stand in for
      what is not said. */
  predicate SameTexts(v: Annotation -> string, w: Annotation -> string, port: string) {
    && Or(v(Scheme), "http") == Or(w(Scheme), "http")
    && Or(v(Path), "/metrics") == Or(w(Path), "/metrics")
    && Or(v(Port), port) == Or(w(Port), port)
  }

  /** The same mode: with or without credentials, checking the certificate or not. */
  predicate SameMode(v: Annotation -> string, w: Annotation -> string) {
    && (v(Auth) == "service-account" <==> w(Auth) == "service-account")
    && (v(Insecure) == "true" <==> w(Insecure) == "true")
  }

  /** Scraped targets look like what is reported of their source exactly where the two readings of
      its annotations do, whatever else they differ in. */
  lemma ScrapedAsReportedExactly(v: Variant, source: Source, t: Target, labels: Labels<Label>)
    requires IsTarget(source.slices, t) && Discovered(source, t, labels)
    requires AddressOf(source, t) != "" && OneLine(AddressOf(source, t))
    requires Run(Program(v), labels).Some? && Reported(source).Some?
    ensures var relabelled, described := Relabelled(source, source.slices[t.slice]), Described(source);
            && (LooksLike(Run(Program(v), labels).value, source, t, Reported(source).value) <==>
                SameTexts(relabelled, described, PortOf(source, t)))
            && (v == ModeOfJob(Reported(source).value) <==> SameMode(relabelled, described))
  {
    ScrapedTexts(v, source, t, labels);
    ReportedTexts(source);
    var relabelled, described := Relabelled(source, source.slices[t.slice]), Described(source);
    SameAddress(AddressOf(source, t), Or(relabelled(Port), PortOf(source, t)), Or(described(Port), PortOf(source, t)));
  }

  /** What a scraped target looks like is what the report says of its source. */
  lemma ScrapedAsReported(v: Variant, source: Source, t: Target, labels: Labels<Label>)
    requires IsTarget(source.slices, t) && Discovered(source, t, labels) && AgreeingAt(source, source.slices[t.slice])
    requires AddressOf(source, t) != "" && OneLine(AddressOf(source, t))
    requires Run(Program(v), labels).Some?
    ensures Reported(source).Some? && v == ModeOfJob(Reported(source).value)
    ensures LooksLike(Run(Program(v), labels).value, source, t, Reported(source).value)
    ensures v.serviceAccount || v.insecure ==> Reported(source).value.scheme == "https"
  {
    ScrapedExactlyWhenReported(v, source, t, labels);
    HttpsWhereNeeded(source);
    ScrapedAsReportedExactly(v, source, t, labels);
    DiffersExactly(source, source.slices[t.slice], Scheme);
    DiffersExactly(source, source.slices[t.slice], Path);
    DiffersExactly(source, source.slices[t.slice], Port);
  }

  lemma SameAddress(host: string, port: string, other: string)
    ensures JoinHostPort(host, port) == JoinHostPort(host, other) <==> port == other
  {
    var front := if ':' in host then "[" + host + "]:" else host + ":";
    assert JoinHostPort(host, port) == front + port && JoinHostPort(host, other) == front + other;
    assert (front + port)[|front|..] == port && (front + other)[|front|..] == other;
  }

  /** The job a reading of a source's annotations describes. */
  function JobAs(source: Source, v: Annotation -> string): Job {
    Job(source.namespace + "/" + source.name, Or(v(Scheme), "http"), Or(v(Path), "/metrics"),
        v(Port), Or(v(Auth), "none"), v(Insecure) == "true")
  }

  /** A scraped target looks like the job that relabelling reads. */
  lemma ScrapedTexts(v: Variant, source: Source, t: Target, labels: Labels<Label>)
    requires IsTarget(source.slices, t) && Discovered(source, t, labels)
    requires AddressOf(source, t) != "" && OneLine(AddressOf(source, t))
    requires Run(Program(v), labels).Some?
    ensures var job := JobAs(source, Relabelled(source, source.slices[t.slice]));
            LooksLike(Run(Program(v), labels).value, source, t, job) && v == ModeOfJob(job)
  {
    KeptResolution(v, labels);
    KeptIsFinal(v, labels);
    FinalTexts(source, t, labels);
    FinalTargetAddress(source, t, labels);
    ChosenIsRelabelled(source, t, labels, Auth);
    ChosenIsRelabelled(source, t, labels, Insecure);
    WordsDiffer();
    NamesOfKept(labels);
  }

  lemma FinalTexts(source: Source, t: Target, labels: Labels<Label>)
    requires IsTarget(source.slices, t) && Discovered(source, t, labels)
    ensures var job := JobAs(source, Relabelled(source, source.slices[t.slice]));
            && Final(labels, SchemeLabel) == job.scheme && Final(labels, MetricsPath) == job.path
            && Chosen(labels, Port) == job.port
  {
    ChosenIsRelabelled(source, t, labels, Scheme);
    ChosenIsRelabelled(source, t, labels, Path);
    ChosenIsRelabelled(source, t, labels, Port);
  }

  lemma FinalTargetAddress(source: Source, t: Target, labels: Labels<Label>)
    requires IsTarget(source.slices, t) && Discovered(source, t, labels) && Matches(OptionalPort, Chosen(labels, Port))
    requires AddressOf(source, t) != "" && OneLine(AddressOf(source, t))
    ensures Final(labels, Address) == TargetAddress(source, t, Chosen(labels, Port))
  {
    FinalAddress(labels, AddressOf(source, t), PortOf(source, t), Chosen(labels, Port));
  }

  lemma ChosenIsRelabelled(source: Source, t: Target, labels: Labels<Label>, a: Annotation)
    requires IsTarget(source.slices, t) && Discovered(source, t, labels)
    ensures Chosen(labels, a) == Relabelled(source, source.slices[t.slice])(a)
  {
    ResolutionIs(labels, a);
    ViewsResolve(source, t, labels, a);
  }

  lemma KeptResolution(v: Variant, labels: Labels<Label>)
    requires Fresh(labels) && Run(Program(v), labels).Some?
    ensures v == Variant(Chosen(labels, Auth) == "service-account", Chosen(labels, Insecure) == "true")
    ensures Matches(OptionalPort, Chosen(labels, Port))
  {
    ProgramDecides(v, labels);
    ResolutionIs(labels, Auth);
    ResolutionIs(labels, Insecure);
    ResolutionIs(labels, Port);
  }

  /** And what is reported is the job that the report reads. */
  lemma ReportedTexts(source: Source)
    requires Reported(source).Some?
    ensures Reported(source).value == JobAs(source, Described(source))
  {
    EffectiveIsLastWritten(source.service, source.slices, Scheme);
    EffectiveIsLastWritten(source.service, source.slices, Path);
    EffectiveIsLastWritten(source.service, source.slices, Port);
    EffectiveIsLastWritten(source.service, source.slices, Auth);
    EffectiveIsLastWritten(source.service, source.slices, Insecure);
  }

  lemma KeptIsFinal(v: Variant, labels: Labels<Label>)
    requires Fresh(labels) && Run(Program(v), labels).Some?
    ensures forall l: Label :: Value(Run(Program(v), labels).value, l) == Final(labels, l)
    ensures forall l: Label :: IsPrivate(l) ==> Value(Run(Program(v), labels).value, l) == ""
  {
    ProgramDecides(v, labels);
  }

  lemma FinalAddress(labels: Labels<Label>, host: string, old_port: string, port: string)
    requires host != "" && OneLine(host) && IsNumber(old_port) && Matches(OptionalPort, port)
    requires Value(labels, Address) == JoinHostPort(host, old_port) && Chosen(labels, Port) == port
    ensures Final(labels, Address) == JoinHostPort(host, Or(port, old_port))
  {
    OverriddenAddress(host, old_port, port);
  }

  lemma NamesOfKept(labels: Labels<Label>)
    ensures Final(labels, NamespaceLabel) == Value(labels, NamespaceMeta)
    ensures Final(labels, ServiceLabel) == Value(labels, ServiceNameMeta)
    ensures Final(labels, JobLabel) == Value(labels, NamespaceMeta) + "/" + Value(labels, ServiceNameMeta)
  {
  }

  lemma HttpsWhereNeeded(source: Source)
    requires Reported(source).Some?
    ensures var job := Reported(source).value; job.auth == "service-account" || job.insecure ==> job.scheme == "https"
  {
    WordsDiffer();
  }

  // ---------------------------------------------------------------- the reported addresses

  predicate HasNumberedPort(slice: Slice) {
    exists p <- slice.ports :: p.Some?
  }

  lemma ScrapedAddressIsReported(source: Source, t: Target, port: string)
    requires IsTarget(source.slices, t) && IsReady(EndpointOf(source, t))
    ensures TargetAddress(source, t, port) in ReportedTargets(source.slices, port)
  {
    var slice, e := source.slices[t.slice], EndpointOf(source, t);
    assert slice.ports[t.port] in slice.ports && AddressOf(source, t) in e.addresses && e in slice.endpoints;
    assert TargetAddress(source, t, port) in AddressTargets(AddressOf(source, t), slice.ports, port);
    assert TargetAddress(source, t, port) in EndpointTargets(e, slice.ports, port);
    assert TargetAddress(source, t, port) in SliceTargets(slice, port);
  }

  /** A ready endpoint of the slice stands behind an address reported on an overriding port. */
  predicate StandsBehind(slice: Slice, port: string, x: string) {
    exists e <- slice.endpoints, a <- e.addresses :: IsReady(e) && JoinHostPort(a, port) == x
  }

  ghost predicate IsTargetAddress(source: Source, port: string, x: string) {
    exists t: Target :: IsTarget(source.slices, t) && IsReady(EndpointOf(source, t))
      && TargetAddress(source, t, port) == x
  }

  lemma ReportedWithoutOverride(source: Source, x: string)
    requires x in ReportedTargets(source.slices, "")
    ensures IsTargetAddress(source, "", x)
  {
    var i :| 0 <= i < |source.slices| && x in SliceTargets(source.slices[i], "");
    var slice := source.slices[i];
    var j :| 0 <= j < |slice.endpoints| && x in EndpointTargets(slice.endpoints[j], slice.ports, "");
    var e := slice.endpoints[j];
    var k :| 0 <= k < |e.addresses| && x in AddressTargets(e.addresses[k], slice.ports, "");
    var p :| 0 <= p < |slice.ports| && slice.ports[p].Some?
      && x == JoinHostPort(e.addresses[k], Decimal(slice.ports[p].value));
    assert IsTarget(source.slices, Target(i, j, k, p));
    assert TargetAddress(source, Target(i, j, k, p), "") == x;
  }

  lemma BehindIsTarget(source: Source, port: string, x: string, i: nat)
    requires port != "" && i < |source.slices|
    requires StandsBehind(source.slices[i], port, x) && HasNumberedPort(source.slices[i])
    ensures IsTargetAddress(source, port, x)
  {
    var slice := source.slices[i];
    var e, a :| e in slice.endpoints && a in e.addresses && IsReady(e) && JoinHostPort(a, port) == x;
    var j :| 0 <= j < |slice.endpoints| && slice.endpoints[j] == e;
    var k :| 0 <= k < |e.addresses| && e.addresses[k] == a;
    var p :| 0 <= p < |slice.ports| && slice.ports[p].Some?;
    assert IsTarget(source.slices, Target(i, j, k, p));
    assert TargetAddress(source, Target(i, j, k, p), port) == x;
  }

  lemma TargetStandsBehind(source: Source, port: string, x: string)
    requires port != "" && IsTargetAddress(source, port, x)
    ensures exists slice <- source.slices :: StandsBehind(slice, port, x) && HasNumberedPort(slice)
  {
    var t: Target :| IsTarget(source.slices, t) && IsReady(EndpointOf(source, t))
      && TargetAddress(source, t, port) == x;
    var slice := source.slices[t.slice];
    assert slice in source.slices && EndpointOf(source, t) in slice.endpoints;
    assert AddressOf(source, t) in EndpointOf(source, t).addresses && slice.ports[t.port] in slice.ports;
    assert StandsBehind(slice, port, x) && HasNumberedPort(slice);
  }

  /** A reported address is that of a ready target exactly when no port overrides, or some slice
      with a ready endpoint behind it has a numbered port for the override to replace. */
  lemma ReportedAddressIsScrapedExactly(source: Source, port: string, x: string)
    requires x in ReportedTargets(source.slices, port)
    ensures IsTargetAddress(source, port, x) <==>
      port == "" || exists slice <- source.slices :: StandsBehind(slice, port, x) && HasNumberedPort(slice)
  {
    if port == "" {
      ReportedWithoutOverride(source, x);
    } else if slice :| slice in source.slices && StandsBehind(slice, port, x) && HasNumberedPort(slice) {
      var i :| 0 <= i < |source.slices| && source.slices[i] == slice;
      BehindIsTarget(source, port, x, i);
    }
    if port != "" && IsTargetAddress(source, port, x) {
      TargetStandsBehind(source, port, x);
    }
  }

  /** A Service annotated with a port, backed by one ready address on a slice whose ports have no
      numbers. */
  function Portless(address: string, ports: seq<Option<nat>>): Source {
    Source("ns", "web", Some(map[Scrape := "true", Port := "8080"]),
           [Slice(map[], [Endpoint([address], Some(true))], ports)])
  }

  lemma PortlessReads(address: string, ports: seq<Option<nat>>, a: Annotation)
    ensures Value(EffectiveOf(Portless(address, ports)), a)
         == if a.Scrape? then "true" else if a.Port? then "8080" else ""
  {
    var source := Portless(address, ports);
    assert source.slices[..0] == [];
    EffectiveIsLastWritten(source.service, source.slices, a);
    TrimIsTrimmed(ServiceValue(source, a));
  }

  lemma PortlessIsReported(address: string, ports: seq<Option<nat>>)
    ensures var source := Portless(address, ports); Reported(source).Some? && Reported(source).value.port == "8080"
  {
    var m := EffectiveOf(Portless(address, ports));
    PortlessReads(address, ports, Scrape);
    PortlessReads(address, ports, Scheme);
    PortlessReads(address, ports, Path);
    PortlessReads(address, ports, Port);
    PortlessReads(address, ports, Auth);
    PortlessReads(address, ports, Insecure);
    OnlyScrapeAndPort(m, "8080");
  }

  lemma OnlyScrapeAndPort(m: Annotations, port: string)
    requires Value(m, Scheme) == Value(m, Path) == Value(m, Auth) == Value(m, Insecure) == ""
    requires Value(m, Scrape) == "true" && Value(m, Port) == port && Matches(OptionalPort, port)
    ensures Accepted(m)
  {
  }

  /** Its address is reported on that port, and no target has it. */
  lemma PortlessSliceDiverges(address: string, ports: seq<Option<nat>>)
    requires forall p <- ports :: p.None?
    ensures var source, x := Portless(address, ports), JoinHostPort(address, "8080");
            && Reported(source).Some? && Reported(source).value.port == "8080"
            && x in ReportedTargets(source.slices, "8080") && !IsTargetAddress(source, "8080", x)
  {
    var source, x := Portless(address, ports), JoinHostPort(address, "8080");
    PortlessIsReported(address, ports);
    var slice := source.slices[0];
    var e := slice.endpoints[0];
    assert x in AddressTargets(address, ports, "8080") && address in e.addresses;
    assert x in EndpointTargets(e, ports, "8080") && e in slice.endpoints;
    assert x in SliceTargets(slice, "8080") && slice in source.slices;
    if IsTargetAddress(source, "8080", x) {
      TargetStandsBehind(source, "8080", x);
    }
  }

  // ---------------------------------------------------------------- where the views differ

  lemma OnlyScrapeAccepted(m: Annotations)
    requires Value(m, Scheme) == Value(m, Path) == Value(m, Port) == Value(m, Auth) == Value(m, Insecure) == ""
    ensures Accepted(m) <==> Value(m, Scrape) == "true"
    ensures ModeOf(m) == Variant(false, false)
  {
    WordsDiffer();
  }

  /** An empty annotation on the last slice hides the Service's `true` from the report, but not
      from the relabel rules, where `(.+)` does not match it: scraped and not reported. */
  lemma EmptyOverrideDiverges(source: Source, t: Target, labels: Labels<Label>)
    requires IsTarget(source.slices, t) && Discovered(source, t, labels) && IsReady(EndpointOf(source, t))
    requires source.service == Some(map[Scrape := "true"])
    requires |source.slices| == 1 && source.slices[0].annotations == map[Scrape := ""]
    ensures Reported(source).None?
    ensures Run(Program(Variant(false, false)), labels).Some?
  {
    SwitchOnly(source, t, labels);
    KeptBySwitch(labels);
  }

  lemma KeptBySwitch(labels: Labels<Label>)
    requires Fresh(labels) && Value(labels, ReadyMeta) == "true"
    requires forall a: Annotation :: Value(Resolution(labels), a) == if a == Scrape then "true" else ""
    ensures Run(Program(Variant(false, false)), labels).Some?
  {
    OnlyScrapeAccepted(Resolution(labels));
    ProgramDecides(Variant(false, false), labels);
  }

  lemma SwitchOnly(source: Source, t: Target, labels: Labels<Label>)
    requires IsTarget(source.slices, t) && Discovered(source, t, labels)
    requires source.service == Some(map[Scrape := "true"])
    requires |source.slices| == 1 && source.slices[0].annotations == map[Scrape := ""]
    ensures forall a: Annotation :: Value(Resolution(labels), a) == if a == Scrape then "true" else ""
    ensures forall a: Annotation :: Value(EffectiveOf(source), a) == ""
  {
    forall a: Annotation
      ensures Value(Resolution(labels), a) == if a == Scrape then "true" else ""
      ensures Value(EffectiveOf(source), a) == ""
    {
      ViewsResolve(source, t, labels, a);
      SwitchReads(source, a);
    }
  }

  lemma SwitchReads(source: Source, a: Annotation)
    requires source.service == Some(map[Scrape := "true"])
    requires |source.slices| == 1 && source.slices[0].annotations == map[Scrape := ""]
    ensures Deciding(source, source.slices[0], a) == if a == Scrape then "true" else ""
    ensures Trim(LastWritten(source, a)) == ""
  {
    LastOfEqual(source.slices, a, ServiceValue(source, a));
  }

  /** Surrounding space is trimmed by the report only: reported and not scraped by any program. */
  lemma UntrimmedDiverges(source: Source, t: Target, labels: Labels<Label>, value: string, v: Variant)
    requires IsTarget(source.slices, t) && Discovered(source, t, labels)
    requires value != "true" && Trim(value) == "true"
    requires source.service == Some(map[Scrape := value]) && forall slice <- source.slices :: slice.annotations == map[]
    ensures Reported(source).Some?
    ensures Run(Program(v), labels).None?
  {
    TrimmedSwitchOnly(source, t, labels, value);
    OnlyScrapeAccepted(EffectiveOf(source));
    ReportedIs(source);
    ProgramDecides(v, labels);
  }

  lemma TrimmedSwitchOnly(source: Source, t: Target, labels: Labels<Label>, value: string)
    requires IsTarget(source.slices, t) && Discovered(source, t, labels)
    requires Trim(value) == "true" && value != "true"
    requires source.service == Some(map[Scrape := value]) && forall slice <- source.slices :: slice.annotations == map[]
    ensures forall a: Annotation :: Value(EffectiveOf(source), a) == if a == Scrape then "true" else ""
    ensures Value(Resolution(labels), Scrape) != "true"
  {
    forall a: Annotation ensures Value(EffectiveOf(source), a) == if a == Scrape then "true" else "" {
      ViewsResolve(source, t, labels, a);
      LastOfEqual(source.slices, a, ServiceValue(source, a));
    }
    ViewsResolve(source, t, labels, Scrape);
  }
}
