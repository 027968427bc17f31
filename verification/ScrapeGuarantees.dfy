/** The four programs against the report. */
module ScrapeGuarantees {
  import opened Options
  import opened Relabel
  import opened ScrapeJobs

  // ---------------------------------------------------------------- what a program does

  /** The annotation value a target ends up with. */
  function Chosen(labels: Labels<Label>, a: Annotation): string {
    if Matches(SomeText, Value(labels, SliceMeta(a))) then Value(labels, SliceMeta(a))
    else if Matches(SomeText, Value(labels, ServiceMeta(a))) then Value(labels, ServiceMeta(a))
    else ""
  }

  ghost predicate NoTmp(labels: Labels<Label>) {
    forall a: Annotation :: Value(labels, Tmp(a)) == ""
  }

  /** Every annotation of a list is resolved, and nothing else has changed. */
  ghost predicate Resolved(before: Labels<Label>, after: Labels<Label>, annotations: seq<Annotation>) {
    && (forall a: Annotation :: Value(after, Tmp(a)) == if a in annotations then Chosen(before, a)
      else Value(before, Tmp(a)))
    && (forall l: Label :: !l.Tmp? ==> Value(after, l) == Value(before, l))
  }

  lemma OverrideOne(a: Annotation, labels: Labels<Label>)
    requires Value(labels, Tmp(a)) == ""
    ensures Run(Overrides([a]), labels).Some? && Resolved(labels, Run(Overrides([a]), labels).value, [a])
  {
    var first, second := Copy(ServiceMeta(a), Tmp(a), SomeText), Copy(SliceMeta(a), Tmp(a), SomeText);
    assert Overrides([a]) == [first, second];
    var once := Step(first, labels).value;
    var twice := Step(second, once).value;
    assert [first, second][1..] == [second];
    assert Run([second], once) == Some(twice);
  }

  lemma {:induction false} OverridesResolve(annotations: seq<Annotation>, labels: Labels<Label>)
    requires forall i, j :: 0 <= i < j < |annotations| ==> annotations[i] != annotations[j]
    requires forall a <- annotations :: Value(labels, Tmp(a)) == ""
    ensures Run(Overrides(annotations), labels).Some?
    ensures Resolved(labels, Run(Overrides(annotations), labels).value, annotations)
  {
    if annotations != [] {
      var a, rest := annotations[0], annotations[1..];
      assert annotations == [a] + rest;
      assert Overrides([a]) + Overrides(rest) == Overrides(annotations);
      OverrideOne(a, labels);
      var next := Run(Overrides([a]), labels).value;
      RunAppend(Overrides([a]), Overrides(rest), labels);
      OverridesResolve(rest, next);
      ResolvedInTurn(labels, next, Run(Overrides(rest), next).value, a, rest);
    }
  }

  lemma ResolvedInTurn(first: Labels<Label>, next: Labels<Label>, last: Labels<Label>, a: Annotation,
      rest: seq<Annotation>)
    requires Resolved(first, next, [a]) && Resolved(next, last, rest)
    ensures Resolved(first, last, [a] + rest)
  {
    assert forall b: Annotation :: Chosen(next, b) == Chosen(first, b);
  }

  predicate PassesGates(labels: Labels<Label>) {
    && Value(labels, Tmp(Scrape)) == "true"
    && Value(labels, Tmp(Scheme)) in ["", "http", "https"]
    && Matches(OptionalPath, Value(labels, Tmp(Path)))
    && Matches(OptionalPort, Value(labels, Tmp(Port)))
    && Value(labels, ReadyMeta) == "true"
  }

  predicate PassesAuth(v: Variant, labels: Labels<Label>) {
    if v.serviceAccount then Value(labels, Tmp(Auth)) == "service-account" && Value(labels, Tmp(Scheme)) == "https"
    else Value(labels, Tmp(Auth)) in ["", "none"]
  }

  predicate PassesTls(v: Variant, labels: Labels<Label>) {
    if v.insecure then Value(labels, Tmp(Insecure)) == "true" && Value(labels, Tmp(Scheme)) == "https"
    else Value(labels, Tmp(Insecure)) in ["", "false"]
  }

  lemma KeepOne(rule: Rule<Label>, rest: seq<Rule<Label>>, labels: Labels<Label>)
    requires rule.Keep? && |rule.sources| == 1
    ensures Run([rule] + rest, labels) ==
            if Matches(rule.pattern, Value(labels, rule.sources[0])) then Run(rest, labels) else None
  {
    assert ([rule] + rest)[1..] == rest;
  }

  lemma {:induction false} KeepsAll(rules: seq<Rule<Label>>, labels: Labels<Label>)
    requires forall r <- rules :: r.Keep? && |r.sources| == 1
    ensures Run(rules, labels) ==
            if forall i :: 0 <= i < |rules| ==> Holds(rules[i], labels) then Some(labels) else None
  {
    if rules != [] {
      assert rules == [rules[0]] + rules[1..];
      KeepOne(rules[0], rules[1..], labels);
      KeepsAll(rules[1..], labels);
    }
  }

  predicate Holds(rule: Rule<Label>, labels: Labels<Label>)
    requires rule.Keep? && |rule.sources| == 1
  {
    Matches(rule.pattern, Value(labels, rule.sources[0]))
  }

  lemma GatesPass(labels: Labels<Label>)
    ensures Run(Gates(), labels) == if PassesGates(labels) then Some(labels) else None
  {
    var r := Gates();
    KeepsAll(r, labels);
    assert |r| == 5;
    assert (forall i :: 0 <= i < |r| ==> Holds(r[i], labels)) <==>
      Holds(r[0], labels) && Holds(r[1], labels) && Holds(r[2], labels) && Holds(r[3], labels) && Holds(r[4], labels);
  }

  lemma AuthGatesPass(v: Variant, labels: Labels<Label>)
    ensures Run(AuthGates(v), labels) == if PassesAuth(v, labels) then Some(labels) else None
  {
    KeepsAll(AuthGates(v), labels);
  }

  lemma TlsGatesPass(v: Variant, labels: Labels<Label>)
    ensures Run(TlsGates(v), labels) == if PassesTls(v, labels) then Some(labels) else None
  {
    KeepsAll(TlsGates(v), labels);
  }

  predicate Rewritable(labels: Labels<Label>) {
    && Value(labels, Tmp(Scheme)) in ["", "http", "https"]
    && Matches(OptionalPath, Value(labels, Tmp(Path)))
    && OneLine(Value(labels, NamespaceMeta)) && OneLine(Value(labels, ServiceNameMeta))
  }

  /** One replace rule: only its target label changes, and only on a match. */
  ghost predicate Replaced(rule: Rule<Label>, before: Labels<Label>, after: Labels<Label>)
    requires rule.Replace?
  {
    && (forall l: Label :: l != rule.target ==> Value(after, l) == Value(before, l))
    && Value(after, rule.target) ==
       Captured(rule.pattern, Joined(before, rule.sources, rule.separator)).GetOr(Value(before, rule.target))
  }

  lemma ReplaceOne(rule: Rule<Label>, rest: seq<Rule<Label>>, labels: Labels<Label>) returns (after: Labels<Label>)
    requires rule.Replace? && rule.replacement.Groups?
    ensures Run([rule] + rest, labels) == Run(rest, after) && Replaced(rule, labels, after)
  {
    RunOne(rule, rest, labels);
    after := Step(rule, labels).value;
  }

  lemma ReplaceThree(r: seq<Rule<Label>>, labels: Labels<Label>)
      returns (s1: Labels<Label>, s2: Labels<Label>, s3: Labels<Label>)
    requires |r| == 3 && forall i :: 0 <= i < 3 ==> r[i].Replace? && r[i].replacement.Groups?
    ensures Run(r, labels) == Some(s3)
    ensures Replaced(r[0], labels, s1) && Replaced(r[1], s1, s2) && Replaced(r[2], s2, s3)
  {
    assert r == [r[0]] + ([r[1]] + ([r[2]] + []));
    s1 := ReplaceOne(r[0], [r[1]] + ([r[2]] + []), labels);
    s2 := ReplaceOne(r[1], [r[2]] + [], s1);
    s3 := ReplaceOne(r[2], [], s2);
  }

  lemma SchemeText(s: string, default: string)
    requires s in ["", "http", "https"]
    ensures Captured(OneOf(["http", "https"]), s).GetOr(default) == Or(s, default)
  {
    assert "" !in ["http", "https"];
  }

  lemma PathText(s: string, default: string)
    requires Matches(OptionalPath, s)
    ensures Captured(AbsolutePath, s).GetOr(default) == Or(s, default)
  {
  }

  /** Scheme, path and address are rewritten; nothing else. */
  ghost predicate TargetSet(before: Labels<Label>, after: Labels<Label>) {
    && Value(after, SchemeLabel) == Or(Value(before, Tmp(Scheme)), Value(before, SchemeLabel))
    && Value(after, MetricsPath) == Or(Value(before, Tmp(Path)), Value(before, MetricsPath))
    && Value(after, Address) ==
       HostPort(Value(before, Address) + ";" + Value(before, Tmp(Port))).GetOr(Value(before, Address))
    && forall l: Label :: !l.SchemeLabel? && !l.MetricsPath? && !l.Address? ==> Value(after, l) == Value(before, l)
  }

  lemma SchemeReplaced(before: Labels<Label>, after: Labels<Label>)
    requires Replaced(Copy(Tmp(Scheme), SchemeLabel, OneOf(["http", "https"])), before, after)
    requires Value(before, Tmp(Scheme)) in ["", "http", "https"]
    ensures Value(after, SchemeLabel) == Or(Value(before, Tmp(Scheme)), Value(before, SchemeLabel))
    ensures forall l: Label :: l != SchemeLabel ==> Value(after, l) == Value(before, l)
  {
    SchemeText(Value(before, Tmp(Scheme)), Value(before, SchemeLabel));
  }

  lemma PathReplaced(before: Labels<Label>, after: Labels<Label>)
    requires Replaced(Copy(Tmp(Path), MetricsPath, AbsolutePath), before, after)
    requires Matches(OptionalPath, Value(before, Tmp(Path)))
    ensures Value(after, MetricsPath) == Or(Value(before, Tmp(Path)), Value(before, MetricsPath))
    ensures forall l: Label :: l != MetricsPath ==> Value(after, l) == Value(before, l)
  {
    PathText(Value(before, Tmp(Path)), Value(before, MetricsPath));
  }

  lemma AddressReplaced(before: Labels<Label>, after: Labels<Label>)
    requires Replaced(Replace([Address, Tmp(Port)], ";", HostPortThenPort, Address, Groups), before, after)
    ensures Value(after, Address) ==
      HostPort(Value(before, Address) + ";" + Value(before, Tmp(Port))).GetOr(Value(before, Address))
    ensures forall l: Label :: l != Address ==> Value(after, l) == Value(before, l)
  {
    JoinedPair(before, Address, Tmp(Port), ";");
  }

  lemma TargetSetInTurn(first: Labels<Label>, s1: Labels<Label>, s2: Labels<Label>, last: Labels<Label>)
    requires Rewritable(first)
    requires Replaced(Copy(Tmp(Scheme), SchemeLabel, OneOf(["http", "https"])), first, s1)
    requires Replaced(Copy(Tmp(Path), MetricsPath, AbsolutePath), s1, s2)
    requires Replaced(Replace([Address, Tmp(Port)], ";", HostPortThenPort, Address, Groups), s2, last)
    ensures TargetSet(first, last)
  {
    SchemeReplaced(first, s1);
    PathReplaced(s1, s2);
    AddressReplaced(s2, last);
  }

  lemma TargetRewritten(labels: Labels<Label>) returns (after: Labels<Label>)
    requires Rewritable(labels)
    ensures Run(TargetRewrites(), labels) == Some(after) && TargetSet(labels, after)
  {
    var s1, s2, s3 := ReplaceThree(TargetRewrites(), labels);
    TargetSetInTurn(labels, s1, s2, s3);
    after := s3;
  }

  /** Namespace, service and job are set; nothing else. */
  ghost predicate NamesSet(before: Labels<Label>, after: Labels<Label>) {
    && Value(after, NamespaceLabel) == Value(before, NamespaceMeta)
    && Value(after, ServiceLabel) == Value(before, ServiceNameMeta)
    && Value(after, JobLabel) == Value(before, NamespaceMeta) + "/" + Value(before, ServiceNameMeta)
    && forall l: Label :: !l.NamespaceLabel? && !l.ServiceLabel? && !l.JobLabel? ==> Value(after, l) == Value(before, l)
  }

  lemma JobReplaced(before: Labels<Label>, after: Labels<Label>)
    requires Replaced(Replace([NamespaceMeta, ServiceNameMeta], "/", AnyText, JobLabel, Groups), before, after)
    requires OneLine(Value(before, NamespaceMeta)) && OneLine(Value(before, ServiceNameMeta))
    ensures Value(after, JobLabel) == Value(before, NamespaceMeta) + "/" + Value(before, ServiceNameMeta)
    ensures forall l: Label :: l != JobLabel ==> Value(after, l) == Value(before, l)
  {
    JoinedPair(before, NamespaceMeta, ServiceNameMeta, "/");
  }

  lemma NameReplaced(source: Label, target: Label, before: Labels<Label>, after: Labels<Label>)
    requires Replaced(Copy(source, target, AnyText), before, after) && OneLine(Value(before, source))
    ensures Value(after, target) == Value(before, source)
    ensures forall l: Label :: l != target ==> Value(after, l) == Value(before, l)
  {
  }

  lemma NamesSetInTurn(first: Labels<Label>, s1: Labels<Label>, s2: Labels<Label>, last: Labels<Label>)
    requires OneLine(Value(first, NamespaceMeta)) && OneLine(Value(first, ServiceNameMeta))
    requires Replaced(Copy(NamespaceMeta, NamespaceLabel, AnyText), first, s1)
    requires Replaced(Copy(ServiceNameMeta, ServiceLabel, AnyText), s1, s2)
    requires Replaced(Replace([NamespaceMeta, ServiceNameMeta], "/", AnyText, JobLabel, Groups), s2, last)
    ensures NamesSet(first, last)
  {
    NameReplaced(NamespaceMeta, NamespaceLabel, first, s1);
    NameReplaced(ServiceNameMeta, ServiceLabel, s1, s2);
    JobReplaced(s2, last);
  }

  lemma NamesRewritten(labels: Labels<Label>) returns (after: Labels<Label>)
    requires Rewritable(labels)
    ensures Run(NameRewrites(), labels) == Some(after) && NamesSet(labels, after)
  {
    var s1, s2, s3 := ReplaceThree(NameRewrites(), labels);
    NamesSetInTurn(labels, s1, s2, s3);
    after := s3;
  }

  ghost predicate PrivateGone(before: Labels<Label>, after: Labels<Label>) {
    forall l: Label :: Value(after, l) == if IsPrivate(l) then "" else Value(before, l)
  }

  lemma DropPrivate(labels: Labels<Label>) returns (after: Labels<Label>)
    ensures Run([LabelDrop(IsPrivate)], labels) == Some(after) && PrivateGone(labels, after)
  {
    RunOne(LabelDrop(IsPrivate), [], labels);
    assert [LabelDrop(IsPrivate)] + [] == [LabelDrop(IsPrivate)];
    after := Step(LabelDrop(IsPrivate), labels).value;
  }

  /** The annotations as a target's labels resolve them. */
  function Resolution(labels: Labels<Label>): Annotations {
    map[ Scrape := Chosen(labels, Scrape), Scheme := Chosen(labels, Scheme), Path := Chosen(labels, Path),
         Port := Chosen(labels, Port), Auth := Chosen(labels, Auth), Insecure := Chosen(labels, Insecure) ]
  }

  lemma ResolutionIs(labels: Labels<Label>, a: Annotation)
    ensures Value(Resolution(labels), a) == Chosen(labels, a)
  {
  }

  /** Targets as discovery delivers them: nothing temporary yet, names on one line. */
  ghost predicate Fresh(labels: Labels<Label>) {
    NoTmp(labels) && OneLine(Value(labels, NamespaceMeta)) && OneLine(Value(labels, ServiceNameMeta))
  }

  predicate Passes(v: Variant, labels: Labels<Label>) {
    PassesGates(labels) && PassesAuth(v, labels) && PassesTls(v, labels)
  }

  lemma GatesDecide(v: Variant, labels: Labels<Label>)
    ensures Run(Selection(v), labels) == if Passes(v, labels) then Some(labels) else None
  {
    RunAppend(Gates(), AuthGates(v), labels);
    RunAppend(Gates() + AuthGates(v), TlsGates(v), labels);
    GatesPass(labels);
    AuthGatesPass(v, labels);
    TlsGatesPass(v, labels);
  }

  lemma RewritesEnd(labels: Labels<Label>) returns (s1: Labels<Label>, s2: Labels<Label>, after: Labels<Label>)
    requires Rewritable(labels)
    ensures Run(Rewrites(), labels) == Some(after)
    ensures Passed(labels, s1, s2, after)
  {
    s1 := TargetRewritten(labels);
    s2 := NamesRewritten(s1);
    after := DropPrivate(s2);
    RunTwo(TargetRewrites(), NameRewrites(), [LabelDrop(IsPrivate)], labels, s1);
  }

  /** The labels a kept target leaves with, in terms of those it came with. */
  function Final(labels: Labels<Label>, l: Label): string {
    if IsPrivate(l) then "" else
    match l
    case SchemeLabel => Or(Chosen(labels, Scheme), Value(labels, SchemeLabel))
    case MetricsPath => Or(Chosen(labels, Path), Value(labels, MetricsPath))
    case Address => HostPort(Value(labels, Address) + ";" + Chosen(labels, Port)).GetOr(Value(labels, Address))
    case NamespaceLabel => Value(labels, NamespaceMeta)
    case ServiceLabel => Value(labels, ServiceNameMeta)
    case JobLabel => Value(labels, NamespaceMeta) + "/" + Value(labels, ServiceNameMeta)
    case _ => Value(labels, l)
  }

  predicate IsSet(l: Label) {
    l.SchemeLabel? || l.MetricsPath? || l.Address? || l.NamespaceLabel? || l.ServiceLabel? || l.JobLabel?
  }

  /** The three passes of the last rules, from `first` to `last`. */
  ghost predicate Passed(first: Labels<Label>, s1: Labels<Label>, s2: Labels<Label>, last: Labels<Label>) {
    TargetSet(first, s1) && NamesSet(s1, s2) && PrivateGone(s2, last)
  }

  lemma FinalOfRest(first: Labels<Label>, s1: Labels<Label>, s2: Labels<Label>, last: Labels<Label>, l: Label)
    requires Passed(first, s1, s2, last) && !IsSet(l)
    ensures Value(last, l) == if IsPrivate(l) then "" else Value(first, l)
  {
  }

  lemma FinalOfTexts(first: Labels<Label>, s1: Labels<Label>, s2: Labels<Label>, last: Labels<Label>)
    requires Passed(first, s1, s2, last)
    ensures Value(last, SchemeLabel) == Or(Value(first, Tmp(Scheme)), Value(first, SchemeLabel))
    ensures Value(last, MetricsPath) == Or(Value(first, Tmp(Path)), Value(first, MetricsPath))
  {
  }

  lemma FinalOfHost(first: Labels<Label>, s1: Labels<Label>, s2: Labels<Label>, last: Labels<Label>)
    requires Passed(first, s1, s2, last)
    ensures Value(last, Address) ==
      HostPort(Value(first, Address) + ";" + Value(first, Tmp(Port))).GetOr(Value(first, Address))
  {
  }

  lemma FinalOfNames(first: Labels<Label>, s1: Labels<Label>, s2: Labels<Label>, last: Labels<Label>)
    requires Passed(first, s1, s2, last)
    ensures Value(last, NamespaceLabel) == Value(first, NamespaceMeta)
    ensures Value(last, ServiceLabel) == Value(first, ServiceNameMeta)
    ensures Value(last, JobLabel) == Value(first, NamespaceMeta) + "/" + Value(first, ServiceNameMeta)
  {
  }

  lemma TmpIsChosen(labels: Labels<Label>, next: Labels<Label>, a: Annotation)
    requires Resolved(labels, next, ANNOTATIONS)
    ensures Value(next, Tmp(a)) == Chosen(labels, a)
  {
    EveryAnnotationIsListed(a);
  }

  lemma OtherIsUnchanged(labels: Labels<Label>, next: Labels<Label>, l: Label)
    requires Resolved(labels, next, ANNOTATIONS) && !l.Tmp?
    ensures Value(next, l) == Value(labels, l)
  {
  }

  lemma FinalText(labels: Labels<Label>, next: Labels<Label>, a: Annotation, l: Label)
    requires Resolved(labels, next, ANNOTATIONS) && !l.Tmp?
    ensures Or(Value(next, Tmp(a)), Value(next, l)) == Or(Chosen(labels, a), Value(labels, l))
  {
    TmpIsChosen(labels, next, a);
    OtherIsUnchanged(labels, next, l);
  }

  lemma FinalHost(labels: Labels<Label>, next: Labels<Label>)
    requires Resolved(labels, next, ANNOTATIONS)
    ensures HostPort(Value(next, Address) + ";" + Value(next, Tmp(Port))).GetOr(Value(next, Address)) ==
      Final(labels, Address)
  {
    TmpIsChosen(labels, next, Port);
    OtherIsUnchanged(labels, next, Address);
  }

  lemma FinalNames(labels: Labels<Label>, next: Labels<Label>, last: Labels<Label>)
    requires Resolved(labels, next, ANNOTATIONS)
    requires Value(last, NamespaceLabel) == Value(next, NamespaceMeta)
    requires Value(last, ServiceLabel) == Value(next, ServiceNameMeta)
    requires Value(last, JobLabel) == Value(next, NamespaceMeta) + "/" + Value(next, ServiceNameMeta)
    ensures Value(last, NamespaceLabel) == Final(labels, NamespaceLabel)
    ensures Value(last, ServiceLabel) == Final(labels, ServiceLabel)
    ensures Value(last, JobLabel) == Final(labels, JobLabel)
  {
    OtherIsUnchanged(labels, next, NamespaceMeta);
    OtherIsUnchanged(labels, next, ServiceNameMeta);
  }

  lemma FinalRest(labels: Labels<Label>, next: Labels<Label>, last: Labels<Label>, l: Label)
    requires Resolved(labels, next, ANNOTATIONS) && !IsSet(l)
    requires Value(last, l) == if IsPrivate(l) then "" else Value(next, l)
    ensures Value(last, l) == Final(labels, l)
  {
    if !IsPrivate(l) {
      OtherIsUnchanged(labels, next, l);
    }
  }

  lemma FinalTexts(labels: Labels<Label>, next: Labels<Label>, last: Labels<Label>)
    requires Resolved(labels, next, ANNOTATIONS)
    requires Value(last, SchemeLabel) == Or(Value(next, Tmp(Scheme)), Value(next, SchemeLabel))
    requires Value(last, MetricsPath) == Or(Value(next, Tmp(Path)), Value(next, MetricsPath))
    ensures Value(last, SchemeLabel) == Final(labels, SchemeLabel)
    ensures Value(last, MetricsPath) == Final(labels, MetricsPath)
  {
    FinalText(labels, next, Scheme, SchemeLabel);
    FinalText(labels, next, Path, MetricsPath);
  }

  lemma FinalIs(labels: Labels<Label>, next: Labels<Label>, s1: Labels<Label>, s2: Labels<Label>,
      last: Labels<Label>, l: Label)
    requires Resolved(labels, next, ANNOTATIONS) && Passed(next, s1, s2, last)
    ensures Value(last, l) == Final(labels, l)
  {
    if l.Address? {
      FinalOfHost(next, s1, s2, last);
      FinalHost(labels, next);
    } else if l.SchemeLabel? || l.MetricsPath? {
      FinalOfTexts(next, s1, s2, last);
      FinalTexts(labels, next, last);
    } else if IsSet(l) {
      FinalOfNames(next, s1, s2, last);
      FinalNames(labels, next, last);
    } else {
      FinalOfRest(next, s1, s2, last, l);
      FinalRest(labels, next, last, l);
    }
  }

  // ---------------------------------------------------------------- main results: one program

  /** The report lists a source with these effective annotations. */
  predicate Accepted(m: Annotations) {
    Enabled(m) && Describable(m)
  }

  /** The authentication and TLS mode the report shows. */
  function ModeOf(m: Annotations): Variant {
    Variant(Value(m, Auth) == "service-account", Value(m, Insecure) == "true")
  }

  /** Exactly when a program keeps a target, on the annotations its labels resolve to. */
  predicate Keeps(v: Variant, labels: Labels<Label>) {
    Value(labels, ReadyMeta) == "true" && Accepted(Resolution(labels)) && v == ModeOf(Resolution(labels))
  }

  lemma EveryAnnotationIsListed(a: Annotation)
    ensures a in ANNOTATIONS
  {
    var at := match a
      case Scrape => 0 case Scheme => 1 case Path => 2 case Port => 3 case Auth => 4 case Insecure => 5;
    assert ANNOTATIONS[at] == a;
  }

  lemma WordsDiffer()
    ensures "service-account" != "none" && "service-account" != "" && "none" != ""
    ensures "true" != "false" && "true" != "" && "false" != ""
  {
    assert |"service-account"| == 15 && |"none"| == 4 && |"true"| == 4 && |"false"| == 5 && |""| == 0;
  }

  lemma AuthDecides(v: Variant, labels: Labels<Label>)
    ensures var auth, https := Value(labels, Tmp(Auth)), Value(labels, Tmp(Scheme)) == "https";
            PassesAuth(v, labels) <==> (
              (auth == "" || auth == "none" || auth == "service-account")
              && (auth == "service-account" ==> https) && (v.serviceAccount <==> auth == "service-account"))
  {
    WordsDiffer();
  }

  lemma TlsDecides(v: Variant, labels: Labels<Label>)
    ensures var insecure, https := Value(labels, Tmp(Insecure)), Value(labels, Tmp(Scheme)) == "https";
            PassesTls(v, labels) <==> (
              (insecure == "" || insecure == "false" || (insecure == "true" && https))
              && (v.insecure <==> insecure == "true"))
  {
    WordsDiffer();
  }

  /** The `Tmp` labels are the effective annotations `m`. */
  ghost predicate Carries(labels: Labels<Label>, m: Annotations) {
    forall a: Annotation :: Value(labels, Tmp(a)) == Value(m, a)
  }

  lemma PassesIsAccepted(v: Variant, labels: Labels<Label>, m: Annotations)
    requires Carries(labels, m)
    ensures Passes(v, labels) <==> Value(labels, ReadyMeta) == "true" && Accepted(m) && v == ModeOf(m)
  {
    AuthDecides(v, labels);
    TlsDecides(v, labels);
    assert Value(labels, Tmp(Scrape)) == Value(m, Scrape) && Value(labels, Tmp(Scheme)) == Value(m, Scheme);
    assert Value(labels, Tmp(Path)) == Value(m, Path) && Value(labels, Tmp(Port)) == Value(m, Port);
    assert Value(labels, Tmp(Auth)) == Value(m, Auth) && Value(labels, Tmp(Insecure)) == Value(m, Insecure);
  }

  lemma ResolvedCarries(labels: Labels<Label>, next: Labels<Label>)
    requires Resolved(labels, next, ANNOTATIONS)
    ensures Carries(next, Resolution(labels))
  {
    forall a: Annotation ensures Value(next, Tmp(a)) == Value(Resolution(labels), a) {
      EveryAnnotationIsListed(a);
      ResolutionIs(labels, a);
    }
  }

  /** A program keeps a target exactly when the report's own tests accept its annotations, it is
      ready, and the program is the one for its authentication and TLS mode; and this is what
      the kept target looks like. So no target is kept twice. */
  lemma ProgramDecides(v: Variant, labels: Labels<Label>)
    requires Fresh(labels)
    ensures Run(Program(v), labels).Some? <==> Keeps(v, labels)
    ensures Keeps(v, labels) ==> forall l: Label :: Value(Run(Program(v), labels).value, l) == Final(labels, l)
  {
    OverridesResolve(ANNOTATIONS, labels);
    var next := Run(Overrides(ANNOTATIONS), labels).value;
    ResolvedCarries(labels, next);
    PassesIsAccepted(v, next, Resolution(labels));
    GatesDecide(v, next);
    RunProgram(v, labels, next);
    if Keeps(v, labels) {
      var s1, s2, after := RewritesEnd(next);
      forall l: Label ensures Value(after, l) == Final(labels, l) {
        FinalIs(labels, next, s1, s2, after, l);
      }
    }
  }

  lemma RunProgram(v: Variant, labels: Labels<Label>, next: Labels<Label>)
    requires Run(Overrides(ANNOTATIONS), labels) == Some(next)
    requires Run(Selection(v), next) == if Passes(v, next) then Some(next) else None
    ensures Run(Program(v), labels) == if Passes(v, next) then Run(Rewrites(), next) else None
  {
    RunTwo(Overrides(ANNOTATIONS), Selection(v), Rewrites(), labels, next);
  }

  lemma RunTwo(a: seq<Rule<Label>>, b: seq<Rule<Label>>, c: seq<Rule<Label>>, s0: Labels<Label>, s1: Labels<Label>)
    requires Run(a, s0) == Some(s1)
    ensures Run(a + b + c, s0) == match Run(b, s1) case None => None case Some(s2) => Run(c, s2)
  {
    RunAppend(a, b, s0);
    RunAppend(a + b, c, s0);
  }
}
