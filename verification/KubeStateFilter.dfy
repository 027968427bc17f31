/** The kube-state-metrics filter (pkg/agent/kubernetes_metrics_collector.go): mark, then drop. */
module KubeStateFilter {
  import opened Options
  import opened Relabel

  const MARK := "__tmp_zke_keep"

  const FAMILIES: seq<string> :=
    ["kube_pod_container_status_waiting_reason", "kube_pod_container_status_last_terminated_reason"]

  const REASONS: seq<string> :=
    [ "CrashLoopBackOff", "ImagePullBackOff", "ErrImagePull", "CreateContainerConfigError",
      "OOMKilled", "Error", "Evicted" ]

  const READY := "kube_pod_status_ready"

  function MarkRule(): Rule<string> {
    Replace(["__name__", "reason"], ";", Pairs(FAMILIES, REASONS), MARK, Text("yes"))
  }

  function DropUnmarked(): Rule<string> {
    Drop(["__name__", MARK], Pairs(FAMILIES, [""]))
  }

  function Unmark(): Rule<string> {
    LabelDrop(IsMark)
  }

  predicate IsMark(name: string) {
    name == MARK
  }

  function DropUnready(): Rule<string> {
    Drop(["__name__", "condition"], Pairs([READY], ["false", "unknown"]))
  }

  /** kubeStateMetricFilter's metric_relabel_configs. */
  function Filter(): seq<Rule<string>> {
    [MarkRule(), DropUnmarked(), Unmark(), DropUnready()]
  }

  // ---------------------------------------------------------------- what it means

  predicate IsFiltered(name: string) {
    name == "kube_pod_container_status_waiting_reason" || name == "kube_pod_container_status_last_terminated_reason"
  }

  predicate IsTrouble(reason: string) {
    || reason == "CrashLoopBackOff" || reason == "ImagePullBackOff" || reason == "ErrImagePull"
    || reason == "CreateContainerConfigError" || reason == "OOMKilled" || reason == "Error" || reason == "Evicted"
  }

  predicate IsUnready(name: string, condition: string) {
    name == "kube_pod_status_ready" && (condition == "false" || condition == "unknown")
  }

  predicate Dropped(series: Labels<string>) {
    || (IsFiltered(Value(series, "__name__")) && !IsTrouble(Value(series, "reason")))
    || IsUnready(Value(series, "__name__"), Value(series, "condition"))
  }

  predicate NoSemicolon(words: seq<string>) {
    forall w <- words :: ';' !in w
  }

  /** A joined pair can be taken apart again where the second words have no semicolon and the
      first words neither. */
  lemma PairOfJoin(name: string, value: string, firsts: seq<string>, seconds: seq<string>)
    requires NoSemicolon(firsts) && NoSemicolon(seconds)
    ensures IsPair(name + ";" + value, firsts, seconds) <==> name in firsts && value in seconds
  {
    var s := name + ";" + value;
    if f, r :| f in firsts && r in seconds && s == f + ";" + r {
      assert s[|name|] == ';';
      assert forall i :: 0 <= i < |s| && i != |f| ==> s[i] == if i < |f| then f[i] else r[i - |f| - 1];
      assert f == s[..|f|] && name == s[..|name|];
      assert r == s[|f| + 1..] && value == s[|name| + 1..];
    }
  }

  lemma FamiliesArePlain()
    ensures NoSemicolon(FAMILIES)
  {
    assert ';' !in "kube_pod_container_status_waiting_reason";
    assert ';' !in "kube_pod_container_status_last_terminated_reason";
    assert FAMILIES == ["kube_pod_container_status_waiting_reason", "kube_pod_container_status_last_terminated_reason"];
  }

  lemma ReasonsArePlain()
    ensures NoSemicolon(REASONS)
  {
  }

  lemma ConditionsArePlain()
    ensures NoSemicolon([READY]) && NoSemicolon(["false", "unknown"])
  {
  }

  lemma LabelsDiffer()
    ensures MARK != "__name__" && MARK != "reason" && MARK != "condition"
  {
    assert |MARK| == 14 && |"__name__"| == 8 && |"reason"| == 6 && |"condition"| == 9;
  }

  lemma FamiliesAreNotReady()
    ensures READY !in FAMILIES
  {
    assert |READY| == 21;
    assert |FAMILIES[0]| == 40 && |FAMILIES[1]| == 48;
  }

  predicate Marked(series: Labels<string>) {
    Value(series, "__name__") in FAMILIES && Value(series, "reason") in REASONS
  }

  lemma MarkStep(series: Labels<string>)
    ensures Step(MarkRule(), series) == Some(if Marked(series) then series[MARK := "yes"] else series)
  {
    JoinedPair(series, "__name__", "reason", ";");
    FamiliesArePlain();
    ReasonsArePlain();
    PairOfJoin(Value(series, "__name__"), Value(series, "reason"), FAMILIES, REASONS);
  }

  lemma DropStep(series: Labels<string>)
    ensures Step(DropUnmarked(), series) ==
            if Value(series, "__name__") in FAMILIES && Value(series, MARK) == "" then None else Some(series)
  {
    JoinedPair(series, "__name__", MARK, ";");
    FamiliesArePlain();
    PairOfJoin(Value(series, "__name__"), Value(series, MARK), FAMILIES, [""]);
  }

  lemma UnmarkStep(series: Labels<string>)
    ensures Step(Unmark(), series) == Some(series - {MARK})
  {
    var kept := Step(Unmark(), series).value;
    assert forall l :: l in kept <==> l in series && !IsMark(l);
    assert kept == series - {MARK};
  }

  lemma ReadyStep(series: Labels<string>)
    ensures Step(DropUnready(), series) ==
            if Value(series, "__name__") == READY && Value(series, "condition") in ["false", "unknown"]
              then None else Some(series)
  {
    JoinedPair(series, "__name__", "condition", ";");
    ConditionsArePlain();
    PairOfJoin(Value(series, "__name__"), Value(series, "condition"), [READY], ["false", "unknown"]);
  }

  lemma RunFilter(series: Labels<string>, marked: Labels<string>)
    requires Step(MarkRule(), series) == Some(marked)
    ensures Run(Filter(), series) == match Step(DropUnmarked(), marked)
                                     case None => None
                                     case Some(kept) => Step(DropUnready(), Step(Unmark(), kept).value)
  {
    assert Filter() == [MarkRule()] + ([DropUnmarked()] + ([Unmark()] + ([DropUnready()] + [])));
    RunOne(MarkRule(), [DropUnmarked()] + ([Unmark()] + ([DropUnready()] + [])), series);
    RunOne(DropUnmarked(), [Unmark()] + ([DropUnready()] + []), marked);
    var kept := Step(Unmark(), marked).value;
    RunOne(Unmark(), [DropUnready()] + [], marked);
    RunOne(DropUnready(), [], kept);
  }

  /** A series without the mark is dropped exactly when its family is filtered and its reason is
      not listed, or it reports a Pod that is not ready; any other passes with its labels as they
      were. */
  lemma FilterMeaning(series: Labels<string>)
    requires "__tmp_zke_keep" !in series
    ensures Run(Filter(), series) == if Dropped(series) then None else Some(series)
  {
    MarkStep(series);
    var marked := if Marked(series) then series[MARK := "yes"] else series;
    LabelsDiffer();
    DropStep(marked);
    RunFilter(series, marked);
    UnmarkStep(marked);
    assert marked - {MARK} == series;
    ReadyStep(series);
    FamiliesAreNotReady();
  }

  /** A series that arrives marked escapes the family filter, whatever its reason, and leaves
      without the mark. */
  lemma ArrivingMarked(series: Labels<string>)
    requires Value(series, "__tmp_zke_keep") != ""
    ensures Run(Filter(), series) ==
            if IsUnready(Value(series, "__name__"), Value(series, "condition")) then None
            else Some(series - {"__tmp_zke_keep"})
  {
    MarkStep(series);
    var marked := if Marked(series) then series[MARK := "yes"] else series;
    LabelsDiffer();
    DropStep(marked);
    RunFilter(series, marked);
    UnmarkStep(marked);
    assert marked - {MARK} == series - {MARK};
    ReadyStep(series - {MARK});
  }
}
