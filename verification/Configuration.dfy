/** What the reconciler takes from two optional ConfigMaps at the start of a pass. */
module Configuration {
  import opened Wrappers

  const GLOBAL_CONFIG_MAP := "sosreport-global-configuration"
  const DEVELOPMENT_CONFIG_MAP := "sosreport-development-configuration"

  const DEFAULT_CONCURRENCY := 1
  const DEFAULT_PVC_SIZE := "10Gi"
  const DEFAULT_IMAGE_NAME := "quay.io/akaris/sosreport-centos:0.0.2"
  const DEFAULT_COMMAND := "bash /scripts/entrypoint.sh"
  const DEFAULT_PULL_POLICY := ""

  /** The data of a ConfigMap, if it could be read. */
  type ConfigMap = Option<map<string, string>>

  /** The answer to one read of a ConfigMap. */
  datatype ConfigAnswer = ConfigAnswer(name: string, data: ConfigMap)

  /** strconv.Atoi: the number a text stands for, if any. */
  type Atoi = string -> Option<int>

  function Value(cm: ConfigMap, key: string): Option<string> {
    if cm.Some? && key in cm.value then Some(cm.value[key]) else None
  }

  function ValueOr(cm: ConfigMap, key: string, default: string): string {
    var e := Value(cm, key);
    if e.Some? then e.value else default
  }

  function Concurrency(cm: ConfigMap, atoi: Atoi): int {
    var e := Value(cm, "concurrency");
    if e.Some? && atoi(e.value).Some? then atoi(e.value).value else DEFAULT_CONCURRENCY
  }

  lemma SettingIsTheText(cm: ConfigMap, key: string, default: string)
    ensures ValueOr(cm, key, default) == if cm.Some? && key in cm.value then cm.value[key] else default
  {
  }

  /** The number the ConfigMap gives, whatever its sign; 1 when there is none, or none that can be read. */
  lemma ConcurrencyIsTheNumber(cm: ConfigMap, atoi: Atoi)
    ensures
      if cm.Some? && "concurrency" in cm.value && atoi(cm.value["concurrency"]).Some?
      then Concurrency(cm, atoi) == atoi(cm.value["concurrency"]).value
      else Concurrency(cm, atoi) == 1
  {
  }

  predicate IsPullPolicy(policy: string) {
    policy == "Always" || policy == "Never" || policy == "IfNotPresent"
  }

  function PullPolicy(cm: ConfigMap): string {
    var e := Value(cm, "image-pull-policy");
    if e.Some? && IsPullPolicy(e.value) then e.value else DEFAULT_PULL_POLICY
  }

  /** The largest concurrency among the answers, 0 if none is positive. */
  function LargestConcurrency(answers: seq<ConfigAnswer>, atoi: Atoi): nat {
    if answers == [] then 0
    else
      var n := |answers| - 1;
      var before := LargestConcurrency(answers[..n], atoi);
      var said := if answers[n].name == GLOBAL_CONFIG_MAP then Concurrency(answers[n].data, atoi) else 0;
      if said > before then said else before
  }

  lemma OneMoreAnswer(answers: seq<ConfigAnswer>, a: ConfigAnswer, atoi: Atoi)
    ensures LargestConcurrency(answers, atoi) <= LargestConcurrency(answers + [a], atoi)
    ensures a.name == GLOBAL_CONFIG_MAP ==> Concurrency(a.data, atoi) <= LargestConcurrency(answers + [a], atoi)
  {
    assert (answers + [a])[..|answers|] == answers;
  }

  /** More answers never lower it, and it is at least what each of them says. */
  lemma {:induction false} LargestConcurrencyGrows(answers: seq<ConfigAnswer>, more: seq<ConfigAnswer>, atoi: Atoi)
    ensures LargestConcurrency(answers, atoi) <= LargestConcurrency(answers + more, atoi)
    ensures forall i | 0 <= i < |more| && more[i].name == GLOBAL_CONFIG_MAP ::
      Concurrency(more[i].data, atoi) <= LargestConcurrency(answers + more, atoi)
    decreases |more|
  {
    if more == [] {
      assert answers + more == answers;
    } else {
      var before, a := more[..|more| - 1], more[|more| - 1];
      LargestConcurrencyGrows(answers, before, atoi);
      OneMoreAnswer(answers + before, a, atoi);
      assert answers + more == answers + before + [a];
      assert forall i | 0 <= i < |before| :: more[i] == before[i];
    }
  }

  /** It is the largest of what the answers of the global ConfigMap say: none says more, and some answer says it. */
  lemma {:induction false} LargestIsSaid(answers: seq<ConfigAnswer>, atoi: Atoi)
    ensures forall i | 0 <= i < |answers| && answers[i].name == "sosreport-global-configuration" ::
      Concurrency(answers[i].data, atoi) <= LargestConcurrency(answers, atoi)
    ensures LargestConcurrency(answers, atoi) > 0 ==>
      exists i | 0 <= i < |answers| && answers[i].name == "sosreport-global-configuration" ::
        Concurrency(answers[i].data, atoi) == LargestConcurrency(answers, atoi)
  {
    if answers != [] {
      var before, n := answers[..|answers| - 1], |answers| - 1;
      LargestIsSaid(before, atoi);
      assert forall i | 0 <= i < n :: answers[i] == before[i];
      if LargestConcurrency(before, atoi) == LargestConcurrency(answers, atoi) > 0 {
        var i :|
          && 0 <= i < n && before[i].name == GLOBAL_CONFIG_MAP
          && Concurrency(before[i].data, atoi) == LargestConcurrency(before, atoi);
        assert answers[i] == before[i];
      }
    }
  }
}
