/**
 The reconciler itself. Every method that talks to the API server says which protocol events it went
 through: `es` are those events, and the object and the server end up showing `Exec(st, es)`. What the
 other modules prove about all runs of the protocol therefore holds of this program, for every CR at once.
 */
module Controller {
  import opened Wrappers
  import opened Codec
  import opened Naming
  import opened Protocol
  import opened Tolerations
  import opened Configuration
  import opened Cluster

  /** Whether a Job has ended: it has a true Complete or Failed condition. */
  method IsJobDone(conditions: seq<Condition>) returns (done: bool)
    ensures done <==> exists i | 0 <= i < |conditions| ::
      conditions[i].status == "True" && (conditions[i].kind == "Complete" || conditions[i].kind == "Failed")
    ensures done <==> Done(conditions)
  {
    DoneMeansEnded(conditions);
    for i := 0 to |conditions|
      invariant forall k | 0 <= k < i :: !EndsJob(conditions[k])
    {
      if (conditions[i].kind == "Complete" || conditions[i].kind == "Failed") && conditions[i].status == "True" {
        return true;
      }
    }
    return false;
  }

  /** The first owner reference that is a controller. */
  method ObjectGetController(owners: seq<OwnerReference>) returns (owner: Option<OwnerReference>)
    ensures owner == ControllerOf(owners)
    ensures owner.None? <==> forall i | 0 <= i < |owners| :: !owners[i].controller
    ensures owner.Some? ==> exists k | 0 <= k < |owners| ::
      owners[k] == owner.value && owner.value.controller && forall i | 0 <= i < k :: !owners[i].controller
  {
    var i := 0;
    while i < |owners|
      invariant i <= |owners| && ControllerOf(owners) == ControllerOf(owners[i..])
      invariant forall k | 0 <= k < i :: !owners[k].controller
    {
      if owners[i].controller {
        return Some(owners[i]);
      }
      i := i + 1;
    }
    assert owners[i..] == [];
    return None;
  }

  /** A pass asks for both ConfigMaps, and for one of them twice. */
  ghost predicate ConfigurationRead(before: seq<ConfigAnswer>, after: seq<ConfigAnswer>, global: ConfigMap) {
    && |after| == |before| + 3 && after[..|before|] == before
    && after[|before| + 1] == ConfigAnswer(GLOBAL_CONFIG_MAP, global)
  }

  class Reconciler {
    const api: ApiServer
    const matches: Match
    const atoi: Atoi

    var runList: set<UID>
    var jobToRunList: map<UID, NodeSet>
    var jobRunningList: map<UID, NodeSet>
    var imageName: string
    var sosreportCommand: string
    var sosreportConcurrency: int
    var pvcStorageClass: string
    var pvcCapacity: string
    var imagePullPolicy: string
    var debug: bool

    constructor (api: ApiServer, matches: Match, atoi: Atoi)
      ensures this.api == api && this.matches == matches && this.atoi == atoi
      ensures forall u: UID :: MemoryOf(u) == FORGOTTEN
    {
      this.api, this.matches, this.atoi := api, matches, atoi;
      runList, jobToRunList, jobRunningList := {}, map[], map[];
      imageName, sosreportCommand, sosreportConcurrency := "", "", 0;
      pvcStorageClass, pvcCapacity, imagePullPolicy, debug := "", "", "", false;
    }

    /** The three records of one Sosreport. */
    function MemoryOf(u: UID): Memory
      reads this`runList, this`jobToRunList, this`jobRunningList
    {
      Memory(u in runList,
             if u in jobToRunList then Some(jobToRunList[u]) else None,
             if u in jobRunningList then Some(jobRunningList[u]) else None)
    }

    /** For the CR u, this object and the server are in protocol state st. */
    ghost predicate Follows(u: UID, st: State)
      reads this, api
    {
      api.Shows(u, st) && st.mem == MemoryOf(u)
    }

    twostate predicate OthersRemembered(u: UID)
      reads this
    {
      forall v: UID | v != u :: MemoryOf(v) == old(MemoryOf(v))
    }

    /** A panic ends the process; its successor starts with empty records. */
    method Die()
      modifies this`runList, this`jobToRunList, this`jobRunningList
      ensures forall u: UID :: MemoryOf(u) == FORGOTTEN
    {
      runList, jobToRunList, jobRunningList := {}, map[], map[];
    }

    /** Whether debugging is asked for; a ConfigMap that cannot be read asks for nothing. */
    method AskForDebug() returns (on: bool, ghost answer: ConfigMap)
      modifies api`configs
      ensures api.configs == old(api.configs) + [ConfigAnswer(DEVELOPMENT_CONFIG_MAP, answer)]
      ensures api.configs == old(api.configs) + [ConfigAnswer("sosreport-development-configuration", answer)]
      ensures on == (Value(answer, "debug") == Some("true"))
      ensures on <==> answer.Some? && "debug" in answer.value && answer.value["debug"] == "true"
    {
      var cm := api.GetConfigMap(DEVELOPMENT_CONFIG_MAP);
      on, answer := false, cm;
      if cm.Some? && "debug" in cm.value {
        on := cm.value["debug"] == "true";
      }
    }

    method AskForGlobal() returns (concurrency: int, storageClass: string, capacity: string, ghost answer: ConfigMap)
      modifies api`configs
      ensures api.configs == old(api.configs) + [ConfigAnswer(GLOBAL_CONFIG_MAP, answer)]
      ensures api.configs == old(api.configs) + [ConfigAnswer("sosreport-global-configuration", answer)]
      ensures concurrency == Concurrency(answer, atoi)
      ensures concurrency ==
        if answer.Some? && "concurrency" in answer.value && atoi(answer.value["concurrency"]).Some?
        then atoi(answer.value["concurrency"]).value else 1
      ensures storageClass == ValueOr(answer, "pvc-storage-class", "")
      ensures storageClass ==
        if answer.Some? && "pvc-storage-class" in answer.value then answer.value["pvc-storage-class"] else ""
      ensures capacity == ValueOr(answer, "pvc-capacity", DEFAULT_PVC_SIZE)
      ensures capacity ==
        if answer.Some? && "pvc-capacity" in answer.value then answer.value["pvc-capacity"] else "10Gi"
    {
      concurrency, storageClass, capacity := DEFAULT_CONCURRENCY, "", DEFAULT_PVC_SIZE;
      var cm := api.GetConfigMap(GLOBAL_CONFIG_MAP);
      answer := cm;
      if cm.Some? {
        if "concurrency" in cm.value {
          var parsed := atoi(cm.value["concurrency"]);
          if parsed.Some? {
            concurrency := parsed.value;
          }
        }
        if "pvc-storage-class" in cm.value {
          storageClass := cm.value["pvc-storage-class"];
        }
        if "pvc-capacity" in cm.value {
          capacity := cm.value["pvc-capacity"];
        }
      }
    }

    /** Every field it sets depends on the two answers alone: nothing of an earlier pass survives. */
    method SetGlobalConfiguration() returns (ghost development: ConfigMap, ghost global: ConfigMap)
      modifies this`sosreportConcurrency, this`pvcStorageClass, this`pvcCapacity, this`debug, api`configs
      ensures api.configs == old(api.configs) +
        [ConfigAnswer(DEVELOPMENT_CONFIG_MAP, development), ConfigAnswer(GLOBAL_CONFIG_MAP, global)]
      ensures debug == (Value(development, "debug") == Some("true"))
      ensures sosreportConcurrency == Concurrency(global, atoi)
      ensures sosreportConcurrency ==
        if global.Some? && "concurrency" in global.value && atoi(global.value["concurrency"]).Some?
        then atoi(global.value["concurrency"]).value else 1
      ensures pvcStorageClass == ValueOr(global, "pvc-storage-class", "")
      ensures pvcCapacity == ValueOr(global, "pvc-capacity", DEFAULT_PVC_SIZE)
    {
      var on, concurrency, storageClass, capacity;
      on, development := AskForDebug();
      concurrency, storageClass, capacity, global := AskForGlobal();
      debug, sosreportConcurrency, pvcStorageClass, pvcCapacity := on, concurrency, storageClass, capacity;
    }

    method SetDevelopmentConfiguration() returns (ghost development: ConfigMap)
      modifies this`imageName, this`sosreportCommand, this`imagePullPolicy, api`configs
      ensures api.configs == old(api.configs) + [ConfigAnswer(DEVELOPMENT_CONFIG_MAP, development)]
      ensures imageName == ValueOr(development, "sosreport-image", DEFAULT_IMAGE_NAME)
      ensures sosreportCommand == ValueOr(development, "sosreport-command", DEFAULT_COMMAND)
      ensures imagePullPolicy == PullPolicy(development)
      ensures imageName == (
        if development.Some? && "sosreport-image" in development.value then development.value["sosreport-image"]
        else "quay.io/akaris/sosreport-centos:0.0.2")
      ensures sosreportCommand == (
        if development.Some? && "sosreport-command" in development.value then development.value["sosreport-command"]
        else "bash /scripts/entrypoint.sh")
      ensures imagePullPolicy in {"", "Always", "Never", "IfNotPresent"}
      ensures
        development.Some? && "image-pull-policy" in development.value ==>
          (development.value["image-pull-policy"] in {"Always", "Never", "IfNotPresent"} ==>
            imagePullPolicy == development.value["image-pull-policy"])
      ensures imagePullPolicy != "" ==>
        && development.Some? && "image-pull-policy" in development.value
        && imagePullPolicy == development.value["image-pull-policy"]
    {
      var image, command, policy := DEFAULT_IMAGE_NAME, DEFAULT_COMMAND, DEFAULT_PULL_POLICY;
      var cm := api.GetConfigMap(DEVELOPMENT_CONFIG_MAP);
      development := cm;
      if cm.Some? {
        if "sosreport-image" in cm.value {
          image := cm.value["sosreport-image"];
        }
        if "sosreport-command" in cm.value {
          command := cm.value["sosreport-command"];
        }
        if "image-pull-policy" in cm.value {
          var wanted := cm.value["image-pull-policy"];
          if wanted == "Always" || wanted == "Never" || wanted == "IfNotPresent" {
            policy := wanted;
          }
        }
      }
      imageName, sosreportCommand, imagePullPolicy := image, command, policy;
    }

    /** Both ConfigMaps are read anew in every pass. */
    method ReadConfiguration() returns (ghost development: ConfigMap, ghost global: ConfigMap, ghost later: ConfigMap)
      modifies this`sosreportConcurrency, this`pvcStorageClass, this`pvcCapacity, this`debug, api`configs
      modifies this`imageName, this`sosreportCommand, this`imagePullPolicy
      ensures api.configs == old(api.configs) + [ConfigAnswer(DEVELOPMENT_CONFIG_MAP, development),
        ConfigAnswer(GLOBAL_CONFIG_MAP, global), ConfigAnswer(DEVELOPMENT_CONFIG_MAP, later)]
      ensures debug == (Value(development, "debug") == Some("true"))
      ensures sosreportConcurrency == Concurrency(global, atoi)
      ensures sosreportConcurrency ==
        if global.Some? && "concurrency" in global.value && atoi(global.value["concurrency"]).Some?
        then atoi(global.value["concurrency"]).value else 1
      ensures pvcStorageClass == ValueOr(global, "pvc-storage-class", "")
      ensures pvcCapacity == ValueOr(global, "pvc-capacity", DEFAULT_PVC_SIZE)
      ensures imageName == ValueOr(later, "sosreport-image", DEFAULT_IMAGE_NAME)
      ensures sosreportCommand == ValueOr(later, "sosreport-command", DEFAULT_COMMAND)
      ensures imagePullPolicy == PullPolicy(later)
      ensures ConfigurationRead(old(api.configs), api.configs, global)
    {
      development, global := SetGlobalConfiguration();
      later := SetDevelopmentConfiguration();
      assert api.configs == old(api.configs) +
        [ConfigAnswer(DEVELOPMENT_CONFIG_MAP, development), ConfigAnswer(GLOBAL_CONFIG_MAP, global),
         ConfigAnswer(DEVELOPMENT_CONFIG_MAP, later)];
    }

    /** The Jobs controlled by this Sosreport, in the order listed. */
    method GetSosreportJobs(s: Sosreport) returns (ok: bool, own: seq<BatchJob>, ghost listed: seq<BatchJob>)
      modifies api`log
      ensures Snapshot(listed, api.jobs)
      ensures api.log == old(api.log) + [JobsListed(JobAnswerOf(ok, listed, s.uid))]
      ensures ok ==> own == OwnJobs(listed, s.uid)
      ensures ok ==> forall j :: j in own <==> j in listed && OwnedBy(j.owners, s.uid)
    {
      var items;
      ok, items := api.ListJobs(s.uid);
      listed, own := items, [];
      if !ok {
        return;
      }
      for i := 0 to |items|
        invariant own == OwnJobs(items[..i], s.uid)
        invariant api.log == old(api.log) + [JobsListed(JobAnswerOf(ok, listed, s.uid))]
      {
        assert items[..i + 1][..i] == items[..i];
        var owner := ObjectGetController(items[i].owners);
        if owner.None? {
          continue;
        }
        if owner.value.kind == "Sosreport" && owner.value.uid == s.uid {
          own := own + [items[i]];
        }
      }
      assert items[..|items|] == items;
      OwnJobsAreOwned(items, api.jobs, s.uid);
    }

    /** Each entry on its own: present ones stay, a missing one becomes what its annotation says. A text that cannot be
        read ends the recovery, the to-run text before the running text. */
    method SynchronizeJobRunningCache(s: Sosreport) returns (err: bool)
      modifies this`jobToRunList, this`jobRunningList
      ensures forall u: UID | u in old(jobToRunList) :: u in jobToRunList && jobToRunList[u] == old(jobToRunList[u])
      ensures forall u: UID | u in old(jobRunningList) ::
        u in jobRunningList && jobRunningList[u] == old(jobRunningList[u])
      ensures !err && s.uid !in old(jobToRunList) ==>
        if s.annotations.Some? && "job-to-run-list" in s.annotations.value
        then s.uid in jobToRunList && Parse(s.annotations.value["job-to-run-list"]) == Some(jobToRunList[s.uid])
        else s.uid !in jobToRunList
      ensures !err && s.uid !in old(jobRunningList) ==>
        if s.annotations.Some? && "job-running-list" in s.annotations.value
        then s.uid in jobRunningList && Parse(s.annotations.value["job-running-list"]) == Some(jobRunningList[s.uid])
        else s.uid !in jobRunningList
      ensures err <==>
        || (s.uid !in old(jobToRunList) && Unreadable(s.annotations, "job-to-run-list"))
        || (s.uid !in old(jobRunningList) && Unreadable(s.annotations, "job-running-list"))
      ensures MemoryOf(s.uid) == Recovered(old(MemoryOf(s.uid)), s.AsCopy().cr)
      ensures OthersRemembered(s.uid)
    {
      ParsedIsParse(s.annotations, TO_RUN);
      ParsedIsParse(s.annotations, RUNNING);
      if s.uid !in jobToRunList {
        if s.annotations.Some? && TO_RUN in s.annotations.value {
          var data := Parse(s.annotations.value[TO_RUN]);
          if data.None? {
            return true;
          }
          jobToRunList := jobToRunList[s.uid := data.value];
        }
      }
      if s.uid !in jobRunningList {
        if s.annotations.Some? && RUNNING in s.annotations.value {
          var data := Parse(s.annotations.value[RUNNING]);
          if data.None? {
            return true;
          }
          jobRunningList := jobRunningList[s.uid := data.value];
        }
      }
      return false;
    }

    /** Whether both entries are missing or empty. */
    method IsSosreportJobsDone(s: Sosreport) returns (done: bool)
      ensures done <==> QueueEmpty(MemoryOf(s.uid).toRun) && QueueEmpty(MemoryOf(s.uid).running)
    {
      done :=
        && (s.uid !in jobToRunList || |jobToRunList[s.uid].Elems()| == 0)
        && (s.uid !in jobRunningList || |jobRunningList[s.uid].Elems()| == 0);
    }

    /** Visits the names of an annotation in some order. */
    method NamesOf(s: Sosreport, key: string) returns (names: seq<NodeName>)
      ensures Enumerates(names, Elements(AnnotationOf(s.annotations, key).Parsed()))
    {
      names := [];
      if s.annotations.Some? && key in s.annotations.value {
        var data := Parse(s.annotations.value[key]);
        if data.Some? {
          var todo := data.value.Elems();
          while todo != {}
            invariant todo !! AsSet(names) && todo + AsSet(names) == data.value.Elems() && NoRepeats(names)
          {
            var n :| n in todo;
            assert AsSet(names + [n]) == AsSet(names) + {n};
            names, todo := names + [n], todo - {n};
          }
        }
      }
    }

    method SynchronizeRunningStatus(s: Sosreport)
      modifies s`status
      ensures s.status == old(s.status).(running := s.status.running, outstanding := s.status.outstanding)
      ensures Enumerates(s.status.running, Elements(s.AsCopy().cr.running.Parsed()))
      ensures Enumerates(s.status.outstanding, Elements(s.AsCopy().cr.toRun.Parsed()))
    {
      var running := NamesOf(s, RUNNING);
      var outstanding := NamesOf(s, TO_RUN);
      s.status := s.status.(running := running, outstanding := outstanding);
    }

    method EligibleNodeNames(s: Sosreport, nodes: seq<Node>) returns (names: set<NodeName>)
      ensures names == EligibleNames(s.tolerations, nodes, matches)
      ensures forall n: NodeName :: n in names <==>
        exists i | 0 <= i < |nodes| ::
          && AllTolerated(s.tolerations, nodes[i].taints, matches)
          && n == if "kubernetes.io/hostname" in nodes[i].labels then nodes[i].labels["kubernetes.io/hostname"] else ""
    {
      names := {};
      for i := 0 to |nodes|
        invariant names == EligibleNames(s.tolerations, nodes[..i], matches)
      {
        OneMoreNode(s.tolerations, nodes, matches, i);
        var tolerated := Tolerates(s.tolerations, nodes[i], matches);
        if tolerated {
          names := names + {HostName(nodes[i])};
        }
      }
      assert nodes[..|nodes|] == nodes;
    }

    /** Puts the text of a set under a key, making the annotation map first where it is nil. */
    method Annotate(s: Sosreport, key: string, m: NodeSet)
      requires key == TO_RUN || key == RUNNING
      modifies s`annotations
      ensures var c := old(s.AsCopy()).cr;
        s.AsCopy() == old(s.AsCopy()).(cr :=
          if key == TO_RUN then c.(annotated := true, toRun := Printed(m))
          else c.(annotated := true, running := Printed(m)))
      ensures s.annotations ==
        Some((if old(s.annotations).Some? then old(s.annotations).value else map[])[key := Print(m)])
    {
      if s.annotations.None? {
        s.annotations := Some(map[]);
      }
      AnnotationWritten(s.annotations, key, m);
      s.annotations := Some(s.annotations.value[key := Print(m)]);
    }

    /** Writes the annotations; whatever the answer, the pass goes on. */
    method Update(s: Sosreport, ghost st: State) returns (ghost es: seq<Event>, ghost st': State)
      requires st.pass.WritingSchedule? || st.pass.WritingDequeue? || st.pass.WritingQueues?
      requires Follows(s.uid, st) && st.pass.copy == s.AsCopy()
      modifies api`crs, api`log, s
      ensures st' == Exec(st, es) && api.log == old(api.log) + Calls(es) && Inside(es)
      ensures Follows(s.uid, st') && api.OthersKept(s.uid) && st'.mem == st.mem
      ensures st'.pass == PassAfterUpdate(st, s.AsCopy())
      ensures |es| == 1 && es[0].Written? && s.annotations == old(s.annotations)
    {
      ghost var answer := api.Update(s, st);
      FirstEvent(st, Written(answer));
      AfterUpdate(st, answer, s.AsCopy());
      es, st' := [Written(answer)], WrittenStep(st, answer);
    }

    /** Writes the status; whatever the answer, the pass is over. */
    method UpdateStatus(s: Sosreport, ghost st: State) returns (ghost es: seq<Event>, ghost st': State)
      requires st.pass.WritingScheduled? || st.pass.WritingStatus?
      requires Follows(s.uid, st) && st.pass.copy == s.AsCopy()
      modifies api`crs, api`log, s
      ensures st' == Exec(st, es) && api.log == old(api.log) + Calls(es) && Inside(es)
      ensures Follows(s.uid, st') && api.OthersKept(s.uid) && st'.pass == Idle && |es| == 1
    {
      ghost var answer := api.UpdateStatus(s, st);
      StatusWritten(st, answer);
      es, st' := [Written(answer)], WrittenStep(st, answer);
    }

    /** The to-run entry and its annotation get the scheduled names. */
    method RecordToRun(s: Sosreport, names: set<NodeName>, ghost st: State)
      requires Follows(s.uid, st) && st.pass == ListingNodes(s.AsCopy())
      modifies this`jobToRunList, s`annotations
      ensures var st' := NodesListedStep(st, Eligible(names));
        Follows(s.uid, st') && st'.pass == WritingSchedule(s.AsCopy())
      ensures OthersRemembered(s.uid)
    {
      jobToRunList := jobToRunList[s.uid := Names(names)];
      Annotate(s, TO_RUN, Names(names));
    }

    method ScheduleOnNodes(s: Sosreport, nodes: seq<Node>, ghost st: State)
      returns (ghost es: seq<Event>, ghost st': State)
      requires Follows(s.uid, st) && st.pass == ListingNodes(s.AsCopy())
      modifies this`jobToRunList, api`crs, api`log, s
      ensures st' == Exec(NodesListedStep(st, Eligible(EligibleNames(s.tolerations, nodes, matches))), es)
      ensures api.log == old(api.log) + Calls(es) && Inside(es)
      ensures Follows(s.uid, st') && api.OthersKept(s.uid) && OthersRemembered(s.uid)
      ensures st'.pass == WritingScheduled(WithProgress(s.AsCopy(), true)) && |es| == 1
    {
      var names := EligibleNodeNames(s, nodes);
      RecordToRun(s, names, st);
      es, st' := Update(s, NodesListedStep(st, Eligible(names)));
    }

    method ScheduleSosreportJobs(s: Sosreport, ghost st: State)
      returns (inProgress: bool, err: bool, ghost es: seq<Event>, ghost st': State)
      requires Follows(s.uid, st) && st.pass == ListingNodes(s.AsCopy())
      modifies this`jobToRunList, api`crs, api`log, s
      ensures st' == Exec(st, es) && api.log == old(api.log) + Calls(es) && Inside(es)
      ensures Follows(s.uid, st') && api.OthersKept(s.uid) && OthersRemembered(s.uid)
      ensures err ==> st'.pass == Idle
      ensures !err ==> st'.pass == WritingScheduled(WithProgress(s.AsCopy(), inProgress))
      ensures es != [] && es[0].NodesListed?
      ensures (err <==> es[0].nodes.NodeListFailed?) && (inProgress <==> es[0].nodes.Eligible?)
      ensures |es| == if inProgress then 2 else 1
    {
      var ok, nodes := api.ListNodes(s.tolerations, matches);
      ghost var answer := NodeAnswerOf(ok, nodes, s.tolerations, matches);
      es, st' := [NodesListed(answer)], NodesListedStep(st, answer);
      FirstEvent(st, NodesListed(answer));
      if !ok {
        return false, true, es, st';
      }
      if |nodes| == 0 {
        return false, false, es, st';
      }
      ghost var fs, st2 := ScheduleOnNodes(s, nodes, st);
      MoreEvents(st, es, fs, old(api.log));
      return true, false, es + fs, st2;
    }

    // ---------- dequeue ----------

    /** Deletes the nodes of done Jobs from the running entry. */
    method ForgetDone(s: Sosreport, own: seq<BatchJob>)
      modifies this`jobRunningList
      ensures MemoryOf(s.uid) == old(MemoryOf(s.uid)).(running := Without(old(MemoryOf(s.uid)).running, DoneNodes(own)))
      ensures OthersRemembered(s.uid)
      ensures forall n :: n in Elements(MemoryOf(s.uid).running) <==>
        n in old(Elements(MemoryOf(s.uid).running)) &&
        !exists i, k | 0 <= i < |own| && 0 <= k < |own[i].conditions| ::
          && own[i].nodeName == n && own[i].conditions[k].status == "True"
          && (own[i].conditions[k].kind == "Complete" || own[i].conditions[k].kind == "Failed")
    {
      ghost var was := MemoryOf(s.uid);
      WithoutNothing(was.running);
      assert DoneNodes(own[..0]) == {};
      for i := 0 to |own|
        invariant MemoryOf(s.uid) == was.(running := Without(was.running, DoneNodes(own[..i])))
        invariant OthersRemembered(s.uid)
      {
        OneMoreDone(own, i);
        WithoutOneMore(was.running, DoneNodes(own[..i]), own[i].nodeName);
        assert DoneNodes(own[..i]) + {} == DoneNodes(own[..i]);
        var done := IsJobDone(own[i].conditions);
        if done {
          if s.uid in jobRunningList && own[i].nodeName in jobRunningList[s.uid].Elems() {
            jobRunningList := jobRunningList[s.uid := Names(jobRunningList[s.uid].Elems() - {own[i].nodeName})];
          }
        }
      }
      assert own[..|own|] == own;
      forall n { DoneNodesEnded(own, n); }
    }

    /** Brings an annotation up to date and says whether its text changed. */
    method Refresh(s: Sosreport, key: string, m: NodeSet) returns (changed: bool)
      requires key == TO_RUN || key == RUNNING
      requires s.annotations.Some?
      modifies s`annotations
      ensures s.annotations.Some?
      ensures var c := old(s.AsCopy()).cr;
        && changed == ((if key == TO_RUN then c.toRun else c.running) != Printed(m))
        && s.AsCopy() == old(s.AsCopy()).(cr :=
            if key == TO_RUN then c.(toRun := Printed(m)) else c.(running := Printed(m)))
      ensures changed <==> s.annotations != old(s.annotations)
      ensures key in s.annotations.value && s.annotations.value[key] == Print(m)
      ensures forall other | other != key && other in old(s.annotations).value ::
        other in s.annotations.value && s.annotations.value[other] == old(s.annotations).value[other]
    {
      TextsCompareSets(s.annotations, key, m);
      changed := Lookup(s.annotations, key) != Print(m);
      if changed {
        Annotate(s, key, m);
      }
    }

    /** Makes the annotation map where it is nil. */
    method MakeAnnotations(s: Sosreport)
      modifies s`annotations
      ensures s.annotations == if old(s.annotations).None? then Some(map[]) else old(s.annotations)
      ensures s.AsCopy() == old(s.AsCopy()).(cr := old(s.AsCopy()).cr.(annotated := true))
    {
      if s.annotations.None? {
        s.annotations := Some(map[]);
      }
    }

    method RefreshRunning(s: Sosreport) returns (changed: bool)
      modifies s`annotations
      ensures s.annotations.Some?
      ensures var text, c := Printed(Entry(MemoryOf(s.uid).running)), old(s.AsCopy());
        changed == (c.cr.running != text) && s.AsCopy() == c.(cr := c.cr.(annotated := true, running := text))
      ensures changed <==> s.annotations != old(s.annotations)
    {
      MakeAnnotations(s);
      changed := Refresh(s, RUNNING, if s.uid in jobRunningList then jobRunningList[s.uid] else Nil);
    }

    /** With the done nodes gone from the running entry, brings its annotation up to date. */
    method AnnotateRunning(s: Sosreport, ghost nodes: set<NodeName>, ghost st: State) returns (changed: bool)
      requires api.Shows(s.uid, st) && st.pass == ListingJobs(s.AsCopy(), sosreportConcurrency)
      requires MemoryOf(s.uid) == st.mem.(running := Without(st.mem.running, nodes))
      modifies s`annotations
      ensures s.annotations.Some?
      ensures var st' := JobsListedStep(st, DoneSeen(nodes));
        && Follows(s.uid, st')
        && st'.pass == AfterAnnotating(st', s.AsCopy(), sosreportConcurrency, changed)
      ensures changed <==> s.annotations != old(s.annotations)
    {
      changed := RefreshRunning(s);
    }

    /** Takes the done Jobs out of the running entry and brings its annotation up to date. */
    method RecordRunning(s: Sosreport, own: seq<BatchJob>, ghost st: State) returns (changed: bool)
      requires Follows(s.uid, st) && st.pass == ListingJobs(s.AsCopy(), sosreportConcurrency)
      modifies this`jobRunningList, s`annotations
      ensures OthersRemembered(s.uid) && s.annotations.Some?
      ensures var st' := JobsListedStep(st, DoneSeen(DoneNodes(own)));
        && Follows(s.uid, st')
        && st'.pass == AfterAnnotating(st', s.AsCopy(), sosreportConcurrency, changed)
      ensures changed <==> s.annotations != old(s.annotations)
    {
      ForgetDone(s, own);
      changed := AnnotateRunning(s, DoneNodes(own), st);
    }

    method WriteRunning(s: Sosreport, changed: bool, ghost st: State) returns (ghost es: seq<Event>, ghost st': State)
      requires Follows(s.uid, st) && s.annotations.Some?
      requires st.pass == AfterAnnotating(st, s.AsCopy(), sosreportConcurrency, changed)
      modifies api`crs, api`log, s
      ensures st' == Exec(st, es) && api.log == old(api.log) + Calls(es) && Inside(es)
      ensures api.OthersKept(s.uid) && Follows(s.uid, st')
      ensures st'.pass == LoopHead(st', s.AsCopy(), sosreportConcurrency) && st'.mem == st.mem
      ensures |es| == (if changed then 1 else 0) && s.annotations == old(s.annotations)
    {
      if !changed {
        return [], st;
      }
      es, st' := Update(s, st);
    }

    method StoreRunning(s: Sosreport, own: seq<BatchJob>, ghost st: State, ghost st1: State)
      returns (ghost es: seq<Event>, ghost st': State)
      requires Follows(s.uid, st) && st.pass == ListingJobs(s.AsCopy(), sosreportConcurrency)
      requires st1 == JobsListedStep(st, DoneSeen(DoneNodes(own)))
      modifies this`jobRunningList, api`crs, api`log, s
      ensures st'.mem == st1.mem
      ensures st' == Exec(st1, es) && api.log == old(api.log) + Calls(es) && Inside(es)
      ensures api.OthersKept(s.uid) && OthersRemembered(s.uid) && Follows(s.uid, st')
      ensures st'.pass == LoopHead(st', s.AsCopy(), sosreportConcurrency) && s.annotations.Some?
      ensures |es| == if s.annotations != old(s.annotations) then 1 else 0
    {
      var changed := RecordRunning(s, own, st);
      es, st' := WriteRunning(s, changed, st1);
    }

    /** The list as the protocol's answer: every node it shows done is done. */
    method ListForDequeue(s: Sosreport, ghost st: State) returns (ok: bool, own: seq<BatchJob>, ghost answer: JobAnswer)
      requires api.Shows(s.uid, st) && st.pass.ListingJobs?
      modifies api`log
      ensures api.log == old(api.log) + [JobsListed(answer)] && Enabled(st, JobsListed(answer))
      ensures answer == if ok then DoneSeen(DoneNodes(own)) else JobListFailed
    {
      ghost var listed;
      ok, own, listed := GetSosreportJobs(s);
      answer := JobAnswerOf(ok, listed, s.uid);
      SeenJobsAreDone(api.jobs, st, listed, s.uid);
    }

    /** What follows the answer to the list; after an error nothing does. */
    method RunningAfterList(s: Sosreport, ok: bool, own: seq<BatchJob>, ghost answer: JobAnswer, ghost st: State)
      returns (ghost es: seq<Event>, ghost st': State)
      requires Follows(s.uid, st) && st.pass == ListingJobs(s.AsCopy(), sosreportConcurrency)
      requires answer == if ok then DoneSeen(DoneNodes(own)) else JobListFailed
      modifies this`jobRunningList, api`crs, api`log, s
      ensures st' == Exec(JobsListedStep(st, answer), es) && api.log == old(api.log) + Calls(es) && Inside(es)
      ensures Follows(s.uid, st') && api.OthersKept(s.uid) && OthersRemembered(s.uid)
      ensures st'.pass == LoopHead(st', s.AsCopy(), sosreportConcurrency) && st'.mem == AfterList(st.mem, answer)
      ensures s.annotations.None? <==> !ok && old(s.annotations).None?
      ensures |es| == if s.annotations != old(s.annotations) then 1 else 0
    {
      es, st' := [], JobsListedStep(st, answer);
      if ok {
        es, st' := StoreRunning(s, own, st, st');
      }
    }

    method DequeueSosreportJobsDone(s: Sosreport, ghost st: State)
      returns (err: bool, ghost answer: JobAnswer, ghost es: seq<Event>, ghost st': State)
      requires Follows(s.uid, st) && st.pass == ListingJobs(s.AsCopy(), sosreportConcurrency)
      modifies this`jobRunningList, api`crs, api`log, s
      ensures st' == Exec(st, es) && api.log == old(api.log) + Calls(es) && Inside(es)
      ensures Follows(s.uid, st') && api.OthersKept(s.uid) && OthersRemembered(s.uid)
      ensures st'.pass == LoopHead(st', s.AsCopy(), sosreportConcurrency)
      ensures es != [] && es[0] == JobsListed(answer) && (err <==> answer.JobListFailed?)
      ensures st'.mem == AfterList(st.mem, answer)
      ensures s.annotations.None? <==> answer.JobListFailed? && old(s.annotations).None?
      ensures |es| == if s.annotations != old(s.annotations) then 2 else 1
    {
      var ok, own;
      ok, own, answer := ListForDequeue(s, st);
      ghost var fs;
      fs, st' := RunningAfterList(s, ok, own, answer, st);
      FirstAndMore(st, JobsListed(answer), fs, old(api.log));
      err, es := !ok, [JobsListed(answer)] + fs;
    }

    // ---------- run ----------

    /** Asks for the claim and the Job of one node; a name that cannot be built panics before any call. */
    method StartNode(s: Sosreport, node: NodeName, stamp: Stamp, ghost st: State)
      returns (started: bool, panicked: bool, ghost es: seq<Event>, ghost st': State)
      requires Follows(s.uid, st) && s.name == st.name && st.pass.Choosing?
      requires node in st.pass.todo && |st.pass.started| < st.pass.budget
      modifies api`jobs, api`claims, api`log
      ensures st' == Exec(st, es) && Inside(es)
      ensures panicked <==> JobName(s.name, node, stamp).None?
      ensures api.OthersKept(s.uid) && api.Shows(s.uid, st')
      ensures panicked ==> !started && st' == Restarted(st)
      ensures !panicked ==>
        && api.log == old(api.log) + Calls(es)
        && st'.mem == st.mem
        && st'.pass == AfterNode(st.pass, node, started)
    {
      var jobName := JobName(s.name, node, stamp);
      if jobName.None? {
        FirstEvent(st, ClaimAsked(node, stamp, NoTemplate));
        return false, true, [ClaimAsked(node, stamp, NoTemplate)], Restarted(st);
      }
      var template := api.ReadTemplate(node, stamp);
      if !template {
        FirstEvent(st, ClaimAsked(node, stamp, NoTemplate));
        return false, false, [ClaimAsked(node, stamp, NoTemplate)], ClaimAskedStep(st, node, stamp, NoTemplate);
      }
      started, es, st' := CreateBoth(s, node, stamp, jobName.value, st);
      return started, false, es, st';
    }

    /** The claim first, and the Job only when no error came back. */
    method CreateBoth(s: Sosreport, node: NodeName, stamp: Stamp, jobName: string, ghost st: State)
      returns (started: bool, ghost es: seq<Event>, ghost st': State)
      requires api.Shows(s.uid, st) && s.name == st.name && st.pass.Choosing?
      requires node in st.pass.todo && |st.pass.started| < st.pass.budget
      requires JobName(s.name, node, stamp) == Some(jobName)
      modifies api`jobs, api`claims, api`log
      ensures st' == Exec(st, es) && api.log == old(api.log) + Calls(es) && Inside(es)
      ensures api.OthersKept(s.uid) && api.Shows(s.uid, st') && st'.mem == st.mem
      ensures st'.pass == AfterNode(st.pass, node, started)
    {
      ghost var claim, st1;
      started, claim, es, st1 := AskForClaim(s, node, stamp, jobName, st);
      if !started {
        return false, es, st1;
      }
      ghost var create, fs;
      started, create, fs, st' := AskForJob(s, node, jobName, st1);
      MoreEvents(st, es, fs, old(api.log));
      es := es + fs;
    }

    /** An error does not mean that there is no claim. */
    method AskForClaim(s: Sosreport, node: NodeName, stamp: Stamp, jobName: string, ghost st: State)
      returns (ok: bool, ghost answer: ClaimAnswer, ghost es: seq<Event>, ghost st': State)
      requires api.Shows(s.uid, st) && s.name == st.name && st.pass.Choosing?
      requires node in st.pass.todo && |st.pass.started| < st.pass.budget
      requires JobName(s.name, node, stamp) == Some(jobName)
      modifies api`claims, api`log
      ensures st' == Exec(st, es) && api.log == old(api.log) + Calls(es) && Inside(es)
      ensures es == [ClaimAsked(node, stamp, answer)] && st' == ClaimAskedStep(st, node, stamp, answer)
      ensures !answer.NoTemplate? && (ok <==> answer.ClaimCreated?)
      ensures api.OthersKept(s.uid) && api.Shows(s.uid, st')
      ensures answer.ClaimRefused? ==> api.claims == old(api.claims)
      ensures !answer.ClaimRefused? ==>
        api.claims == old(api.claims) + [Claim(jobName + "-pvc", [OwnerReference(true, "Sosreport", s.uid)])]
    {
      OwnedByOne(s.uid);
      var claim := Claim(ClaimName(jobName), OwnersFor(s.uid));
      ghost var before := api.claims;
      ok, answer := api.CreateClaim(claim, node, stamp);
      ghost var e := ClaimAsked(node, stamp, answer);
      if !answer.ClaimRefused? { NewNameIsNew(before, s.uid, claim.name); }
      ClaimAnswered(st, node, stamp, jobName, answer);
      es, st' := [e], Next(st, e);
    }

    /** Nor does it mean that there is no Job. */
    method AskForJob(s: Sosreport, node: NodeName, jobName: string, ghost st: State)
      returns (ok: bool, ghost answer: CreateAnswer, ghost es: seq<Event>, ghost st': State)
      requires api.Shows(s.uid, st)
      requires st.pass.CreatingJob? && st.pass.node == node && st.pass.job == jobName
      modifies api`jobs, api`log
      ensures st' == Exec(st, es) && api.log == old(api.log) + Calls(es) && Inside(es)
      ensures es == [JobAsked(answer)] && st' == JobAskedStep(st, answer) && (ok <==> answer.Created?)
      ensures api.OthersKept(s.uid) && api.Shows(s.uid, st')
      ensures answer.NotCreated? ==> api.jobs == old(api.jobs)
      ensures !answer.NotCreated? ==>
        api.jobs == old(api.jobs) +
          [BatchJob(jobName, [OwnerReference(true, "Sosreport", s.uid)], node, jobName + "-pvc", [])]
    {
      OwnedByOne(s.uid);
      var job := BatchJob(jobName, OwnersFor(s.uid), node, ClaimName(jobName), []);
      ok, answer := api.CreateJob(job);
      FirstEvent(st, JobAsked(answer));
      es, st' := [JobAsked(answer)], JobAskedStep(st, answer);
    }

    /** Visits the to-run nodes in some order until the budget is used up. */
    method StartNodes(s: Sosreport, maxNew: int, ghost st: State)
      returns (newRunning: seq<NodeName>, panicked: bool, ghost es: seq<Event>, ghost st': State)
      requires Follows(s.uid, st) && s.name == st.name
      requires st.pass == Choosing(s.AsCopy(), maxNew, Elements(st.mem.toRun), [])
      modifies api`jobs, api`claims, api`log
      ensures st' == Exec(st, es) && Inside(es)
      ensures panicked <==> |s.name| > 43 && maxNew > 0 && Elements(st.mem.toRun) != {}
      ensures api.OthersKept(s.uid) && api.Shows(s.uid, st')
      ensures panicked ==> st'.mem == FORGOTTEN && st'.pass == Idle
      ensures !panicked ==>
        && api.log == old(api.log) + Calls(es)
        && st'.mem == st.mem && st'.pass.Choosing? && Enabled(st', LoopLeft)
        && st'.pass.copy == s.AsCopy() && st'.pass.started == newRunning
    {
      var todo := if s.uid in jobToRunList then jobToRunList[s.uid].Elems() else {};
      newRunning, es, st' := [], [], st;
      while todo != {}
        invariant st' == Exec(st, es) && api.log == old(api.log) + Calls(es) && Inside(es)
        invariant api.OthersKept(s.uid) && api.Shows(s.uid, st') && st'.mem == st.mem && st'.name == st.name
        invariant st'.pass == Choosing(s.AsCopy(), maxNew, todo, newRunning)
        invariant (todo == Elements(st.mem.toRun) && newRunning == []) || (|s.name| <= 43 && maxNew > 0)
      {
        if |newRunning| >= maxNew {
          break;
        }
        var node :| node in todo;
        var stamp: Stamp := *;
        NamesFit(s.name, node, stamp);
        var started, died;
        ghost var fs, st2;
        started, died, fs, st2 := StartNode(s, node, stamp, st');
        MoreEvents(st, es, fs, old(api.log));
        es, st' := es + fs, st2;
        if died {
          return newRunning, true, es, st';
        }
        if started {
          newRunning := newRunning + [node];
        }
        todo := todo - {node};
      }
      return newRunning, false, es, st';
    }

    /** One node leaves the to-run entry and joins the running entry; deleting from a nil map does nothing. */
    method MoveOne(s: Sosreport, node: NodeName)
      requires s.uid in jobRunningList && jobRunningList[s.uid].Names?
      modifies this`jobToRunList, this`jobRunningList
      ensures var was := old(MemoryOf(s.uid));
        MemoryOf(s.uid) ==
          was.(toRun := Without(was.toRun, {node}), running := Some(Names(Elements(was.running) + {node})))
      ensures OthersRemembered(s.uid)
    {
      jobRunningList := jobRunningList[s.uid := Names(jobRunningList[s.uid].Elems() + {node})];
      if s.uid in jobToRunList && jobToRunList[s.uid].Names? {
        jobToRunList := jobToRunList[s.uid := Names(jobToRunList[s.uid].names - {node})];
      }
    }

    /** Moves the started nodes from the to-run entry to the running entry. */
    method MoveStarted(s: Sosreport, newRunning: seq<NodeName>)
      modifies this`jobToRunList, this`jobRunningList
      ensures MemoryOf(s.uid) == AfterMoving(old(MemoryOf(s.uid)), AsSet(newRunning))
      ensures OthersRemembered(s.uid)
    {
      ghost var was := MemoryOf(s.uid);
      if s.uid !in jobRunningList || jobRunningList[s.uid].Nil? {
        jobRunningList := jobRunningList[s.uid := Names({})];
      }
      MovingNothing(was);
      assert AsSet(newRunning[..0]) == {};
      for i := 0 to |newRunning|
        invariant MemoryOf(s.uid) == AfterMoving(was, AsSet(newRunning[..i]))
        invariant OthersRemembered(s.uid)
      {
        OneMoreStarted(newRunning, i);
        MovingOneMore(was, AsSet(newRunning[..i]), newRunning[i]);
        MoveOne(s, newRunning[i]);
      }
      assert newRunning[..|newRunning|] == newRunning;
    }

    /** Brings both annotations up to date; assigning to a nil map panics, and without a map there
        is always something to assign. */
    method RecordQueues(s: Sosreport, newRunning: seq<NodeName>, ghost st: State)
      returns (changed: bool, panicked: bool, ghost es: seq<Event>, ghost st': State)
      requires Follows(s.uid, st) && Enabled(st, LoopLeft) && st.pass.copy == s.AsCopy()
      requires st.pass.started == newRunning
      modifies this`jobToRunList, this`jobRunningList, s`annotations
      ensures st' == Exec(st, es) && Calls(es) == [] && Inside(es) && es == [LoopLeft]
      ensures OthersRemembered(s.uid) && api.Shows(s.uid, st')
      ensures panicked <==> old(s.annotations).None?
      ensures panicked ==> st'.mem == FORGOTTEN && st'.pass == Idle
      ensures !panicked ==> Follows(s.uid, st')
      ensures !panicked ==> st'.pass == if changed then WritingQueues(s.AsCopy()) else Mirroring(s.AsCopy())
      ensures !panicked ==> (changed <==> s.annotations != old(s.annotations))
    {
      FirstEvent(st, LoopLeft);
      es, st' := [LoopLeft], LoopLeftStep(st);
      MoveStarted(s, newRunning);
      if s.annotations.None? {
        return false, true, es, st';
      }
      var toRunChanged := Refresh(s, TO_RUN, if s.uid in jobToRunList then jobToRunList[s.uid] else Nil);
      var runningChanged := Refresh(s, RUNNING, if s.uid in jobRunningList then jobRunningList[s.uid] else Nil);
      return toRunChanged || runningChanged, false, es, st';
    }

    method WriteQueues(s: Sosreport, changed: bool, ghost st: State) returns (ghost es: seq<Event>, ghost st': State)
      requires Follows(s.uid, st) && st.pass == if changed then WritingQueues(s.AsCopy()) else Mirroring(s.AsCopy())
      modifies api`crs, api`log, s
      ensures st' == Exec(st, es) && api.log == old(api.log) + Calls(es) && Inside(es)
      ensures api.OthersKept(s.uid) && Follows(s.uid, st') && st'.pass == Mirroring(s.AsCopy())
      ensures |es| == (if changed then 1 else 0) && s.annotations == old(s.annotations)
    {
      if !changed {
        return [], st;
      }
      es, st' := Update(s, st);
    }

    method StoreQueues(s: Sosreport, newRunning: seq<NodeName>, ghost st: State)
      returns (panicked: bool, ghost es: seq<Event>, ghost st': State)
      requires Follows(s.uid, st) && Enabled(st, LoopLeft) && st.pass.copy == s.AsCopy()
      requires st.pass.started == newRunning
      modifies this`jobToRunList, this`jobRunningList, api`crs, api`log, s
      ensures st' == Exec(st, es) && Inside(es)
      ensures panicked <==> old(s.annotations).None?
      ensures api.OthersKept(s.uid) && OthersRemembered(s.uid) && api.Shows(s.uid, st')
      ensures panicked ==> st'.mem == FORGOTTEN && st'.pass == Idle
      ensures !panicked ==> api.log == old(api.log) + Calls(es)
      ensures !panicked ==> Follows(s.uid, st') && st'.pass == Mirroring(s.AsCopy())
      ensures !panicked ==> |es| == if s.annotations != old(s.annotations) then 2 else 1
    {
      var changed;
      changed, panicked, es, st' := RecordQueues(s, newRunning, st);
      if panicked {
        return;
      }
      ghost var fs, st1 := WriteQueues(s, changed, st');
      QuietThen(st, es, fs);
      es, st' := es + fs, st1;
    }

    /** Starts what the budget allows. It panics exactly when a name would have to be cut below
        nothing, or when the CR still has no annotation map. */
    method RunSosreportJobs(s: Sosreport, ghost st: State)
      returns (panicked: bool, ghost es: seq<Event>, ghost st': State)
      requires Follows(s.uid, st) && s.name == st.name
      requires st.pass == LoopHead(st, s.AsCopy(), sosreportConcurrency)
      modifies this`jobToRunList, this`jobRunningList, api`jobs, api`claims, api`crs, api`log, s
      ensures st' == Exec(st, es) && Inside(es)
      ensures panicked <==>
        || (|s.name| > 43 && sosreportConcurrency > |Elements(st.mem.running)| && Elements(st.mem.toRun) != {})
        || old(s.annotations).None?
      ensures api.OthersKept(s.uid) && OthersRemembered(s.uid) && api.Shows(s.uid, st')
      ensures panicked ==> st'.mem == FORGOTTEN && st'.pass == Idle
      ensures !panicked ==> api.log == old(api.log) + Calls(es)
      ensures !panicked ==> Follows(s.uid, st') && st'.pass == Mirroring(s.AsCopy())
    {
      var running := if s.uid in jobRunningList then jobRunningList[s.uid].Elems() else {};
      var newRunning, died;
      ghost var st1;
      newRunning, died, es, st1 := StartNodes(s, sosreportConcurrency - |running|, st);
      if died {
        return true, es, st1;
      }
      ghost var fs;
      panicked, fs, st' := StoreQueues(s, newRunning, st1);
      MoreEvents(st, es, fs, old(api.log));
      es := es + fs;
    }

    // ---------- one pass ----------

    /** Mirrors the queue in the status and marks the CR finished when nothing is left. */
    method MirrorStatus(s: Sosreport, ghost st: State) returns (ghost es: seq<Event>, ghost st': State)
      requires Follows(s.uid, st) && st.pass == Mirroring(s.AsCopy())
      modifies s`status
      ensures st' == Exec(st, es) && Calls(es) == [] && Inside(es)
      ensures Follows(s.uid, st') && st'.pass == WritingStatus(s.AsCopy())
    {
      SynchronizeRunningStatus(s);
      ghost var e := Mirrored(s.status.running, s.status.outstanding);
      var done := IsSosreportJobsDone(s);
      if done {
        s.status := s.status.(inProgress := false, finished := true);
      }
      FirstEvent(st, e);
      return [e], MirroredStep(st, e.current, e.outstanding);
    }

    method FinishPass(s: Sosreport, ghost st: State) returns (ghost es: seq<Event>, ghost st': State)
      requires Follows(s.uid, st) && st.pass == Mirroring(s.AsCopy())
      modifies api`crs, api`log, s
      ensures st' == Exec(st, es) && api.log == old(api.log) + Calls(es) && Inside(es)
      ensures api.OthersKept(s.uid) && Follows(s.uid, st') && st'.pass == Idle
    {
      es, st' := MirrorStatus(s, st);
      ghost var fs, st1 := UpdateStatus(s, st');
      QuietThen(st, es, fs);
      es, st' := es + fs, st1;
    }

    /** Run and finish. */
    method RunAndFinish(s: Sosreport, ghost st: State) returns (panicked: bool, ghost es: seq<Event>, ghost st': State)
      requires Follows(s.uid, st) && s.name == st.name
      requires st.pass == LoopHead(st, s.AsCopy(), sosreportConcurrency)
      modifies this`jobToRunList, this`jobRunningList, api`jobs, api`claims, api`crs, api`log, s
      ensures st' == Exec(st, es) && Inside(es)
      ensures panicked <==>
        || (|s.name| > 43 && sosreportConcurrency > |Elements(st.mem.running)| && Elements(st.mem.toRun) != {})
        || old(s.annotations).None?
      ensures api.OthersKept(s.uid) && OthersRemembered(s.uid) && api.Shows(s.uid, st') && st'.pass == Idle
      ensures panicked ==> st'.mem == FORGOTTEN
      ensures !panicked ==> api.log == old(api.log) + Calls(es) && Follows(s.uid, st')
    {
      panicked, es, st' := RunSosreportJobs(s, st);
      if panicked {
        return;
      }
      ghost var fs, st1 := FinishPass(s, st');
      MoreEvents(st, es, fs, old(api.log));
      es, st' := es + fs, st1;
    }

    /** Dequeue, run, and finish, after recovery. */
    method WorkOnQueue(s: Sosreport, ghost st: State) returns (panicked: bool, ghost es: seq<Event>, ghost st': State)
      requires Follows(s.uid, st) && s.name == st.name && st.pass == ListingJobs(s.AsCopy(), sosreportConcurrency)
      modifies this`jobToRunList, this`jobRunningList, api`jobs, api`claims, api`crs, api`log, s
      ensures st' == Exec(st, es) && Inside(es)
      ensures api.OthersKept(s.uid) && OthersRemembered(s.uid) && api.Shows(s.uid, st') && st'.pass == Idle
      ensures panicked ==> st'.mem == FORGOTTEN
      ensures !panicked ==> api.log == old(api.log) + Calls(es) && Follows(s.uid, st')
      ensures es != [] && es[0].JobsListed? && (panicked <==> PanicsAfter(st, es[0].jobs))
    {
      var err;
      ghost var answer;
      err, answer, es, st' := DequeueSosreportJobsDone(s, st);
      NameNeverChanges(st, es);
      ghost var fs, st1;
      panicked, fs, st1 := RunAndFinish(s, st');
      MoreEvents(st, es, fs, old(api.log));
      es, st' := es + fs, st1;
    }

    /** Schedules, and writes the status unless the nodes could not be listed. */
    method StartSosreport(s: Sosreport, ghost st: State) returns (err: bool, ghost es: seq<Event>, ghost st': State)
      requires Follows(s.uid, st) && st.pass == ListingNodes(s.AsCopy())
      modifies this`jobToRunList, api`crs, api`log, s
      ensures st' == Exec(st, es) && api.log == old(api.log) + Calls(es) && Inside(es)
      ensures api.OthersKept(s.uid) && OthersRemembered(s.uid) && Follows(s.uid, st') && st'.pass == Idle
      ensures es != [] && es[0].NodesListed? && (err <==> es[0].nodes.NodeListFailed?)
      ensures |es| == if err then 1 else if es[0].nodes.Eligible? then 3 else 2
    {
      var inProgress;
      inProgress, err, es, st' := ScheduleSosreportJobs(s, st);
      s.status := s.status.(inProgress := inProgress);
      if err {
        return;
      }
      ghost var fs, st1 := UpdateStatus(s, st');
      MoreEvents(st, es, fs, old(api.log));
      es, st' := es + fs, st1;
    }

    /** What a pass does once the CR is read and the configuration is known. */
    method Dispatch(s: Sosreport, ghost st: State)
      returns (panicked: bool, err: bool, ghost es: seq<Event>, ghost st': State)
      requires Follows(s.uid, st) && st.pass == Idle && s.name == st.name
      requires s.version < |st.crs| && s.AsCopy() == Copy(st.crs[s.version], s.version) && !s.status.finished
      modifies this`runList, this`jobToRunList, this`jobRunningList, api`jobs, api`claims, api`crs, api`log, s
      ensures st' == Exec(BeginStep(st, old(s.version), sosreportConcurrency), es)
      ensures api.OthersKept(s.uid) && OthersRemembered(s.uid) && api.Shows(s.uid, st') && st'.pass == Idle
      ensures panicked ==> st'.mem == FORGOTTEN
      ensures !panicked ==> api.log == old(api.log) + Calls(es) && Follows(s.uid, st')
      ensures Inside(es) && (panicked <==> PanicsIn(BeginStep(st, old(s.version), sosreportConcurrency), es))
      ensures es != [] && (if s.uid in old(runList) || old(s.status.inProgress) then es[0].JobsListed?
                           else es[0].NodesListed?)
      ensures err <==> es[0] == NodesListed(NodeListFailed)
    {
      ghost var st1 := BeginStep(st, s.version, sosreportConcurrency);
      panicked, err := false, false;
      if s.uid !in runList && !s.status.inProgress {
        runList := runList + {s.uid};
        err, es, st' := StartSosreport(s, st1);
      } else {
        var unreadable := SynchronizeJobRunningCache(s);
        panicked, es, st' := WorkOnQueue(s, st1);
      }
    }

    /** One pass over a CR just read, which is the event e. */
    method PassOver(s: Sosreport, ghost st: State)
      returns (panicked: bool, err: bool, ghost e: Event, ghost es: seq<Event>, ghost st': State)
      requires Follows(s.uid, st) && st.pass == Idle && s.name == st.name
      requires s.version < |st.crs| && s.AsCopy() == Copy(st.crs[s.version], s.version)
      modifies this, api`jobs, api`claims, api`crs, api`log, api`configs, s
      ensures e.Begin? && e.version == old(s.version) && st' == Exec(Next(st, e), es) && Inside(es)
      ensures api.OthersKept(s.uid) && OthersRemembered(s.uid)
      ensures api.Shows(s.uid, st') && st'.pass == Idle && st'.mem == if panicked then FORGOTTEN else MemoryOf(s.uid)
      ensures !panicked ==> api.log == old(api.log) + Calls(es)
      ensures panicked <==> PanicsIn(Next(st, e), es)
      ensures err <==> es != [] && es[0] == NodesListed(NodeListFailed)
      ensures ConcurrencyRead(st, e, old(api.configs), api.configs, atoi)
    {
      if s.status.finished {
        e := Begin(s.version, 0);
        return false, false, e, [], Next(st, e);
      }
      ghost var development, global, later := ReadConfiguration();
      e := Begin(s.version, sosreportConcurrency);
      panicked, err, es, st' := Dispatch(s, st);
    }

    /** One pass over the CR u, up to its end or to a panic. */
    method Pass(u: UID, ghost st: State) returns (panicked: bool, err: bool, ghost es: seq<Event>, ghost st': State)
      requires u in api.crs ==> Follows(u, st) && st.pass == Idle
      modifies this, api`jobs, api`claims, api`crs, api`log, api`gets, api`configs
      ensures st' == Exec(st, es) && PassEvents(st, es)
      ensures api.OthersKept(u) && OthersRemembered(u) && (u in api.crs <==> u in old(api.crs))
      ensures u in api.crs ==> api.Shows(u, st') && st'.pass == Idle
      ensures u in api.crs ==> st'.mem == if panicked then FORGOTTEN else MemoryOf(u)
      ensures !panicked ==> api.log == old(api.log) + Calls(es)
      ensures es != [] ==> u in old(api.crs)
      ensures WhatWasRead(u, st, es, old(api.gets), api.gets, old(api.configs), api.configs, atoi)
      ensures panicked <==> es != [] && PanicsIn(Next(st, es[0]), es[1..])
      ensures err <==> |es| > 1 && es[1] == NodesListed(NodeListFailed)
    {
      var s := api.Get(u);
      if s == null {
        return false, false, [], st;
      }
      ghost var e := Begin(s.version, 0);
      panicked, err, e, es, st' := PassOver(s, st);
      FirstAndMore(st, e, es, old(api.log));
      es := [e] + es;
    }

    /** One reconcile pass over the CR u. Every call it makes, in order, and the new records and
        store are those of the protocol; Sosreports other than u neither see the pass nor influence
        it, except that a panic makes the successor forget every record. */
    method Reconcile(u: UID, ghost st: State)
      returns (panicked: bool, err: bool, ghost es: seq<Event>, ghost st': State)
      requires u in api.crs ==> Follows(u, st) && st.pass == Idle
      modifies this, api`jobs, api`claims, api`crs, api`log, api`gets, api`configs
      ensures st' == Exec(st, es) && PassEvents(st, es)
      ensures api.OthersKept(u) && (u in api.crs <==> u in old(api.crs))
      ensures if panicked then forall v: UID :: MemoryOf(v) == FORGOTTEN else OthersRemembered(u)
      ensures u in api.crs ==> Follows(u, st') && st'.pass == Idle
      ensures !panicked ==> api.log == old(api.log) + Calls(es)
      ensures es != [] ==> u in old(api.crs)
      ensures WhatWasRead(u, st, es, old(api.gets), api.gets, old(api.configs), api.configs, atoi)
      ensures panicked <==> es != [] && PanicsIn(Next(st, es[0]), es[1..])
      ensures err <==> |es| > 1 && es[1] == NodesListed(NodeListFailed)
      ensures es != [] && !st.crs[es[0].version].status.finished ==>
        && |api.configs| == |old(api.configs)| + 3
        && var asked := api.configs[|old(api.configs)| + 1];
           asked.name == "sosreport-global-configuration" &&
           es[0].cap ==
             if asked.data.Some? && "concurrency" in asked.data.value && atoi(asked.data.value["concurrency"]).Some?
             then atoi(asked.data.value["concurrency"]).value else 1
      ensures forall v: UID, t: State | v != u && old(Follows(v, t)) :: Follows(v, if panicked then Restarted(t) else t)
    {
      panicked, err, es, st' := Pass(u, st);
      if es != [] { CapIsTheNumber(st, es[0], old(api.configs), api.configs, atoi); }
      if panicked {
        Die();
      }
    }
  }

  /** Nothing, or a read that can happen and what follows from it inside the pass. */
  ghost predicate PassEvents(st: State, es: seq<Event>) {
    es == [] || (es[0].Begin? && Enabled(st, es[0]) && Inside(es[1..]))
  }

  /** The pass, once begun, lists Jobs and gets the answer after which it panics. */
  ghost predicate PanicsIn(st: State, es: seq<Event>) {
    st.pass.ListingJobs? && es != [] && es[0].JobsListed? && PanicsAfter(st, es[0].jobs)
  }

  /** A pass over a Finished version reads no configuration; any other works with the concurrency it was given. */
  ghost predicate ConcurrencyRead(
        st: State, e: Event, before: seq<ConfigAnswer>, after: seq<ConfigAnswer>, atoi: Atoi) {
    e.Begin? && e.version < |st.crs| &&
    if st.crs[e.version].status.finished then after == before
    else exists global :: e.cap == Concurrency(global, atoi) && ConfigurationRead(before, after, global)
  }

  /** The concurrency of a pass is the number the second of its three answers gives. */
  lemma CapIsTheNumber(st: State, e: Event, before: seq<ConfigAnswer>, after: seq<ConfigAnswer>, atoi: Atoi)
    requires ConcurrencyRead(st, e, before, after, atoi)
    ensures !st.crs[e.version].status.finished ==>
      && |after| == |before| + 3
      && var asked := after[|before| + 1];
         asked.name == "sosreport-global-configuration" &&
         e.cap ==
           if asked.data.Some? && "concurrency" in asked.data.value && atoi(asked.data.value["concurrency"]).Some?
           then atoi(asked.data.value["concurrency"]).value else 1
  {
    if !st.crs[e.version].status.finished {
      var global :| e.cap == Concurrency(global, atoi) && ConfigurationRead(before, after, global);
      ConcurrencyIsTheNumber(global, atoi);
    }
  }

  /** What the servers record of reads: the version the pass begins with, which of how many, and the concurrency. */
  ghost predicate WhatWasRead(u: UID, st: State, es: seq<Event>, gets: seq<Read>, gets': seq<Read>,
                              configs: seq<ConfigAnswer>, configs': seq<ConfigAnswer>, atoi: Atoi) {
    if es == [] then gets' == gets && configs' == configs
    else
      && es[0].Begin? && gets' == gets + [Read(u, es[0].version, |st.crs|)]
      && ConcurrencyRead(st, es[0], configs, configs', atoi)
  }

  function WithProgress(c: Copy, inProgress: bool): Copy {
    c.(cr := c.cr.(status := c.cr.status.(inProgress := inProgress)))
  }

  /** An answered claim as an event, and what it adds to the store. */
  lemma ClaimAnswered(st: State, node: NodeName, stamp: Stamp, job: string, answer: ClaimAnswer)
    requires |st.crs| > 0 && st.pass.Choosing? && node in st.pass.todo && |st.pass.started| < st.pass.budget
    requires JobName(st.name, node, stamp) == Some(job) && !answer.NoTemplate?
    requires !answer.ClaimRefused? ==> ClaimName(job) !in st.claims
    ensures var e, st' := ClaimAsked(node, stamp, answer), ClaimAskedStep(st, node, stamp, answer);
      && Enabled(st, e) && Next(st, e) == st' && Exec(st, [e]) == st' && Calls([e]) == [e] && Inside([e])
      && st'.name == st.name && st'.crs == st.crs && st'.jobs == st.jobs
      && st'.claims == if answer.ClaimRefused? then st.claims else st.claims + [ClaimName(job)]
  {
    FirstEvent(st, ClaimAsked(node, stamp, answer));
  }

  /** Whether dequeuing still has to be written before the loop. */
  function AfterAnnotating(st: State, c: Copy, cap: int, changed: bool): Pass {
    if changed then WritingDequeue(c, cap) else LoopHead(st, c, cap)
  }

  /** The loop after one node. */
  function AfterNode(p: Pass, node: NodeName, started: bool): Pass
    requires p.Choosing?
  {
    Choosing(p.copy, p.budget, p.todo - {node}, if started then p.started + [node] else p.started)
  }

  /** Where a write of the annotations leaves the pass that goes on with copy c. */
  function PassAfterUpdate(st: State, c: Copy): Pass {
    match st.pass
    case WritingSchedule(_) => WritingScheduled(WithProgress(c, true))
    case WritingDequeue(_, cap) => LoopHead(st, c, cap)
    case _ => Mirroring(c)
  }

  lemma AfterUpdate(st: State, w: WriteAnswer, c: Copy)
    requires Enabled(st, Written(w)) && (st.pass.WritingSchedule? || st.pass.WritingDequeue? || st.pass.WritingQueues?)
    requires c == if w.Accepted? then Copy(Stored(st), |st.crs|) else st.pass.copy
    ensures var st' := WrittenStep(st, w);
      st'.pass == PassAfterUpdate(st, c) && st'.mem == st.mem && c.cr.annotated == st.pass.copy.cr.annotated
  {
  }

  lemma StatusWritten(st: State, w: WriteAnswer)
    requires Enabled(st, Written(w)) && (st.pass.WritingScheduled? || st.pass.WritingStatus?)
    ensures var st' := WrittenStep(st, w);
      && Exec(st, [Written(w)]) == st' && Calls([Written(w)]) == [Written(w)] && Inside([Written(w)])
      && st'.pass == Idle && st'.mem == st.mem
  {
    FirstEvent(st, Written(w));
  }

  lemma {:induction false} NameNeverChanges(st: State, es: seq<Event>)
    ensures Exec(st, es).name == st.name
  {
    if es != [] {
      NameNeverChanges(st, es[..|es| - 1]);
      OneStepKeepsName(Exec(st, es[..|es| - 1]), es[|es| - 1]);
    }
  }

  lemma OneStepKeepsName(st: State, e: Event)
    ensures Step(st, e).name == st.name
  {
  }

  lemma FirstEvent(st: State, e: Event)
    requires Enabled(st, e)
    ensures Exec(st, [e]) == Next(st, e)
    ensures IsInside(e) ==> Inside([e])
    ensures Calls([e]) == if e.Begin? || e.LoopLeft? || e.Mirrored? then [] else [e]
  {
    assert [] + [e] == [e];
    ExecOne(st, [], e);
    CallsOne([], e);
  }

  lemma Associative(a: seq<Event>, b: seq<Event>, c: seq<Event>)
    ensures a + (b + c) == a + b + c
  {
  }

  lemma FirstAndMore(st: State, e: Event, es: seq<Event>, log: seq<Event>)
    requires Enabled(st, e)
    ensures Exec(st, [e] + es) == Exec(Next(st, e), es)
    ensures e.Begin? || e.LoopLeft? || e.Mirrored? ==> Calls([e] + es) == Calls(es)
    ensures !(e.Begin? || e.LoopLeft? || e.Mirrored?) ==> log + Calls([e] + es) == log + [e] + Calls(es)
    ensures ([e] + es)[0] == e && ([e] + es)[1..] == es
    ensures Inside(es) && IsInside(e) ==> Inside([e] + es)
  {
    FirstEvent(st, e);
    ExecConcat(st, [e], es);
    CallsConcat([e], es);
    if Inside(es) && IsInside(e) { InsideConcat([e], es); }
    Associative(log, [e], Calls(es));
    assert [] + Calls(es) == Calls(es);
  }

  /** Events that are no calls, and then others. */
  lemma QuietThen(st: State, es: seq<Event>, fs: seq<Event>)
    requires Calls(es) == []
    ensures Exec(st, es + fs) == Exec(Exec(st, es), fs) && Calls(es + fs) == Calls(fs)
    ensures Inside(es) && Inside(fs) ==> Inside(es + fs)
  {
    ExecConcat(st, es, fs);
    CallsConcat(es, fs);
    if Inside(es) && Inside(fs) { InsideConcat(es, fs); }
    assert [] + Calls(fs) == Calls(fs);
  }

  lemma MoreEvents(st: State, es: seq<Event>, fs: seq<Event>, log: seq<Event>)
    ensures Exec(st, es + fs) == Exec(Exec(st, es), fs)
    ensures log + Calls(es + fs) == log + Calls(es) + Calls(fs)
    ensures Inside(es) && Inside(fs) ==> Inside(es + fs)
  {
    ExecConcat(st, es, fs);
    CallsConcat(es, fs);
    if Inside(es) && Inside(fs) { InsideConcat(es, fs); }
    Associative(log, Calls(es), Calls(fs));
  }

  lemma OneMoreStarted(q: seq<NodeName>, i: nat)
    requires i < |q|
    ensures AsSet(q[..i + 1]) == AsSet(q[..i]) + {q[i]}
  {
  }

  function AfterMoving(was: Memory, moved: set<NodeName>): Memory {
    was.(toRun := Without(was.toRun, moved), running := Some(Names(Elements(was.running) + moved)))
  }

  lemma MovingNothing(was: Memory)
    ensures AfterMoving(was, {}) == was.(running := Some(Names(Elements(was.running))))
  {
    WithoutNothing(was.toRun);
    assert Elements(was.running) + {} == Elements(was.running);
  }

  lemma MovingOneMore(was: Memory, moved: set<NodeName>, n: NodeName)
    ensures AfterMoving(was, moved + {n}) == AfterMoving(AfterMoving(was, moved), {n})
  {
    WithoutOneMore(was.toRun, moved, n);
    assert Elements(was.running) + (moved + {n}) == Elements(was.running) + moved + {n};
  }

  lemma WithoutOneMore(o: Option<NodeSet>, gone: set<NodeName>, n: NodeName)
    ensures Without(Without(o, gone), {n}) == Without(o, gone + {n})
    ensures n !in Elements(Without(o, gone)) ==> Without(o, gone + {n}) == Without(o, gone)
  {
    if o.Some? && o.value.Names? {
      assert (o.value.names - gone) - {n} == o.value.names - (gone + {n});
      if n !in o.value.names - gone { assert o.value.names - (gone + {n}) == o.value.names - gone; }
    }
  }

  lemma OneMoreDone(own: seq<BatchJob>, i: nat)
    requires i < |own|
    ensures DoneNodes(own[..i + 1]) == DoneNodes(own[..i]) + (if Done(own[i].conditions) then {own[i].nodeName} else {})
  {
    assert own[..i + 1][..i] == own[..i];
  }

  /** A Job seen done in an old list is done. */
  lemma SeenJobsAreDone(jobs: seq<BatchJob>, st: State, listed: seq<BatchJob>, u: UID)
    requires st.jobs == JobsOf(jobs, u) && Snapshot(listed, jobs)
    ensures forall n | n in DoneNodes(OwnJobs(listed, u)) :: DoneOn(st.jobs, n)
  {
    OwnJobsAreOwned(listed, jobs, u);
    var own := OwnJobs(listed, u);
    forall n | n in DoneNodes(own) ensures DoneOn(st.jobs, n) {
      DoneNodesAreDone(own, n);
      var i :| 0 <= i < |own| && Done(own[i].conditions) && own[i].nodeName == n;
      assert ViewOf(own[i], jobs);
      var k :|
        && 0 <= k < |jobs| && jobs[k].owners == own[i].owners && jobs[k].nodeName == own[i].nodeName
        && (Done(own[i].conditions) ==> Done(jobs[k].conditions));
      OwnedJobIsListed(jobs, u, k);
      var m :| 0 <= m < |st.jobs| && st.jobs[m] == JobOf(jobs[k]);
    }
  }

  lemma OneMoreNode(ts: seq<Toleration>, nodes: seq<Node>, matches: Match, i: nat)
    requires i < |nodes|
    ensures EligibleNames(ts, nodes[..i + 1], matches) ==
      EligibleNames(ts, nodes[..i], matches) +
      (if AllTolerated(ts, nodes[i].taints, matches) then {HostName(nodes[i])} else {})
  {
    var more := nodes[..i + 1];
    assert more[i] == nodes[i];
    forall n | n in EligibleNames(ts, nodes[..i], matches) ensures n in EligibleNames(ts, more, matches) {
      var k :| 0 <= k < i && AllTolerated(ts, nodes[..i][k].taints, matches) && HostName(nodes[..i][k]) == n;
      assert more[k] == nodes[..i][k];
    }
    forall n | n in EligibleNames(ts, more, matches)
      ensures
        || n in EligibleNames(ts, nodes[..i], matches)
        || (AllTolerated(ts, nodes[i].taints, matches) && n == HostName(nodes[i]))
    {
      var k :| 0 <= k < |more| && AllTolerated(ts, more[k].taints, matches) && HostName(more[k]) == n;
      if k < i { assert nodes[..i][k] == more[k]; }
    }
  }
}
