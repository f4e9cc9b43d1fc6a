/**
 The operator at work on a whole cluster: reconcile passes over any CRs in any order, new CRs, Jobs that
 end, CRs touched by others, and process deaths. Whatever happens, every CR has lived through one run of
 the protocol, so the results about runs are results about the program.
 */
module Operation {
  import opened Wrappers
  import opened Codec
  import opened Protocol
  import opened Phases
  import opened Coverage
  import opened Lifetimes
  import opened Mirror
  import opened Queue
  import opened Configuration
  import opened Cluster
  import opened Controller

  /** A read gives the latest version. */
  ghost predicate ReadsLatest(st: State, e: Event) {
    e.Begin? ==> e.version + 1 == |st.crs|
  }

  /** The run one CR has been through, and where it led. */
  datatype Life = Life(start: State, events: seq<Event>, now: State) {
    ghost predicate Lived(name: string) {
      && (start == Fresh(name, false) || start == Fresh(name, true))
      && now == Exec(start, events)
    }

    /** It never read an old version. */
    ghost predicate Current() {
      Always(start, events, ReadsLatest)
    }
  }

  ghost predicate ReadFirst(l: Life, es: seq<Event>) {
    es == [] || (es[0].Begin? && es[0].version + 1 == |l.now.crs|)
  }

  lemma FirstOfConcat(es: seq<Event>, fs: seq<Event>)
    requires fs != []
    ensures es + fs == es + [fs[0]] + fs[1..]
  {
  }

  lemma OneReadThenInside(start: State, es: seq<Event>, e: Event, fs: seq<Event>)
    requires Always(start, es, ReadsLatest) && ReadsLatest(Exec(start, es), e) && Inside(fs)
    ensures Always(start, es + [e] + fs, ReadsLatest)
  {
    AlwaysOneMore(start, es, e, ReadsLatest);
    InsideReadsNothing(start, es + [e], fs);
  }

  lemma StaysCurrent(l: Life, es: seq<Event>)
    requires l.Current() && l.now == Exec(l.start, l.events) && PassEvents(l.now, es) && ReadFirst(l, es)
    ensures Always(l.start, l.events + es, ReadsLatest)
  {
    if es == [] {
      assert l.events + es == l.events;
    } else {
      OneReadThenInside(l.start, l.events, es[0], es[1..]);
      FirstOfConcat(l.events, es);
    }
  }

  /** A life that goes on with a pass. */
  lemma LivesOn(l: Life, name: string, es: seq<Event>, st: State) returns (l': Life)
    requires l.Lived(name) && st == Exec(l.now, es) && PassEvents(l.now, es)
    ensures l'.Lived(name) && l' == Life(l.start, l.events + es, st)
    ensures l.Current() && ReadFirst(l, es) ==> l'.Current()
  {
    ExecConcat(l.start, l.events, es);
    l' := Life(l.start, l.events + es, st);
    if l.Current() && ReadFirst(l, es) { StaysCurrent(l, es); }
  }

  lemma {:induction false} InsideReadsNothing(start: State, es: seq<Event>, fs: seq<Event>)
    requires Always(start, es, ReadsLatest) && Inside(fs)
    ensures Always(start, es + fs, ReadsLatest)
    decreases |fs|
  {
    if fs == [] {
      assert es + fs == es;
    } else {
      var fs', e := fs[..|fs| - 1], fs[|fs| - 1];
      InsideReadsNothing(start, es, fs');
      AlwaysOneMore(start, es + fs', e, ReadsLatest);
      LastOfConcat(es, fs);
    }
  }

  /** A life that goes on with one event. */
  function More(l: Life, e: Event): Life {
    Life(l.start, l.events + [e], Step(l.now, e))
  }

  lemma LivesOneMore(l: Life, name: string, e: Event)
    requires l.Lived(name) && !e.Begin?
    ensures More(l, e).Lived(name) && (l.Current() ==> More(l, e).Current())
  {
    ExecOne(l.start, l.events, e);
    if l.Current() { AlwaysOneMore(l.start, l.events, e, ReadsLatest); }
  }

  lemma AfterCrash(l: Life, name: string)
    requires l.Lived(name) && |l.now.crs| > 0
    ensures More(l, Crash).Lived(name) && (l.Current() ==> More(l, Crash).Current())
    ensures More(l, Crash).now == Restarted(l.now)
  {
    LivesOneMore(l, name, Crash);
  }

  lemma AfterEdit(l: Life, name: string, crs: seq<StoredCr>)
    requires l.Lived(name) && |crs| > 0 && l.now.crs == CrsOf(crs)
    ensures var l' := More(l, Edited);
      && l'.Lived(name) && (l.Current() ==> l'.Current())
      && l'.now == l.now.(crs := CrsOf(crs + [crs[|crs| - 1]]))
  {
    LivesOneMore(l, name, Edited);
    NewVersion(crs, crs[|crs| - 1]);
    assert Latest(l.now) == CrOf(crs[|crs| - 1]);
  }

  /** A Job that fails ends like one that completes. */
  function Ended(j: BatchJob, failed: bool): BatchJob {
    j.(conditions := j.conditions + [Condition(if failed then "Failed" else "Complete", "True")])
  }

  lemma EndedIsDone(j: BatchJob, failed: bool)
    ensures Done(Ended(j, failed).conditions) && JobOf(Ended(j, failed)) == JobOf(j).(done := true)
  {
    var c := Ended(j, failed).conditions;
    assert EndsJob(c[|c| - 1]);
  }

  /** A Job that ends changes one place in the list of its Sosreport, and no other list. */
  lemma {:induction false} JobsAfterEnd(jobs: seq<BatchJob>, k: nat, failed: bool, u: UID)
    requires k < |jobs|
    ensures var after := JobsOf(jobs[k := Ended(jobs[k], failed)], u);
      if OwnedBy(jobs[k].owners, u) then
        |JobsOf(jobs[..k], u)| < |JobsOf(jobs, u)| &&
        var i := |JobsOf(jobs[..k], u)|; after == JobsOf(jobs, u)[i := JobsOf(jobs, u)[i].(done := true)]
      else after == JobsOf(jobs, u)
  {
    var n := |jobs| - 1;
    var jobs' := jobs[k := Ended(jobs[k], failed)];
    if k == n {
      assert jobs'[..n] == jobs[..n];
      EndedIsDone(jobs[k], failed);
    } else {
      assert jobs'[..n] == jobs[..n][k := Ended(jobs[k], failed)] && jobs[..n][..k] == jobs[..k];
      JobsAfterEnd(jobs[..n], k, failed, u);
    }
  }

  ghost function LifeAfterEnd(l: Life, jobs: seq<BatchJob>, k: nat, v: UID): Life
    requires k < |jobs|
  {
    if OwnedBy(jobs[k].owners, v) then More(l, JobFinished(|JobsOf(jobs[..k], v)|)) else l
  }

  lemma AfterEnd(l: Life, name: string, jobs: seq<BatchJob>, k: nat, failed: bool, v: UID)
    requires l.Lived(name) && k < |jobs| && |l.now.crs| > 0 && l.now.jobs == JobsOf(jobs, v)
    ensures var l' := LifeAfterEnd(l, jobs, k, v);
      && l'.Lived(name) && (l.Current() ==> l'.Current())
      && l'.now == l.now.(jobs := JobsOf(jobs[k := Ended(jobs[k], failed)], v))
  {
    JobsAfterEnd(jobs, k, failed, v);
    if OwnedBy(jobs[k].owners, v) { LivesOneMore(l, name, JobFinished(|JobsOf(jobs[..k], v)|)); }
  }

  /** The program and the server are, for the CR u, where its run leads, and no pass is in flight. The run
      knows no concurrency the ConfigMap did not give, and no old read unless there was one. */
  ghost predicate Follows(r: Reconciler, u: UID, l: Life)
    reads r, r.api
  {
    && l.Lived(r.api.names(u)) && r.Follows(u, l.now) && l.now.pass == Idle
    && l.now.hist.maxCap <= LargestConcurrency(r.api.configs, r.atoi)
    && (CurrentFor(u, r.api.gets) ==> l.Current())
  }

  /** Nothing belongs to a CR that does not exist. */
  ghost predicate Unborn(r: Reconciler, u: UID)
    reads r, r.api
  {
    r.MemoryOf(u) == FORGOTTEN && JobsOf(r.api.jobs, u) == [] && ClaimsOf(r.api.claims, u) == []
  }

  /** Every CR follows the run recorded for it. */
  ghost predicate Served(r: Reconciler, lives: map<UID, Life>)
    reads r, r.api
  {
    && lives.Keys == r.api.crs.Keys
    && forall u: UID :: Stands(r, u, lives)
  }

  ghost predicate Stands(r: Reconciler, u: UID, lives: map<UID, Life>)
    reads r, r.api
  {
    if u in lives then Follows(r, u, lives[u]) else Unborn(r, u)
  }

  // ---------- what can happen ----------

  /** Somebody applies a new CR. */
  method Apply(r: Reconciler, u: UID, annotations: Annotations, ghost lives: map<UID, Life>)
    returns (ghost lives': map<UID, Life>)
    requires Served(r, lives) && u !in r.api.crs
    requires annotations.Some? ==> TO_RUN !in annotations.value && RUNNING !in annotations.value
    modifies r.api`crs
    ensures Served(r, lives') && lives'.Keys == lives.Keys + {u}
    ensures forall v | v in lives :: lives'[v] == lives[v]
  {
    ghost var start := Fresh(r.api.names(u), annotations.Some?);
    var cr := StoredCr(annotations, Status(false, false, [], []));
    assert CrsOf([cr]) == start.crs;
    assert Stands(r, u, lives);
    r.api.crs := r.api.crs[u := [cr]];
    lives' := lives[u := Life(start, [], start)];
    forall v: UID | v != u ensures Stands(r, v, lives') {
      assert old(Stands(r, v, lives));
    }
  }

  /** Somebody else writes the CR and leaves its records alone. */
  method Touch(r: Reconciler, u: UID, ghost lives: map<UID, Life>) returns (ghost lives': map<UID, Life>)
    requires Served(r, lives) && u in r.api.crs
    modifies r.api`crs
    ensures Served(r, lives') && lives'.Keys == lives.Keys
    ensures forall v | v in lives && v != u :: lives'[v] == lives[v]
    ensures lives'[u] == More(lives[u], Edited)
  {
    assert Stands(r, u, lives);
    var crs := r.api.crs[u];
    AfterEdit(lives[u], r.api.names(u), crs);
    r.api.crs := r.api.crs[u := crs + [crs[|crs| - 1]]];
    lives' := lives[u := More(lives[u], Edited)];
    assert Stands(r, u, lives');
    forall v: UID | v != u ensures Stands(r, v, lives') {
      assert old(Stands(r, v, lives));
    }
  }

  /** The process is killed between two passes. */
  method Kill(r: Reconciler, ghost lives: map<UID, Life>) returns (ghost lives': map<UID, Life>)
    requires Served(r, lives)
    modifies r`runList, r`jobToRunList, r`jobRunningList
    ensures Served(r, lives') && lives'.Keys == lives.Keys
    ensures forall v | v in lives :: lives'[v] == More(lives[v], Crash)
  {
    r.Die();
    lives' := map v | v in lives :: More(lives[v], Crash);
    forall v: UID ensures Stands(r, v, lives') {
      assert old(Stands(r, v, lives));
      if v in lives { AfterCrash(lives[v], r.api.names(v)); }
    }
  }

  /** A Job completes or fails. */
  method End(r: Reconciler, k: nat, failed: bool, ghost lives: map<UID, Life>) returns (ghost lives': map<UID, Life>)
    requires Served(r, lives) && k < |r.api.jobs|
    modifies r.api`jobs
    ensures Served(r, lives') && lives'.Keys == lives.Keys
    ensures |r.api.jobs| == |old(r.api.jobs)|
    ensures r.api.jobs[k] == old(r.api.jobs)[k].(conditions :=
      old(r.api.jobs)[k].conditions + [Condition(if failed then "Failed" else "Complete", "True")])
    ensures forall v | v in lives :: lives'[v] == LifeAfterEnd(lives[v], old(r.api.jobs), k, v)
  {
    var jobs := r.api.jobs;
    r.api.jobs := jobs[k := Ended(jobs[k], failed)];
    EndedIsDone(jobs[k], failed);
    lives' := map v | v in lives :: LifeAfterEnd(lives[v], jobs, k, v);
    forall v: UID ensures Stands(r, v, lives') {
      assert old(Stands(r, v, lives));
      if v in lives {
        AfterEnd(lives[v], r.api.names(v), jobs, k, failed, v);
      } else {
        JobsAfterEnd(jobs, k, failed, v);
      }
    }
  }

  /** What a pass adds to the records of reads. */
  lemma MoreReads(st: State, u: UID, es: seq<Event>, gets: seq<Read>, gets': seq<Read>,
                  configs: seq<ConfigAnswer>, configs': seq<ConfigAnswer>, atoi: Atoi)
    requires WhatWasRead(u, st, es, gets, gets', configs, configs', atoi)
    ensures forall v: UID :: CurrentFor(v, gets') ==> CurrentFor(v, gets)
    ensures CurrentFor(u, gets') ==> es == [] || es[0].version + 1 == |st.crs|
    ensures LargestConcurrency(configs, atoi) <= LargestConcurrency(configs', atoi)
    ensures es != [] && !st.crs[es[0].version].status.finished ==> es[0].cap <= LargestConcurrency(configs', atoi)
  {
    if es != [] {
      assert gets'[|gets|] == Read(u, es[0].version, |st.crs|);
      assert forall i | 0 <= i < |gets| :: gets[i] == gets'[i];
      if !st.crs[es[0].version].status.finished {
        var global :| es[0].cap == Concurrency(global, atoi) && ConfigurationRead(configs, configs', global);
        var more := configs'[|configs|..];
        assert configs' == configs + more && more[1] == ConfigAnswer(GLOBAL_CONFIG_MAP, global);
        LargestConcurrencyGrows(configs, more, atoi);
      }
    }
  }

  /** Only the read at its beginning can raise the largest concurrency of a run. */
  lemma PassCap(st: State, es: seq<Event>, bound: nat)
    requires PassEvents(st, es) && st.hist.maxCap <= bound
    requires es != [] && !st.crs[es[0].version].status.finished ==> es[0].cap <= bound
    ensures Exec(st, es).hist.maxCap <= bound
  {
    if es != [] {
      FirstEvent(st, es[0]);
      ExecConcat(st, [es[0]], es[1..]);
      assert [es[0]] + es[1..] == es;
      InsideKeepsCap(Next(st, es[0]), es[1..]);
    }
  }

  lemma StepKeepsCap(st: State, e: Event)
    requires IsInside(e)
    ensures Step(st, e).hist.maxCap == st.hist.maxCap
  {
  }

  lemma {:induction false} InsideKeepsCap(st: State, es: seq<Event>)
    requires Inside(es)
    ensures Exec(st, es).hist.maxCap == st.hist.maxCap
  {
    if es != [] {
      InsideKeepsCap(st, es[..|es| - 1]);
      StepKeepsCap(Exec(st, es[..|es| - 1]), es[|es| - 1]);
    }
  }

  lemma AfterPass(l: Life, name: string, u: UID, es: seq<Event>, st: State,
      gets: seq<Read>, gets': seq<Read>, configs: seq<ConfigAnswer>, configs': seq<ConfigAnswer>, atoi: Atoi)
    returns (l': Life)
    requires l.Lived(name) && st == Exec(l.now, es) && PassEvents(l.now, es)
    requires WhatWasRead(u, l.now, es, gets, gets', configs, configs', atoi)
    requires l.now.hist.maxCap <= LargestConcurrency(configs, atoi) && (CurrentFor(u, gets) ==> l.Current())
    ensures l' == Life(l.start, l.events + es, st) && l'.Lived(name)
    ensures st.hist.maxCap <= LargestConcurrency(configs', atoi) && (CurrentFor(u, gets') ==> l'.Current())
    ensures LargestConcurrency(configs, atoi) <= LargestConcurrency(configs', atoi)
    ensures forall v: UID :: CurrentFor(v, gets') ==> CurrentFor(v, gets)
  {
    MoreReads(l.now, u, es, gets, gets', configs, configs', atoi);
    PassCap(l.now, es, LargestConcurrency(configs', atoi));
    l' := LivesOn(l, name, es, st);
  }

  /** A reconcile pass as its own CR sees it. */
  method PassOn(r: Reconciler, u: UID, ghost l: Life) returns (panicked: bool, ghost es: seq<Event>, ghost l': Life)
    requires u in r.api.crs && Follows(r, u, l)
    modifies r, r.api`jobs, r.api`claims, r.api`crs, r.api`log, r.api`gets, r.api`configs
    ensures Follows(r, u, l') && l'.start == l.start && l'.events == l.events + es && PassEvents(l.now, es)
    ensures WhatWasRead(u, l.now, es, old(r.api.gets), r.api.gets, old(r.api.configs), r.api.configs, r.atoi)
    ensures !panicked ==> r.api.log == old(r.api.log) + Calls(es)
    ensures panicked <==> es != [] && PanicsIn(Next(l.now, es[0]), es[1..])
    ensures r.api.OthersKept(u) && u in r.api.crs
    ensures if panicked then forall v: UID :: r.MemoryOf(v) == FORGOTTEN else r.OthersRemembered(u)
    ensures LargestConcurrency(old(r.api.configs), r.atoi) <= LargestConcurrency(r.api.configs, r.atoi)
    ensures forall v: UID :: CurrentFor(v, r.api.gets) ==> CurrentFor(v, old(r.api.gets))
    ensures forall v: UID, t: State | v != u && old(r.Follows(v, t)) ::
      r.Follows(v, if panicked then Restarted(t) else t)
  {
    var err;
    ghost var st;
    panicked, err, es, st := r.Reconcile(u, l.now);
    l' := AfterPass(
      l, r.api.names(u), u, es, st, old(r.api.gets), r.api.gets, old(r.api.configs), r.api.configs, r.atoi);
  }

  /** A reconcile pass over u: its run goes on with a read of the version the server gave and the calls that
      were made, and a panic is a crash for every other run. */
  method Work(r: Reconciler, u: UID, ghost lives: map<UID, Life>)
    returns (panicked: bool, ghost es: seq<Event>, ghost lives': map<UID, Life>)
    requires Served(r, lives) && u in r.api.crs
    modifies r, r.api`jobs, r.api`claims, r.api`crs, r.api`log, r.api`gets, r.api`configs
    ensures Served(r, lives') && lives'.Keys == lives.Keys
    ensures forall v | v in lives && v != u :: lives'[v] == if panicked then More(lives[v], Crash) else lives[v]
    ensures lives'[u].start == lives[u].start && lives'[u].events == lives[u].events + es
    ensures PassEvents(lives[u].now, es)
    ensures WhatWasRead(u, lives[u].now, es, old(r.api.gets), r.api.gets, old(r.api.configs), r.api.configs, r.atoi)
    ensures !panicked ==> r.api.log == old(r.api.log) + Calls(es)
    ensures panicked <==> es != [] && PanicsIn(Next(lives[u].now, es[0]), es[1..])
  {
    assert Stands(r, u, lives);
    ghost var l;
    panicked, es, l := PassOn(r, u, lives[u]);
    lives' := map v | v in lives :: if v == u then l else if panicked then More(lives[v], Crash) else lives[v];
    forall v: UID | v != u ensures Stands(r, v, lives') {
      assert old(Stands(r, v, lives));
      if v in lives { AfterCrash(lives[v], r.api.names(v)); }
    }
    assert Stands(r, u, lives');
  }

  /** Any number of these, in any order, from an empty cluster. */
  method Operate(r: Reconciler, rounds: nat) returns (ghost lives: map<UID, Life>)
    requires r.api.crs == map[] && r.api.jobs == [] && r.api.claims == [] && forall u: UID :: r.MemoryOf(u) == FORGOTTEN
    modifies r, r.api`jobs, r.api`claims, r.api`crs, r.api`log, r.api`gets, r.api`configs
    ensures Served(r, lives)
  {
    lives := map[];
    for i := 0 to rounds
      invariant Served(r, lives)
    {
      var what: nat, u: UID, k: nat, failed: bool, annotations: Annotations := *, *, *, *, *;
      var isPlain := annotations.None? || (TO_RUN !in annotations.value && RUNNING !in annotations.value);
      if what == 0 && u !in r.api.crs && isPlain {
        lives := Apply(r, u, annotations, lives);
      } else if what == 1 && u in r.api.crs {
        lives := Touch(r, u, lives);
      } else if what == 2 {
        lives := Kill(r, lives);
      } else if what == 3 && k < |r.api.jobs| {
        lives := End(r, k, failed, lives);
      } else if u in r.api.crs {
        var panicked;
        ghost var es;
        panicked, es, lives := Work(r, u, lives);
      }
    }
  }

  // ---------- what it means for the stored CRs and Jobs ----------

  /** Every entry of a Sosreport's own list is a stored Job it controls. */
  lemma {:induction false} ListedJobIsStored(jobs: seq<BatchJob>, u: UID, m: nat)
    requires m < |JobsOf(jobs, u)|
    ensures exists k :: 0 <= k < |jobs| && OwnedBy(jobs[k].owners, u) && JobOf(jobs[k]) == JobsOf(jobs, u)[m]
  {
    var n := |jobs| - 1;
    if m < |JobsOf(jobs[..n], u)| {
      ListedJobIsStored(jobs[..n], u, m);
      var k :| 0 <= k < n && OwnedBy(jobs[..n][k].owners, u) && JobOf(jobs[..n][k]) == JobsOf(jobs[..n], u)[m];
      assert jobs[..n][k] == jobs[k];
    } else {
      assert OwnedBy(jobs[n].owners, u) && JobOf(jobs[n]) == JobsOf(jobs, u)[m];
    }
  }

  lemma DoneJobIsStored(jobs: seq<BatchJob>, u: UID, n: NodeName)
    requires DoneOn(JobsOf(jobs, u), n)
    ensures exists k ::
      0 <= k < |jobs| && OwnedBy(jobs[k].owners, u) && jobs[k].nodeName == n && Done(jobs[k].conditions)
  {
    var own := JobsOf(jobs, u);
    var m :| 0 <= m < |own| && own[m].node == n && own[m].done;
    ListedJobIsStored(jobs, u, m);
    var k :| 0 <= k < |jobs| && OwnedBy(jobs[k].owners, u) && JobOf(jobs[k]) == own[m];
    assert jobs[k].nodeName == n && Done(jobs[k].conditions);
  }

  /** A run that reads only latest versions meets every premise on reads. */
  lemma {:induction false} CurrentLife(start: State, es: seq<Event>)
    requires Always(start, es, ReadsLatest)
    ensures Always(start, es, RecoversCurrent)
  {
    if es != [] {
      CurrentLife(start, es[..|es| - 1]);
    }
  }

  lemma {:induction false} ForwardLife(name: string, annotated: bool, es: seq<Event>)
    requires Always(Fresh(name, annotated), es, ReadsLatest)
    ensures Always(Fresh(name, annotated), es, ReadsForward)
  {
    if es != [] {
      var before := es[..|es| - 1];
      ForwardLife(name, annotated, before);
      ReadsRun(name, annotated, before);
    }
  }

  lemma FinishedLife(l: Life, name: string, n: NodeName)
    requires l.Lived(name) && n in Scheduled(l.now) && |l.now.crs| > 0 && Latest(l.now).status.finished
    requires l.now.hist.lives == 0 || (l.now.hist.kept && Always(l.start, l.events, RecoversCovered))
    ensures DoneOn(l.now.jobs, n)
  {
    var annotated := l.start.crs[0].annotated;
    if l.now.hist.lives == 0 {
      FinishedWithoutDeaths(name, annotated, l.events, l.now);
    } else {
      FinishedMeansDone(name, annotated, l.events, l.now, n);
    }
  }

  /** When every read of u gave the latest version, its run meets the premises on reads. */
  lemma CurrentOnTheCluster(r: Reconciler, lives: map<UID, Life>, u: UID)
    requires Served(r, lives) && u in lives && CurrentFor(u, r.api.gets)
    ensures Always(lives[u].start, lives[u].events, RecoversCovered)
    ensures Always(lives[u].start, lives[u].events, SchedulesOnce)
  {
    assert Stands(r, u, lives);
    var l, name := lives[u], r.api.names(u);
    var annotated := l.start.crs[0].annotated;
    CurrentLife(l.start, l.events);
    CurrentReadsSuffice(name, annotated, l.events);
    ForwardLife(name, annotated, l.events);
    ForwardReadsSuffice(name, annotated, l.events);
  }

  /** A stored CR that says Finished has a Job of its own that is done for every scheduled node, when no process has
      died since it was applied, or when what was stored accounted for the nodes and so did what its
      recoveries loaded. */
  lemma FinishedOnTheCluster(r: Reconciler, lives: map<UID, Life>, u: UID, n: NodeName)
    requires Served(r, lives) && u in lives && n in Scheduled(lives[u].now)
    requires
      || lives[u].now.hist.lives == 0
      || (lives[u].now.hist.kept && Always(lives[u].start, lives[u].events, RecoversCovered))
    requires |r.api.crs[u]| > 0 && r.api.crs[u][|r.api.crs[u]| - 1].status.finished
    ensures exists k, c | 0 <= k < |r.api.jobs| && 0 <= c < |r.api.jobs[k].conditions| ::
      && OwnedBy(r.api.jobs[k].owners, u) && r.api.jobs[k].nodeName == n
      && r.api.jobs[k].conditions[c].status == "True"
      && (r.api.jobs[k].conditions[c].kind == "Complete" || r.api.jobs[k].conditions[c].kind == "Failed")
  {
    assert Stands(r, u, lives);
    FinishedLife(lives[u], r.api.names(u), n);
    DoneJobIsStored(r.api.jobs, u, n);
    var k :|
      && 0 <= k < |r.api.jobs| && OwnedBy(r.api.jobs[k].owners, u)
      && r.api.jobs[k].nodeName == n && Done(r.api.jobs[k].conditions);
    DoneMeansEnded(r.api.jobs[k].conditions);
  }

  /** Two stored Jobs of one CR and one process are for different nodes, when the process scheduled once and
      neither creation was answered with an error. */
  lemma OnceOnTheCluster(r: Reconciler, lives: map<UID, Life>, u: UID, i: nat, j: nat)
    requires Served(r, lives) && u in lives && Always(lives[u].start, lives[u].events, SchedulesOnce)
    requires Reported(lives[u].now, i) && Reported(lives[u].now, j) && i != j
    ensures i < |JobsOf(r.api.jobs, u)| && j < |JobsOf(r.api.jobs, u)|
    ensures JobsOf(r.api.jobs, u)[i].node != JobsOf(r.api.jobs, u)[j].node
  {
    assert Stands(r, u, lives);
    var l := lives[u];
    AtMostOneJobPerNode(r.api.names(u), l.start.crs[0].annotated, l.events, l.now, i, j);
  }

  /** For every CR of the cluster, with no premise: stored phases only advance, the running nodes in memory and in every
      stored version are within the largest concurrency the ConfigMap ever gave, and every Job has its own claim. */
  lemma SafeOnTheCluster(r: Reconciler, lives: map<UID, Life>, u: UID, i: nat, j: nat)
    requires Served(r, lives) && u in lives && i <= j < |r.api.crs[u]|
    ensures Rank(r.api.crs[u][i].status) <= Rank(r.api.crs[u][j].status) <= 2
    ensures |Elements(r.MemoryOf(u).running)| <= LargestConcurrency(r.api.configs, r.atoi)
    ensures
      var a := r.api.crs[u][j].annotations;
      a.Some? && "job-running-list" in a.value && Parse(a.value["job-running-list"]).Some? ==>
        |Parse(a.value["job-running-list"]).value.Elems()| <= LargestConcurrency(r.api.configs, r.atoi)
    ensures |ClaimsOf(r.api.claims, u)| == |JobsOf(r.api.jobs, u)| + lives[u].now.hist.orphans
  {
    assert Stands(r, u, lives);
    var l := lives[u];
    SafeLife(l, r.api.names(u), i, j);
    assert l.now.crs[j] == CrOf(r.api.crs[u][j]) && l.now.crs[i] == CrOf(r.api.crs[u][i]);
    ParsedIsParse(r.api.crs[u][j].annotations, RUNNING);
  }

  lemma SafeLife(l: Life, name: string, i: nat, j: nat)
    requires l.Lived(name) && i <= j < |l.now.crs| && l.now.pass == Idle
    ensures Rank(l.now.crs[i].status) <= Rank(l.now.crs[j].status) <= 2
    ensures |Elements(l.now.mem.running)| <= l.now.hist.maxCap
    ensures |Elements(l.now.crs[j].running.Parsed())| <= l.now.hist.maxCap
    ensures |l.now.claims| == |l.now.jobs| + l.now.hist.orphans
  {
    var annotated := l.start.crs[0].annotated;
    PhaseSafety(name, annotated, l.events, l.now, i, j);
    RunningNeverExceedsCap(name, annotated, l.events, l.now);
    JobsPairWithClaims(name, annotated, l.events, l.now);
  }
}
