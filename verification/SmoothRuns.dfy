/** For every set of nodes and every positive concurrency there is a smooth run up to Finished. */
module SmoothRuns {
  import opened Wrappers
  import opened Codec
  import opened Naming
  import opened Protocol
  import opened Phases
  import opened Lifetimes
  import opened Termination
  import opened Runs
  import opened Exactness

  type Stamps = NodeName -> Stamp

  /** No Job for a node of `todo` has been asked for, and with these stamps no two will have the same name. */
  ghost predicate NamesFree(st: State, todo: set<NodeName>, stamps: Stamps) {
    && |st.name| <= 43
    && (forall n | n in todo :: ClaimIsNew(st, n, stamps(n)))
    && (forall m, n | m in todo && n in todo && m != n ::
        JobName(st.name, m, stamps(m)) != JobName(st.name, n, stamps(n)))
  }

  // ---------- every Job ends ----------

  ghost predicate DoneBelow(jobs: seq<Job>, k: nat) {
    k <= |jobs| && forall i | 0 <= i < k :: jobs[i].done
  }

  lemma {:induction false} EndFrom(st: State, k: nat, c: nat, reached: State -> bool) returns (st': State)
    requires Closed(reached, SmoothAt(c)) && reached(st) && |st.crs| > 0 && DoneBelow(st.jobs, k)
    ensures reached(st') && st' == st.(jobs := st'.jobs) && |st'.jobs| == |st.jobs| && DoneBelow(st'.jobs, |st'.jobs|)
    ensures forall i | 0 <= i < |st.jobs| :: st'.jobs[i].node == st.jobs[i].node
    decreases |st.jobs| - k
  {
    if k == |st.jobs| {
      st' := st;
    } else {
      st' := Go(reached, SmoothAt(c), st, JobFinished(k));
      st' := EndFrom(st', k + 1, c, reached);
    }
  }

  // ---------- one loop ----------

  lemma StartOneMore(st: State, n: NodeName, c: nat, stamps: Stamps, reached: State -> bool) returns (st': State)
    requires Closed(reached, SmoothAt(c)) && reached(st) && |st.crs| > 0
    requires st.pass.Choosing? && n in st.pass.todo && |st.pass.started| < st.pass.budget
    requires NamesFree(st, st.pass.todo, stamps)
    ensures reached(st') && st' == st.(pass := st'.pass, jobs := st'.jobs, claims := st'.claims)
    ensures st'.pass == Choosing(st.pass.copy, st.pass.budget, st.pass.todo - {n}, st.pass.started + [n])
    ensures |st'.jobs| == |st.jobs| + 1 && st'.jobs[..|st.jobs|] == st.jobs && st'.jobs[|st.jobs|].node == n
    ensures NamesFree(st', st'.pass.todo, stamps)
  {
    NamesFit(st.name, n, stamps(n));
    st' := Go(reached, SmoothAt(c), st, ClaimAsked(n, stamps(n), ClaimCreated));
    st' := Go(reached, SmoothAt(c), st', JobAsked(Created));
    var job := JobName(st.name, n, stamps(n)).value;
    forall m | m in st'.pass.todo ensures ClaimIsNew(st', m, stamps(m)) {
      OthersStayFree(st.name, n, job, m, stamps(m), st.claims);
    }
  }

  lemma OthersStayFree(name: string, n: NodeName, job: string, m: NodeName, stamp: Stamp, claims: seq<string>)
    requires JobName(name, m, stamp) != Some(job)
    requires JobName(name, m, stamp).Some? ==> ClaimName(JobName(name, m, stamp).value) !in claims
    ensures JobName(name, m, stamp).Some? ==> ClaimName(JobName(name, m, stamp).value) !in claims + [ClaimName(job)]
  {
    if JobName(name, m, stamp).Some? && ClaimName(JobName(name, m, stamp).value) == ClaimName(job) {
      ClaimNameInjective(JobName(name, m, stamp).value, job);
      assert false;
    }
  }

  ghost predicate CreatedForAll(jobs: seq<Job>, q: seq<NodeName>) {
    forall n | n in q :: CreatedOn(jobs, n)
  }

  lemma {:induction false} StartAll(st: State, c: nat, stamps: Stamps, reached: State -> bool) returns (st': State)
    requires Closed(reached, SmoothAt(c)) && reached(st) && |st.crs| > 0
    requires st.pass.Choosing? && |st.pass.started| <= st.pass.budget && NamesFree(st, st.pass.todo, stamps)
    requires CreatedForAll(st.jobs, st.pass.started)
    requires st.pass.todo !! AsSet(st.pass.started)
    ensures reached(st') && st' == st.(pass := st'.pass, jobs := st'.jobs, claims := st'.claims)
    ensures st'.pass.Choosing? && st'.pass.copy == st.pass.copy && st'.pass.budget == st.pass.budget
    ensures st'.pass.todo == {} || |st'.pass.started| == st.pass.budget
    ensures st'.pass.todo !! AsSet(st'.pass.started)
    ensures st'.pass.todo + AsSet(st'.pass.started) == st.pass.todo + AsSet(st.pass.started)
    ensures NamesFree(st', st'.pass.todo, stamps) && CreatedForAll(st'.jobs, st'.pass.started)
    decreases |st.pass.todo|
  {
    if st.pass.todo == {} || |st.pass.started| == st.pass.budget {
      st' := st;
    } else {
      var n :| n in st.pass.todo;
      st' := StartOneMore(st, n, c, stamps, reached);
      StartedGrows(st, st', n);
      st' := StartAll(st', c, stamps, reached);
    }
  }

  lemma StartedGrows(st: State, st': State, n: NodeName)
    requires st.pass.Choosing? && st'.pass.Choosing? && n in st.pass.todo && st.pass.todo !! AsSet(st.pass.started)
    requires st'.pass.todo == st.pass.todo - {n} && st'.pass.started == st.pass.started + [n]
    requires CreatedForAll(st.jobs, st.pass.started)
    requires |st'.jobs| == |st.jobs| + 1 && st'.jobs[..|st.jobs|] == st.jobs && st'.jobs[|st.jobs|].node == n
    ensures st'.pass.todo !! AsSet(st'.pass.started)
    ensures st'.pass.todo + AsSet(st'.pass.started) == st.pass.todo + AsSet(st.pass.started)
    ensures CreatedForAll(st'.jobs, st'.pass.started)
  {
    assert AsSet(st'.pass.started) == AsSet(st.pass.started) + {n};
    forall m | m in st'.pass.started ensures CreatedOn(st'.jobs, m) {
      if m in st.pass.started {
        var i :| 0 <= i < |st.jobs| && st.jobs[i].node == m;
        assert st'.jobs[..|st.jobs|][i].node == m;
      }
    }
  }

  // ---------- one pass ----------

  /** Between two passes: the CR is being worked on, and what runs has a Job. */
  ghost predicate Ready(st: State, all: set<NodeName>, stamps: Stamps) {
    && |st.crs| > 0 && st.pass == Idle && st.mem.onRunList && st.mem.toRun.Some? && st.mem.toRun.value.Names?
    && st.hist.scheduled == Some(all) && Latest(st).annotated && !Latest(st).status.finished
    && (st.mem.running.None? ==> Latest(st).running.Parsed().None?)
    && (forall n | n in Elements(st.mem.running) :: CreatedOn(st.jobs, n))
    && NamesFree(st, Elements(st.mem.toRun), stamps)
  }

  ghost function JobNodes(jobs: seq<Job>): set<NodeName> {
    set i | 0 <= i < |jobs| :: jobs[i].node
  }

  /** The pass begins on the latest version. */
  lemma BeginReady(st: State, all: set<NodeName>, c: nat, stamps: Stamps, reached: State -> bool) returns (st': State)
    requires Closed(reached, SmoothAt(c)) && reached(st) && Ready(st, all, stamps) && DoneBelow(st.jobs, |st.jobs|)
    ensures reached(st') && st'.pass == ListingJobs(Copy(Latest(st), |st.crs| - 1), c) && st'.crs == st.crs
    ensures st'.mem.onRunList && st'.mem.toRun == st.mem.toRun && Elements(st'.mem.running) == Elements(st.mem.running)
    ensures st'.hist.scheduled == Some(all) && st'.jobs == st.jobs && st'.claims == st.claims && st'.name == st.name
  {
    st' := Go(reached, SmoothAt(c), st, Begin(|st.crs| - 1, c));
  }

  lemma AllJobNodesDone(jobs: seq<Job>)
    requires DoneBelow(jobs, |jobs|)
    ensures forall n | n in JobNodes(jobs) :: DoneOn(jobs, n)
    ensures forall n | CreatedOn(jobs, n) :: n in JobNodes(jobs)
    ensures forall i | 0 <= i < |jobs| :: jobs[i].node in JobNodes(jobs)
  {
    forall n | n in JobNodes(jobs) ensures DoneOn(jobs, n) {
      var i :| 0 <= i < |jobs| && jobs[i].node == n;
    }
  }

  /** What a list that shows every node of `nodes` done leaves of the running entry. */
  lemma SeeAllDone(st: State, nodes: set<NodeName>, c: nat, reached: State -> bool) returns (st': State)
    requires Closed(reached, SmoothAt(c)) && reached(st) && |st.crs| > 0 && st.pass.ListingJobs?
    requires forall n | n in nodes :: DoneOn(st.jobs, n)
    requires forall i | 0 <= i < |st.jobs| :: st.jobs[i].node in nodes
    requires Elements(st.mem.running) <= nodes
    ensures reached(st') && st' == JobsListedStep(st, DoneSeen(nodes)) && Elements(st'.mem.running) == {}
  {
    st' := Go(reached, SmoothAt(c), st, JobsListed(DoneSeen(nodes)));
  }

  lemma DequeueAll(st: State, c: nat, reached: State -> bool) returns (st': State)
    requires Closed(reached, SmoothAt(c)) && reached(st) && |st.crs| > 0 && DoneBelow(st.jobs, |st.jobs|)
    requires st.pass == ListingJobs(Copy(Latest(st), |st.crs| - 1), c) && Latest(st).annotated
    requires forall n | n in Elements(st.mem.running) :: CreatedOn(st.jobs, n)
    ensures reached(st') && |st'.crs| > 0
    ensures st'.pass == Choosing(Copy(Latest(st'), |st'.crs| - 1), c, Elements(st.mem.toRun), [])
    ensures st'.mem == st.mem.(running := st'.mem.running) && Elements(st'.mem.running) == {}
    ensures Latest(st').annotated && Latest(st').status == Latest(st).status
    ensures st'.hist == st.hist && st'.jobs == st.jobs && st'.claims == st.claims && st'.name == st.name
  {
    AllJobNodesDone(st.jobs);
    st' := SeeAllDone(st, JobNodes(st.jobs), c, reached);
    if st'.pass.WritingDequeue? {
      st' := Go(reached, SmoothAt(c), st', Written(Accepted));
    }
  }

  /** From the end of the loop to the end of the pass. */
  lemma AfterTheLoop(st: State, c: nat, reached: State -> bool) returns (st': State)
    requires c > 0 && Closed(reached, SmoothAt(c)) && reached(st) && |st.crs| > 0
    requires st.pass.Choosing? && (st.pass.todo == {} || st.pass.budget <= |st.pass.started|)
    requires st.pass.copy == Copy(Latest(st), |st.crs| - 1) && Latest(st).annotated && !Latest(st).status.finished
    ensures reached(st') && st'.pass == Idle && |st'.crs| > 0 && st'.mem == LoopLeftStep(st).mem
    ensures Latest(st').annotated
    ensures Latest(st').status.finished <==> QueueEmpty(st'.mem.toRun) && QueueEmpty(st'.mem.running)
    ensures st'.jobs == st.jobs && st'.claims == st.claims && st'.name == st.name
    ensures st'.hist.scheduled == st.hist.scheduled
  {
    st' := Go(reached, SmoothAt(c), st, LoopLeft);
    if st'.pass.WritingQueues? {
      st' := Go(reached, SmoothAt(c), st', Written(Accepted));
    }
    st' := MirrorSmoothly(st', c, reached);
  }

  lemma MirrorSmoothly(st: State, c: nat, reached: State -> bool) returns (st': State)
    requires Closed(reached, SmoothAt(c)) && reached(st) && |st.crs| > 0 && st.pass.Mirroring?
    requires st.pass.copy.version == |st.crs| - 1 && !st.pass.copy.cr.status.finished && Latest(st).annotated
    ensures reached(st') && st'.pass == Idle && |st'.crs| > 0 && st'.mem == st.mem && Latest(st').annotated
    ensures Latest(st').status.finished <==> QueueEmpty(st.mem.toRun) && QueueEmpty(st.mem.running)
    ensures st'.jobs == st.jobs && st'.claims == st.claims && st'.name == st.name && st'.hist == st.hist
  {
    var current := Enumeration(Elements(st.pass.copy.cr.running.Parsed()));
    var outstanding := Enumeration(Elements(st.pass.copy.cr.toRun.Parsed()));
    st' := Go(reached, SmoothAt(c), st, Mirrored(current, outstanding));
    st' := Go(reached, SmoothAt(c), st', Written(Accepted));
  }

  /** A whole pass: it finishes the CR when nothing was to run, and otherwise less is. */
  lemma SmoothPass(st: State, all: set<NodeName>, c: nat, stamps: Stamps, reached: State -> bool) returns (st': State)
    requires c > 0 && Closed(reached, SmoothAt(c)) && reached(st) && Ready(st, all, stamps)
    ensures reached(st') && |st'.crs| > 0 && st'.pass == Idle && st'.hist.scheduled == Some(all)
    ensures Elements(st.mem.toRun) == {} ==> Latest(st').status.finished
    ensures Elements(st.mem.toRun) != {} ==> Ready(st', all, stamps) && Elements(st'.mem.toRun) < Elements(st.mem.toRun)
  {
    var st1 := EndFrom(st, 0, c, reached);
    forall n | n in Elements(st.mem.running) ensures CreatedOn(st1.jobs, n) {
      var i :| 0 <= i < |st.jobs| && st.jobs[i].node == n;
      assert st1.jobs[i].node == n;
    }
    var st2 := BeginReady(st1, all, c, stamps, reached);
    st2 := DequeueAll(st2, c, reached);
    assert AsSet([]) == {};
    var st3 := StartAll(st2, c, stamps, reached);
    st' := AfterTheLoop(st3, c, reached);
    PassResult(st3, st', all, c, stamps);
  }

  lemma PassResult(st: State, st': State, all: set<NodeName>, c: nat, stamps: Stamps)
    requires c > 0 && st.pass.Choosing? && st.pass.budget == c && (st.pass.todo == {} || |st.pass.started| == c)
    requires st.mem.onRunList && st.mem.toRun.Some? && st.mem.toRun.value.Names? && Elements(st.mem.running) == {}
    requires st.pass.todo !! AsSet(st.pass.started) && st.pass.todo + AsSet(st.pass.started) == Elements(st.mem.toRun)
    requires NamesFree(st, st.pass.todo, stamps) && CreatedForAll(st.jobs, st.pass.started)
    requires |st'.crs| > 0 && st'.pass == Idle && LoopLeftStep(st).mem == st'.mem && st'.mem != FORGOTTEN
    requires Latest(st').annotated
    requires st'.jobs == st.jobs && st'.claims == st.claims && st'.name == st.name && st'.hist.scheduled == Some(all)
    requires Latest(st').status.finished <==> QueueEmpty(st'.mem.toRun) && QueueEmpty(st'.mem.running)
    ensures Elements(st.mem.toRun) == {} ==> Latest(st').status.finished
    ensures Elements(st.mem.toRun) != {} ==> Ready(st', all, stamps) && Elements(st'.mem.toRun) < Elements(st.mem.toRun)
  {
    var moved := AsSet(st.pass.started);
    assert Elements(st'.mem.toRun) == Elements(st.mem.toRun) - moved == st.pass.todo;
    assert Elements(st'.mem.running) == moved;
    if Elements(st.mem.toRun) != {} {
      assert st.pass.started != [];
      assert st.pass.started[0] in moved;
    }
  }

  // ---------- all passes ----------

  lemma {:induction false} UpToFinished(st: State, all: set<NodeName>, c: nat, stamps: Stamps, reached: State -> bool)
    returns (st': State)
    requires c > 0 && Closed(reached, SmoothAt(c)) && reached(st) && Ready(st, all, stamps)
    ensures reached(st') && |st'.crs| > 0 && st'.pass == Idle && st'.hist.scheduled == Some(all)
    ensures Latest(st').status.finished
    decreases Elements(st.mem.toRun)
  {
    st' := SmoothPass(st, all, c, stamps, reached);
    if Elements(st.mem.toRun) != {} {
      st' := UpToFinished(st', all, c, stamps, reached);
    }
  }

  lemma ScheduleAll(name: string, all: set<NodeName>, c: nat, stamps: Stamps, reached: State -> bool)
    returns (st: State)
    requires Closed(reached, SmoothAt(c)) && reached(Fresh(name, false)) && NamesFree(Fresh(name, false), all, stamps)
    ensures reached(st) && Ready(st, all, stamps)
  {
    st := Go(reached, SmoothAt(c), Fresh(name, false), Begin(0, c));
    st := Go(reached, SmoothAt(c), st, NodesListed(Eligible(all)));
    st := Go(reached, SmoothAt(c), st, Written(Accepted));
    st := Go(reached, SmoothAt(c), st, Written(Accepted));
  }

  /** For any nodes whose Job names differ, and any positive concurrency, some run in which nothing fails
      reaches Finished, and it does so with pass ceil(N / c) + 1. */
  lemma {:induction false} SomeRunFinishes(name: string, all: set<NodeName>, c: nat, stamps: Stamps)
    returns (es: seq<Event>, st: State)
    requires |name| <= 43 && c > 0
    requires forall m, n | m in all && n in all && m != n :: JobName(name, m, stamps(m)) != JobName(name, n, stamps(n))
    ensures st == Exec(Fresh(name, false), es) && Always(Fresh(name, false), es, SmoothAt(c))
    ensures |st.crs| > 0 && Latest(st).status.finished && Scheduled(st) == all
    ensures st.hist.passes == CeilingOfQuotient(|all|, c) + 1
  {
    var start := Fresh(name, false);
    ReachableIsClosed(start, SmoothAt(c));
    st := ScheduleAll(name, all, c, stamps, Reachable(start, SmoothAt(c)));
    st := UpToFinished(st, all, c, stamps, Reachable(start, SmoothAt(c)));
    es := RunOf(start, SmoothAt(c), st);
    FinishesAtExactlyThisPass(name, false, es, c, st);
  }
}
