/**
 Runs that mark the limits of the results: what the run theorems assume about reads and about the stored
 scheduling is needed, and can be met. Every run is given event by event.
 */
module Runs {
  import opened Wrappers
  import opened Codec
  import opened Naming
  import opened Protocol
  import opened Phases
  import opened Coverage
  import opened Lifetimes

  // ---------- walking ----------

  ghost predicate Anything(st: State, e: Event) {
    true
  }

  /** A set of states that is left by no event the premise allows. */
  ghost predicate Closed(reached: State -> bool, ok: (State, Event) -> bool) {
    forall s: State, e: Event | reached(s) && Enabled(s, e) && ok(s, e) :: reached(Next(s, e))
  }

  lemma Go(reached: State -> bool, ok: (State, Event) -> bool, st: State, e: Event) returns (st': State)
    requires Closed(reached, ok) && reached(st) && Enabled(st, e) && ok(st, e)
    ensures reached(st') && st' == Next(st, e)
  {
    st' := Next(st, e);
  }

  /** The states a run under the premise can reach. */
  ghost function Reachable(start: State, ok: (State, Event) -> bool): State -> bool {
    s => exists es :: s == Exec(start, es) && Always(start, es, ok)
  }

  lemma ReachableIsClosed(start: State, ok: (State, Event) -> bool)
    ensures Closed(Reachable(start, ok), ok) && Reachable(start, ok)(start)
  {
    assert start == Exec(start, []) && Always(start, [], ok);
    forall s: State, e: Event | Reachable(start, ok)(s) && Enabled(s, e) && ok(s, e)
      ensures Reachable(start, ok)(Next(s, e))
    {
      var es :| s == Exec(start, es) && Always(start, es, ok);
      ExecOne(start, es, e);
      assert (es + [e])[..|es|] == es;
      assert Next(s, e) == Exec(start, es + [e]) && Always(start, es + [e], ok);
    }
  }

  lemma RunOf(start: State, ok: (State, Event) -> bool, st: State) returns (es: seq<Event>)
    requires Reachable(start, ok)(st)
    ensures st == Exec(start, es) && Always(start, es, ok)
  {
    es :| st == Exec(start, es) && Always(start, es, ok);
  }

  // ---------- enumerations exist ----------

  lemma {:induction false} Enumeration(s: set<NodeName>) returns (q: seq<NodeName>)
    ensures Enumerates(q, s)
    decreases s
  {
    if s == {} {
      q := [];
    } else {
      var n :| n in s;
      q := Enumeration(s - {n});
      assert AsSet(q + [n]) == AsSet(q) + {n};
      assert n !in AsSet(q);
      q := q + [n];
    }
  }

  // ---------- stretches of a queue pass ----------

  /** A pass in flight on the latest version. */
  ghost predicate OnLatest(st: State) {
    |st.crs| > 0 && !st.pass.Idle? && st.pass.copy.version == |st.crs| - 1 && st.pass.copy.cr == Latest(st)
  }

  /** The CR as dequeuing leaves it in the copy. */
  ghost function Dequeued(st: State, nodes: set<NodeName>): Cr
    requires st.pass.ListingJobs?
  {
    st.pass.copy.cr.(annotated := true, running := Printed(Entry(Without(st.mem.running, nodes))))
  }

  ghost function AfterDequeue(st: State, nodes: set<NodeName>): State
    requires |st.crs| > 0 && st.pass.ListingJobs?
  {
    var st1 := st.(mem := st.mem.(running := Without(st.mem.running, nodes)), crs := st.crs + [Dequeued(st, nodes)]);
    st1.(pass := LoopHead(st1, Copy(Dequeued(st, nodes), |st.crs|), st.pass.cap))
  }

  /** Lists Jobs, finds the given nodes done, and stores the running entry, whose text changed. */
  lemma Dequeue(reached: State -> bool, ok: (State, Event) -> bool, st: State, nodes: set<NodeName>)
    returns (st': State)
    requires Closed(reached, ok) && FreeBetweenReads(ok) && reached(st)
    requires OnLatest(st) && st.pass.ListingJobs? && forall n | n in nodes :: DoneOn(st.jobs, n)
    requires Latest(st).running != Dequeued(st, nodes).running
    ensures reached(st') && st' == AfterDequeue(st, nodes)
  {
    st' := Go(reached, ok, st, JobsListed(DoneSeen(nodes)));
    st' := Go(reached, ok, st', Written(Accepted));
  }

  lemma MirrorAndStore(
        reached: State -> bool, ok: (State,
        Event) -> bool, st: State, current: seq<NodeName>, outstanding: seq<NodeName>)
    returns (st': State)
    requires Closed(reached, ok) && FreeBetweenReads(ok) && reached(st)
    requires OnLatest(st) && st.pass.Mirroring? && Enabled(st, Mirrored(current, outstanding))
    ensures reached(st') && st'.pass == Idle
    ensures st'.crs == st.crs + [MirroredStep(st, current, outstanding).pass.copy.cr]
    ensures st'.mem == st.mem && st'.jobs == st.jobs && st'.hist == st.hist && st'.claims == st.claims
    ensures st'.name == st.name
  {
    st' := Go(reached, ok, st, Mirrored(current, outstanding));
    st' := Go(reached, ok, st', Written(Accepted));
  }

  /** The loop ends, and both texts and the status are stored. */
  lemma StoreTheRest(
        reached: State -> bool, ok: (State,
        Event) -> bool, st: State, current: seq<NodeName>, outstanding: seq<NodeName>)
    returns (st': State)
    requires Closed(reached, ok) && FreeBetweenReads(ok) && reached(st)
    requires OnLatest(st) && st.pass.Choosing? && (st.pass.todo == {} || st.pass.budget <= |st.pass.started|)
    requires Latest(st).annotated
    requires st.hist.landed || !st.hist.own
    requires Enumerates(current, Elements(LoopLeftStep(st).mem.running))
    requires Enumerates(outstanding, Elements(LoopLeftStep(st).mem.toRun))
    ensures reached(st') && st'.pass == Idle && st'.mem == LoopLeftStep(st).mem
    ensures |st.crs| < |st'.crs| <= |st.crs| + 2 && st'.crs[..|st.crs|] == st.crs
    ensures Latest(st).running == Printed(Nil) ==> |st'.crs| == |st.crs| + 2
    ensures Latest(st').toRun == Printed(Entry(st'.mem.toRun)) && Latest(st').running == Printed(Entry(st'.mem.running))
    ensures Latest(st').annotated
    ensures Latest(st').status ==
      if QueueEmpty(st'.mem.toRun) && QueueEmpty(st'.mem.running) then Status(false, true, current, outstanding)
      else Latest(st).status.(running := current, outstanding := outstanding)
    ensures st'.jobs == st.jobs && st'.hist == st.hist && st'.claims == st.claims && st'.name == st.name
  {
    st' := StoreTheQueues(reached, ok, st);
    st' := MirrorAndStore(reached, ok, st', current, outstanding);
  }

  lemma StoreTheQueues(reached: State -> bool, ok: (State, Event) -> bool, st: State) returns (st': State)
    requires Closed(reached, ok) && FreeBetweenReads(ok) && reached(st)
    requires OnLatest(st) && st.pass.Choosing? && (st.pass.todo == {} || st.pass.budget <= |st.pass.started|)
    requires Latest(st).annotated
    requires st.hist.landed || !st.hist.own
    ensures reached(st') && OnLatest(st') && st'.pass.Mirroring? && st'.mem == LoopLeftStep(st).mem
    ensures |st.crs| <= |st'.crs| <= |st.crs| + 1 && st'.crs[..|st.crs|] == st.crs
    ensures Latest(st).running == Printed(Nil) ==> |st'.crs| == |st.crs| + 1
    ensures Latest(st') ==
      Latest(st).(toRun := Printed(Entry(st'.mem.toRun)), running := Printed(Entry(st'.mem.running)))
    ensures st'.jobs == st.jobs && st'.hist == st.hist && st'.claims == st.claims && st'.name == st.name
  {
    st' := Go(reached, ok, st, LoopLeft);
    if st'.pass.WritingQueues? {
      st' := Go(reached, ok, st', Written(Accepted));
    }
  }

  /** With nothing to visit and nothing in memory, the pass ends Finished. */
  lemma NothingLeft(reached: State -> bool, ok: (State, Event) -> bool, st: State) returns (st': State)
    requires Closed(reached, ok) && FreeBetweenReads(ok) && reached(st)
    requires OnLatest(st) && st.pass.Choosing? && st.pass.todo == {} && st.pass.started == [] && Latest(st).annotated
    requires QueueEmpty(st.mem.toRun) && QueueEmpty(st.mem.running) && (st.hist.landed || !st.hist.own)
    ensures reached(st') && |st'.crs| > 0 && Latest(st').status.finished && st'.jobs == st.jobs && st'.hist == st.hist
  {
    var none: set<NodeName> := {};
    assert AsSet([]) == {} && none - none == none && none + none == none;
    st' := StoreTheRest(reached, ok, st, [], []);
  }

  /** A queue pass over a CR without annotations and with nothing in memory ends Finished. */
  lemma EmptyPassFinishes(reached: State -> bool, ok: (State, Event) -> bool, st: State) returns (st': State)
    requires Closed(reached, ok) && FreeBetweenReads(ok) && reached(st)
    requires OnLatest(st) && st.pass.ListingJobs? && st.mem.toRun.None? && st.mem.running.None?
    requires Latest(st).running == Absent && !st.hist.own
    ensures reached(st') && |st'.crs| > 0 && Latest(st').status.finished && st'.jobs == st.jobs && st'.hist == st.hist
  {
    st' := Dequeue(reached, ok, st, {});
    st' := NothingLeft(reached, ok, st');
  }

  // ---------- Finished with nothing run ----------

  lemma FailedList(name: string, reached: State -> bool) returns (st: State)
    requires Closed(reached, RecoversCurrent) && reached(Fresh(name, false))
    ensures reached(st) && |st.crs| > 0 && Latest(st).status.finished && st.jobs == [] && st.hist.scheduled.None?
    ensures st.hist.lives == 0
  {
    st := Go(reached, RecoversCurrent, Fresh(name, false), Begin(0, 1));
    st := Go(reached, RecoversCurrent, st, NodesListed(NodeListFailed));
    st := Go(reached, RecoversCurrent, st, Begin(0, 1));
    st := EmptyPassFinishes(reached, RecoversCurrent, st);
  }

  /** A failed node list still ends in Finished, with nothing scheduled and nothing run. */
  lemma {:induction false} FailedListEndsFinished(name: string) returns (es: seq<Event>, st: State)
    ensures st == Exec(Fresh(name, false), es) && Always(Fresh(name, false), es, RecoversCurrent)
    ensures |st.crs| > 0 && Latest(st).status.finished && st.jobs == [] && st.hist.scheduled.None? && st.hist.lives == 0
  {
    var start := Fresh(name, false);
    ReachableIsClosed(start, RecoversCurrent);
    st := FailedList(name, Reachable(start, RecoversCurrent));
    es := RunOf(start, RecoversCurrent, st);
  }

  lemma UnstoredScheduling(name: string, n: NodeName, reached: State -> bool) returns (st: State)
    requires Closed(reached, RecoversCurrent) && reached(Fresh(name, false))
    ensures reached(st) && |st.crs| > 0 && Latest(st).status.finished && st.jobs == []
    ensures Scheduled(st) == {n} && !st.hist.landed && !st.hist.kept
  {
    var ok := RecoversCurrent;
    st := Go(reached, ok, Fresh(name, false), Begin(0, 1));
    st := Go(reached, ok, st, NodesListed(Eligible({n})));
    st := Go(reached, ok, st, Written(Refused));
    st := Go(reached, ok, st, Written(Accepted));
    assert n in Scheduled(st) && !StoredAccounts(st);
    st := Go(reached, ok, st, Crash);
    st := Go(reached, ok, st, Begin(1, 1));
    st := EmptyPassFinishes(reached, ok, st);
  }

  /** A scheduling whose annotation write failed is forgotten with the process: the CR is Finished and node n
      has no Job. */
  lemma {:induction false} UnstoredSchedulingIsLost(name: string, n: NodeName) returns (es: seq<Event>, st: State)
    ensures st == Exec(Fresh(name, false), es) && Always(Fresh(name, false), es, RecoversCurrent)
    ensures |st.crs| > 0 && Latest(st).status.finished && st.jobs == []
    ensures Scheduled(st) == {n} && !st.hist.landed && !st.hist.kept
  {
    var start := Fresh(name, false);
    ReachableIsClosed(start, RecoversCurrent);
    st := UnstoredScheduling(name, n, Reachable(start, RecoversCurrent));
    es := RunOf(start, RecoversCurrent, st);
  }

  // ---------- one node, scheduled and started ----------

  /** Scheduling n on a fresh CR, everything stored. */
  ghost predicate ScheduledOn(st: State, name: string, n: NodeName) {
    && st.name == name && |st.crs| == 3 && st.pass == Idle
    && st.hist.landed && st.hist.kept && st.hist.landedAt == 1 && Scheduled(st) == {n}
    && st.crs[2] == Cr(true, Printed(Names({n})), Absent, Status(true, false, [], []))
    && st.mem == Memory(true, Some(Names({n})), None)
    && st.jobs == [] && st.claims == [] && st.hist.passes == 0 && st.hist.lives == 0 && st.hist.lifeStart == 0
    && st.hist.lastRead == 0 && st.hist.maxCap == 1 && st.hist.strays == {}
    && st.crs[0] == Fresh(name, false).crs[0]
  }

  lemma ScheduleOne(name: string, n: NodeName, reached: State -> bool, ok: (State, Event) -> bool) returns (st: State)
    requires Closed(reached, ok) && FreeBetweenReads(ok) && reached(Fresh(name, false))
    requires ok(Fresh(name, false), Begin(0, 1))
    ensures reached(st) && ScheduledOn(st, name, n)
  {
    st := Go(reached, ok, Fresh(name, false), Begin(0, 1));
    st := Go(reached, ok, st, NodesListed(Eligible({n})));
    st := Go(reached, ok, st, Written(Accepted));
    st := Go(reached, ok, st, Written(Accepted));
  }

  /** The loop starts n and has nothing else to visit. */
  lemma StartTheNode(reached: State -> bool, ok: (State, Event) -> bool, st: State, n: NodeName, stamp: Stamp)
    returns (st': State)
    requires Closed(reached, ok) && FreeBetweenReads(ok) && reached(st)
    requires st.pass.Choosing? && st.pass.todo == {n} && st.pass.started == [] && st.pass.budget == 1
    requires var job := JobName(st.name, n, stamp); job.Some? && ClaimName(job.value) !in st.claims && |st.crs| > 0
    ensures reached(st') && st'.pass == Choosing(st.pass.copy, 1, {}, [n])
    ensures exists job :: JobName(st.name, n, stamp) == Some(job) && st'.claims == st.claims + [ClaimName(job)]
    ensures |st'.jobs| == |st.jobs| + 1 && st'.jobs[..|st.jobs|] == st.jobs && st'.jobs[|st.jobs|].node == n
    ensures !st'.jobs[|st.jobs|].done
    ensures st'.mem == st.mem && st'.crs == st.crs && st'.hist == st.hist && st'.name == st.name
  {
    st' := Go(reached, ok, st, ClaimAsked(n, stamp, ClaimCreated));
    assert st.pass.todo - {n} == {};
    st' := Go(reached, ok, st', JobAsked(Created));
  }

  ghost predicate StartedOn(st: State, n: NodeName) {
    && |st.crs| == 6 && st.pass == Idle && st.hist.landed && st.hist.landedAt == 1 && Scheduled(st) == {n}
    && st.crs[2] == Cr(true, Printed(Names({n})), Absent, Status(true, false, [], []))
    && Latest(st) == Cr(true, Printed(Names({})), Printed(Names({n})), Status(true, false, [n], []))
    && st.mem == Memory(true, Some(Names({})), Some(Names({n})))
    && |st.jobs| == 1 && st.jobs[0].node == n && !st.jobs[0].done
  }

  /** The pass that started n stores it as running. */
  lemma StoreStarted(reached: State -> bool, ok: (State, Event) -> bool, st: State, n: NodeName) returns (st': State)
    requires Closed(reached, ok) && FreeBetweenReads(ok) && reached(st)
    requires st.hist.landed && OnLatest(st) && |st.crs| == 4 && st.pass.Choosing? && st.pass.todo == {}
    requires st.pass.started == [n]
    requires st.mem.toRun == Some(Names({n})) && st.mem.running.None?
    requires Latest(st) == Cr(true, Printed(Names({n})), Printed(Nil), Status(true, false, [], []))
    ensures reached(st') && st'.pass == Idle && |st'.crs| == 6 && st'.crs[..4] == st.crs
    ensures st'.mem == st.mem.(toRun := Some(Names({})), running := Some(Names({n})))
    ensures Latest(st') == Cr(true, Printed(Names({})), Printed(Names({n})), Status(true, false, [n], []))
    ensures st'.jobs == st.jobs && st'.hist == st.hist && st'.claims == st.claims && st'.name == st.name
  {
    var none: set<NodeName> := {};
    assert AsSet([n]) == {n} && AsSet([]) == none && none + {n} == {n} && {n} - {n} == none && n in {n} && n !in none;
    assert LoopLeftStep(st).mem == st.mem.(toRun := Some(Names({})), running := Some(Names({n})));
    st' := StoreTheRest(reached, ok, st, [n], []);
  }

  /** The first pass over the work queue, up to the end of its loop. */
  lemma FirstLoop(
        st: State, name: string, n: NodeName, stamp: Stamp, reached: State -> bool, ok: (State,
        Event) -> bool) returns (st': State)
    requires Closed(reached, ok) && FreeBetweenReads(ok) && reached(st) && |name| <= 43 && ok(st, Begin(2, 1))
    requires st.name == name && |st.crs| == 3 && st.pass == Idle && st.jobs == [] && st.claims == []
    requires st.mem == FORGOTTEN || st.mem == Memory(true, Some(Names({n})), None)
    requires Latest(st) == Cr(true, Printed(Names({n})), Absent, Status(true, false, [], []))
    ensures reached(st') && OnLatest(st') && |st'.crs| == 4 && st'.crs[..3] == st.crs
    ensures st'.pass.Choosing? && st'.pass.todo == {} && st'.pass.started == [n]
    ensures st'.mem == Memory(st.mem.onRunList, Some(Names({n})), None) && st'.name == name
    ensures Latest(st') == Cr(true, Printed(Names({n})), Printed(Nil), Status(true, false, [], []))
    ensures |st'.jobs| == 1 && st'.jobs[0].node == n && !st'.jobs[0].done
    ensures exists job :: JobName(name, n, stamp) == Some(job) && st'.claims == [ClaimName(job)]
    ensures st'.hist ==
      st.hist.(lastRead := 2, cap := 1, maxCap := Max(st.hist.maxCap, 1), passes := st.hist.passes + 1)
  {
    st' := Go(reached, ok, st, Begin(2, 1));
    st' := Dequeue(reached, ok, st', {});
    assert st'.pass.todo == {n} && st'.pass.budget == 1;
    NamesFit(name, n, stamp);
    st' := StartTheNode(reached, ok, st', n, stamp);
  }

  lemma StartOne(name: string, n: NodeName, stamp: Stamp, st: State, reached: State -> bool, ok: (State, Event) -> bool)
    returns (st': State)
    requires Closed(reached, ok) && FreeBetweenReads(ok) && reached(st) && |name| <= 43
    requires ScheduledOn(st, name, n) && ok(st, Begin(2, 1))
    ensures reached(st') && StartedOn(st', n) && st'.hist.passes == 1
  {
    st' := FirstLoop(st, name, n, stamp, reached, ok);
    assert st'.crs[..3][2] == st.crs[2];
    st' := StoreStarted(reached, ok, st', n);
    assert st'.crs[..4][2] == st.crs[2];
  }

  // ---------- a node both to run and running ----------

  /** The pass that started n stores nothing of it. */
  lemma RefuseStarted(st: State, n: NodeName, reached: State -> bool) returns (st': State)
    requires Closed(reached, RecoversCurrent) && reached(st) && |st.crs| > 0
    requires OnLatest(st) && st.pass.Choosing? && st.pass.todo == {} && st.pass.started == [n]
    requires st.mem.toRun == Some(Names({n})) && st.mem.running.None?
    requires Latest(st) == Cr(true, Printed(Names({n})), Printed(Nil), Status(true, false, [], []))
    ensures reached(st')
    ensures st' == st.(pass := Idle, mem := st.mem.(toRun := Some(Names({})), running := Some(Names({n}))))
  {
    var none: set<NodeName> := {};
    assert AsSet([n]) == {n} && AsSet([]) == none && none + {n} == {n} && {n} - {n} == none && n in {n} && n !in none;
    assert LoopLeftStep(st).mem == st.mem.(toRun := Some(Names({})), running := Some(Names({n})));
    st' := Go(reached, RecoversCurrent, st, LoopLeft);
    st' := Go(reached, RecoversCurrent, st', Written(Refused));
    st' := Go(reached, RecoversCurrent, st', Mirrored([n], []));
    st' := Go(reached, RecoversCurrent, st', Written(Refused));
  }

  /** The queue write is refused, and the next pass stores the running entry only. */
  lemma StoreOneHalf(name: string, n: NodeName, stamp: Stamp, reached: State -> bool) returns (st: State)
    requires |name| <= 43 && Closed(reached, RecoversCurrent) && reached(Fresh(name, false))
    ensures reached(st) && |st.crs| == 5 && st.hist.kept && Scheduled(st) == {n}
    ensures Latest(st) == Cr(true, Printed(Names({n})), Printed(Names({n})), Status(true, false, [], []))
    ensures |st.jobs| == 1 && st.jobs[0].node == n && !st.jobs[0].done
  {
    st := ScheduleOne(name, n, reached, RecoversCurrent);
    st := FirstLoop(st, name, n, stamp, reached, RecoversCurrent);
    st := RefuseStarted(st, n, reached);
    st := Go(reached, RecoversCurrent, st, Begin(3, 1));
    assert {n} - {} == {n};
    st := Dequeue(reached, RecoversCurrent, st, {});
  }

  /** With current recovery reads, a process that dies then is followed by one to which n is both to run and
      running while its Job is open: in later processes the queue need not be a partition. */
  lemma {:induction false} HalfStoredPairIsBoth(name: string, n: NodeName, stamp: Stamp)
    returns (es: seq<Event>, st: State)
    requires |name| <= 43
    ensures st == Exec(Fresh(name, false), es) && Always(Fresh(name, false), es, RecoversCurrent)
    ensures st.hist.kept && Scheduled(st) == {n} && Elements(st.mem.toRun) == Elements(st.mem.running) == {n}
    ensures |st.jobs| == 1 && st.jobs[0].node == n && !st.jobs[0].done
  {
    var start, ok := Fresh(name, false), RecoversCurrent;
    ReachableIsClosed(start, ok);
    st := StoreOneHalf(name, n, stamp, Reachable(start, ok));
    st := Go(Reachable(start, ok), ok, st, Crash);
    st := Go(Reachable(start, ok), ok, st, Begin(4, 1));
    es := RunOf(start, ok, st);
  }

  // ---------- Finished with every node done ----------

  lemma OneNode(name: string, n: NodeName, stamp: Stamp, reached: State -> bool) returns (st: State)
    requires |name| <= 43 && Closed(reached, RecoversCurrent) && reached(Fresh(name, false))
    ensures reached(st) && |st.crs| > 0 && Latest(st).status.finished && st.hist.landed && Scheduled(st) == {n}
    ensures DoneOn(st.jobs, n)
    ensures st.hist.passes == 2
  {
    st := ScheduleOne(name, n, reached, RecoversCurrent);
    st := StartOne(name, n, stamp, st, reached, RecoversCurrent);
    st := Go(reached, RecoversCurrent, st, JobFinished(0));
    assert st.jobs[0].done && st.jobs[0].node == n;
    st := Go(reached, RecoversCurrent, st, Begin(5, 1));
    var none: set<NodeName> := {};
    assert {n} - {n} == none && n in {n} && n !in none;
    st := Dequeue(reached, RecoversCurrent, st, {n});
    st := NothingLeft(reached, RecoversCurrent, st);
  }

  /** The premises of FinishedMeansDone can be met up to Finished: one node is done after two passes. */
  lemma {:induction false} OneNodeDone(name: string, n: NodeName, stamp: Stamp) returns (es: seq<Event>, st: State)
    requires |name| <= 43
    ensures st == Exec(Fresh(name, false), es) && Always(Fresh(name, false), es, RecoversCurrent)
    ensures |st.crs| > 0 && Latest(st).status.finished && st.hist.landed && Scheduled(st) == {n} && DoneOn(st.jobs, n)
    ensures st.hist.passes == 2
  {
    var start := Fresh(name, false);
    ReachableIsClosed(start, RecoversCurrent);
    st := OneNode(name, n, stamp, Reachable(start, RecoversCurrent));
    es := RunOf(start, RecoversCurrent, st);
  }

  // ---------- Finished with a Job still running ----------

  /** An old read brings n back to the to-run entry. */
  lemma StaleLoop(st: State, n: NodeName, reached: State -> bool) returns (st': State)
    requires Closed(reached, RecoversAfterScheduling) && reached(st) && StartedOn(st, n)
    ensures reached(st') && st'.pass == Choosing(Copy(st.crs[2], 2), 0, {n}, [])
    ensures st'.mem == Memory(false, Some(Names({n})), None)
    ensures st'.crs == st.crs && st'.jobs == st.jobs && Scheduled(st') == {n} && st'.hist.landed
    ensures st'.hist.landedAt == 1
  {
    var ok := RecoversAfterScheduling;
    st' := Go(reached, ok, st, Crash);
    st' := Go(reached, ok, st', Begin(2, 0));
    st' := Go(reached, ok, st', JobsListed(JobListFailed));
  }

  /** And its pass leaves the running entry empty. */
  lemma StalePass(st: State, n: NodeName, reached: State -> bool) returns (st': State)
    requires Closed(reached, RecoversAfterScheduling) && reached(st) && StartedOn(st, n)
    ensures reached(st') && st'.mem == Memory(false, Some(Names({n})), Some(Names({}))) && st'.pass == Idle
    ensures st'.crs == st.crs && st'.jobs == st.jobs && Scheduled(st') == {n} && st'.hist.landed
    ensures st'.hist.landedAt == 1
  {
    var ok := RecoversAfterScheduling;
    var none: set<NodeName> := {};
    st' := StaleLoop(st, n, reached);
    assert AsSet([]) == {} && AsSet([n]) == {n} && {n} - none == {n} && none + none == none;
    st' := Go(reached, ok, st', LoopLeft);
    st' := Go(reached, ok, st', Written(Refused));
    st' := Go(reached, ok, st', Mirrored([], [n]));
    st' := Go(reached, ok, st', Written(Refused));
  }

  /** A current pass then stores the empty running entry next to the to-run annotation without n, and the
      next process finds both empty. */
  lemma LoseTheRunningNode(st: State, n: NodeName, reached: State -> bool) returns (st': State)
    requires Closed(reached, RecoversAfterScheduling) && reached(st)
    requires |st.crs| == 6 && st.pass == Idle && st.mem == Memory(false, Some(Names({n})), Some(Names({})))
    requires Latest(st) == Cr(true, Printed(Names({})), Printed(Names({n})), Status(true, false, [n], []))
    requires st.hist.landed && st.hist.landedAt == 1
    ensures reached(st') && |st'.crs| > 0 && Latest(st').status.finished
    ensures st'.jobs == st.jobs && Scheduled(st') == Scheduled(st) && st'.hist.landed
  {
    var ok := RecoversAfterScheduling;
    var none: set<NodeName> := {};
    assert none - none == none && n in {n} && n !in none;
    st' := Go(reached, ok, st, Begin(5, 0));
    st' := Dequeue(reached, ok, st', {});
    st' := Go(reached, ok, st', Crash);
    st' := Go(reached, ok, st', Begin(6, 1));
    st' := Go(reached, ok, st', JobsListed(JobListFailed));
    st' := NothingLeft(reached, ok, st');
  }

  lemma StaleRecovery(name: string, n: NodeName, stamp: Stamp, reached: State -> bool) returns (st: State)
    requires |name| <= 43 && Closed(reached, RecoversAfterScheduling) && reached(Fresh(name, false))
    ensures reached(st) && |st.crs| > 0 && Latest(st).status.finished && st.hist.landed && Scheduled(st) == {n}
    ensures !DoneOn(st.jobs, n)
  {
    st := ScheduleOne(name, n, reached, RecoversAfterScheduling);
    st := StartOne(name, n, stamp, st, reached, RecoversAfterScheduling);
    st := StalePass(st, n, reached);
    st := LoseTheRunningNode(st, n, reached);
  }

  /** A recovery from an old version, though not older than the scheduling, can lose a running node: the CR
      is Finished while the Job of n still runs. So FinishedMeansDone needs current recovery reads. */
  lemma {:induction false} StaleRecoveryFinishesEarly(name: string, n: NodeName, stamp: Stamp)
    returns (es: seq<Event>, st: State)
    requires |name| <= 43
    ensures st == Exec(Fresh(name, false), es) && Always(Fresh(name, false), es, RecoversAfterScheduling)
    ensures |st.crs| > 0 && Latest(st).status.finished && st.hist.landed && Scheduled(st) == {n} && !DoneOn(st.jobs, n)
  {
    var start := Fresh(name, false);
    ReachableIsClosed(start, RecoversAfterScheduling);
    st := StaleRecovery(name, n, stamp, Reachable(start, RecoversAfterScheduling));
    es := RunOf(start, RecoversAfterScheduling, st);
  }

  // ---------- a node lost for good ----------

  /** The process dies before InProgress is stored. */
  lemma ScheduleAndDie(name: string, a: NodeName, reached: State -> bool) returns (st: State)
    requires Closed(reached, ReadsForward) && reached(Fresh(name, false))
    ensures reached(st) && |st.crs| == 2 && st.pass == Idle && st.jobs == [] && st.mem == FORGOTTEN
    ensures st.hist.lastRead == 0
    ensures st.crs[1] == Cr(true, Printed(Names({a})), Absent, Status(false, false, [], []))
  {
    var ok := ReadsForward;
    st := Go(reached, ok, Fresh(name, false), Begin(0, 1));
    st := Go(reached, ok, st, NodesListed(Eligible({a})));
    st := Go(reached, ok, st, Written(Accepted));
    st := Go(reached, ok, st, Crash);
  }

  /** The next process schedules another node. */
  lemma ScheduleTwice(name: string, a: NodeName, b: NodeName, reached: State -> bool) returns (st: State)
    requires Closed(reached, ReadsForward) && reached(Fresh(name, false))
    ensures reached(st) && |st.crs| == 4 && st.pass == Idle && st.hist.landed && st.hist.landedAt == 2
    ensures Scheduled(st) == {b}
    ensures st.crs[1] == Cr(true, Printed(Names({a})), Absent, Status(false, false, [], [])) && st.jobs == []
    ensures st.mem == FORGOTTEN
    ensures st.hist.lastRead == 0
  {
    var ok := ReadsForward;
    st := ScheduleAndDie(name, a, reached);
    st := Go(reached, ok, st, Begin(1, 1));
    st := Go(reached, ok, st, NodesListed(Eligible({b})));
    st := Go(reached, ok, st, Written(Accepted));
    st := Go(reached, ok, st, Written(Accepted));
    st := Go(reached, ok, st, Crash);
  }

  lemma OlderRecovery(name: string, a: NodeName, b: NodeName, reached: State -> bool) returns (st: State)
    requires Closed(reached, ReadsForward) && reached(Fresh(name, false)) && a != b
    ensures reached(st) && st.hist.landed && Scheduled(st) == {b} && st.mem.toRun == Some(Names({a})) && st.jobs == []
  {
    st := ScheduleTwice(name, a, b, reached);
    st := Go(reached, ReadsForward, st, Begin(1, 1));
    st := Go(reached, ReadsForward, st, NodesListed(NodeListFailed));
    st := Go(reached, ReadsForward, st, Begin(1, 1));
  }

  /** A recovery from a version older than the stored scheduling loses a node, even when reads never go back:
      b is scheduled, and neither to run nor started. So NoNodeIsLost needs its premise. */
  lemma {:induction false} OlderRecoveryLosesANode(name: string, a: NodeName, b: NodeName)
    returns (es: seq<Event>, st: State)
    requires a != b
    ensures st == Exec(Fresh(name, false), es) && Always(Fresh(name, false), es, ReadsForward)
    ensures st.hist.landed && b in Scheduled(st) && st.mem.toRun.Some? && b !in Elements(st.mem.toRun)
    ensures !CreatedOn(st.jobs, b)
  {
    var start := Fresh(name, false);
    ReachableIsClosed(start, ReadsForward);
    st := OlderRecovery(name, a, b, Reachable(start, ReadsForward));
    es := RunOf(start, ReadsForward, st);
  }

  // ---------- a node started twice ----------

  /** A process that recovered from the CR runs n. */
  lemma RecoverAndStart(name: string, n: NodeName, stamp: Stamp, reached: State -> bool) returns (st: State)
    requires |name| <= 43 && Closed(reached, Anything) && reached(Fresh(name, false))
    ensures reached(st) && st.name == name && st.pass == Idle && |st.crs| == 6 && st.crs[0] == Fresh(name, false).crs[0]
    ensures st.mem == Memory(false, Some(Names({})), Some(Names({n})))
    ensures st.hist.lifeStart == 0 && |st.jobs| == 1 && st.jobs[0].node == n
    ensures exists job :: JobName(name, n, stamp) == Some(job) && st.claims == [ClaimName(job)]
  {
    st := ScheduleOne(name, n, reached, Anything);
    var first := st.crs[0];
    st := Go(reached, Anything, st, Crash);
    st := FirstLoop(st, name, n, stamp, reached, Anything);
    assert st.crs[..3][0] == first;
    st := StoreStarted(reached, Anything, st, n);
    assert st.crs[..4][0] == first;
  }

  /** Reading the version from before the scheduling, it schedules n again. */
  lemma ScheduleAgain(st: State, n: NodeName, reached: State -> bool) returns (st': State)
    requires Closed(reached, Anything) && reached(st) && st.pass == Idle && |st.crs| == 6
    requires st.crs[0] == Fresh(st.name, false).crs[0]
    requires st.mem == Memory(false, Some(Names({})), Some(Names({n})))
    ensures reached(st') && st'.pass == Idle && st'.mem == Memory(true, Some(Names({n})), Some(Names({n})))
    ensures st'.crs == st.crs && st'.name == st.name
    ensures st'.jobs == st.jobs && st'.claims == st.claims && st'.hist.lifeStart == st.hist.lifeStart
  {
    st' := Go(reached, Anything, st, Begin(0, 2));
    st' := Go(reached, Anything, st', NodesListed(Eligible({n})));
    st' := Go(reached, Anything, st', Written(Refused));
    st' := Go(reached, Anything, st', Written(Refused));
  }

  lemma QueueOldVersion(st: State, n: NodeName, reached: State -> bool) returns (st': State)
    requires Closed(reached, Anything) && reached(st) && st.pass == Idle && |st.crs| == 6
    requires st.crs[0] == Fresh(st.name, false).crs[0]
    requires st.mem == Memory(true, Some(Names({n})), Some(Names({n})))
    ensures reached(st') && st'.pass == Choosing(Copy(st.crs[0], 0), 1, {n}, []) && st'.crs == st.crs
    ensures st'.name == st.name
    ensures st'.jobs == st.jobs && st'.claims == st.claims && st'.hist.lifeStart == st.hist.lifeStart
  {
    st' := Go(reached, Anything, st, Begin(0, 2));
    st' := Go(reached, Anything, st', JobsListed(JobListFailed));
  }

  lemma StartAgain(name: string, n: NodeName, first: Stamp, second: Stamp, reached: State -> bool) returns (st: State)
    requires |name| <= 43 && first != second && Closed(reached, Anything) && reached(Fresh(name, false))
    ensures reached(st) && st.hist.lifeStart == 0 && |st.jobs| == 2 && st.jobs[0].node == n && st.jobs[1].node == n
  {
    st := RecoverAndStart(name, n, first, reached);
    st := ScheduleAgain(st, n, reached);
    st := QueueOldVersion(st, n, reached);
    NamesFit(name, n, second);
    NamesCollideExactly(name, n, first, n, second);
    var job :| JobName(name, n, first) == Some(job) && st.claims == [ClaimName(job)];
    if ClaimName(JobName(name, n, second).value) in st.claims {
      ClaimNameInjective(job, JobName(name, n, second).value);
      assert false;
    }
    st := StartTheNode(reached, Anything, st, n, second);
  }

  /** When reads go back, one process can start a node twice: a process that recovered reads the version from
      before the scheduling and schedules again. So AtMostOneJobPerNode needs its premise. */
  lemma {:induction false} GoingBackStartsTwice(name: string, n: NodeName, first: Stamp, second: Stamp)
    returns (es: seq<Event>, st: State)
    requires |name| <= 43 && first != second
    ensures st == Exec(Fresh(name, false), es)
    ensures st.hist.lifeStart == 0 && |st.jobs| == 2 && st.jobs[0].node == n && st.jobs[1].node == n
  {
    var start := Fresh(name, false);
    ReachableIsClosed(start, Anything);
    st := StartAgain(name, n, first, second, Reachable(start, Anything));
    es := RunOf(start, Anything, st);
  }

  // ---------- a create that is stored but answered with an error ----------

  /** The Job of n exists, and n is still to run. */
  lemma LoseTheReply(name: string, n: NodeName, stamp: Stamp, reached: State -> bool) returns (st: State)
    requires |name| <= 43 && Closed(reached, ReadsForward) && reached(Fresh(name, false))
    ensures reached(st) && st.name == name && st.pass.Choosing? && OnLatest(st) && Latest(st).annotated
    ensures st.pass.todo == {} && st.pass.started == []
    ensures st.mem == Memory(true, Some(Names({n})), None) && !Latest(st).status.finished
    ensures st.hist.lifeStart == 0 && st.hist.landed && st.hist.maxCap == 1 && st.hist.strays == {0}
    ensures st.hist.lastRead < |st.crs|
    ensures |st.jobs| == 1 && st.jobs[0].node == n && !st.jobs[0].done
    ensures exists job :: JobName(name, n, stamp) == Some(job) && st.claims == [ClaimName(job)]
  {
    var ok := ReadsForward;
    st := ScheduleOne(name, n, reached, ok);
    st := Go(reached, ok, st, Begin(2, 1));
    st := Dequeue(reached, ok, st, {});
    NamesFit(name, n, stamp);
    st := Go(reached, ok, st, ClaimAsked(n, stamp, ClaimCreated));
    st := Go(reached, ok, st, JobAsked(CreateReplyLost));
    assert {n} - {n} == {};
  }

  lemma StartDespiteJob(name: string, n: NodeName, first: Stamp, second: Stamp, reached: State -> bool)
    returns (st: State)
    requires |name| <= 43 && first != second && Closed(reached, ReadsForward) && reached(Fresh(name, false))
    ensures reached(st) && st.hist.lifeStart == 0 && st.hist.maxCap == 1 && st.hist.strays == {0}
    ensures |st.jobs| == 2 && st.jobs[0].node == n && st.jobs[1].node == n && !st.jobs[0].done && !st.jobs[1].done
  {
    var ok := ReadsForward;
    st := LoseTheReply(name, n, first, reached);
    var none: set<NodeName> := {};
    assert AsSet([]) == none && none + none == none && {n} - none == {n} && AsSet([n]) == {n};
    assert LoopLeftStep(st).mem == Memory(true, Some(Names({n})), Some(Names({})));
    st := StoreTheRest(reached, ok, st, [], [n]);
    st := AnotherPass(st, n, reached);
    OtherStampIsNew(name, n, first, second, st.claims);
    st := StartTheNode(reached, ok, st, n, second);
  }

  lemma AnotherPass(st: State, n: NodeName, reached: State -> bool) returns (st': State)
    requires Closed(reached, ReadsForward) && reached(st) && |st.crs| > 0 && st.pass == Idle
    requires !Latest(st).status.finished && st.hist.lastRead < |st.crs|
    requires st.mem == Memory(true, Some(Names({n})), Some(Names({})))
    requires st.hist.maxCap == 1
    ensures reached(st') && st'.pass.Choosing? && st'.pass.todo == {n} && st'.pass.started == [] && st'.pass.budget == 1
    ensures st'.crs == st.crs
    ensures st'.jobs == st.jobs && st'.claims == st.claims && st'.name == st.name
    ensures st'.hist.lifeStart == st.hist.lifeStart && st'.hist.maxCap == 1 && st'.hist.strays == st.hist.strays
  {
    st' := Go(reached, ReadsForward, st, Begin(|st.crs| - 1, 1));
    st' := Go(reached, ReadsForward, st', JobsListed(JobListFailed));
  }

  lemma OtherStampIsNew(name: string, n: NodeName, first: Stamp, second: Stamp, claims: seq<string>)
    requires |name| <= 43 && first != second
    requires exists job :: JobName(name, n, first) == Some(job) && claims == [ClaimName(job)]
    ensures JobName(name, n, second).Some? && ClaimName(JobName(name, n, second).value) !in claims
  {
    NamesFit(name, n, second);
    NamesCollideExactly(name, n, first, n, second);
    if ClaimName(JobName(name, n, second).value) in claims {
      ClaimNameInjective(JobName(name, n, first).value, JobName(name, n, second).value);
      assert false;
    }
  }

  lemma BothOpen(jobs: seq<Job>)
    requires |jobs| == 2 && !jobs[0].done && !jobs[1].done
    ensures |OpenJobs(jobs)| == 2
  {
    assert OpenJobs(jobs) == {0, 1};
  }

  /** A Job whose creation was stored but answered with an error gets a second one on its node, and both
      are open at concurrency 1: strays are the exception AtMostOneJobPerNode makes, and they reach the
      bound of OpenJobsNeverExceedCap. */
  lemma {:induction false} LostReplyStartsTwice(name: string, n: NodeName, first: Stamp, second: Stamp)
    returns (es: seq<Event>, st: State)
    requires |name| <= 43 && first != second
    ensures st == Exec(Fresh(name, false), es) && Always(Fresh(name, false), es, ReadsForward)
    ensures st.hist.lifeStart == 0 && |st.jobs| == 2 && st.jobs[0].node == n && st.jobs[1].node == n
    ensures st.hist.strays == {0} && st.hist.maxCap == 1 && |OpenJobs(st.jobs)| == st.hist.maxCap + |st.hist.strays|
  {
    var start := Fresh(name, false);
    ReachableIsClosed(start, ReadsForward);
    st := StartDespiteJob(name, n, first, second, Reachable(start, ReadsForward));
    es := RunOf(start, ReadsForward, st);
    BothOpen(st.jobs);
  }

  // ---------- a Job of an earlier process ----------

  /** Two nodes are scheduled, n is started, and the process dies before it stores that. */
  ghost predicate StartedAndDied(st: State, name: string, m: NodeName, n: NodeName, stamp: Stamp) {
    && st.name == name && st.pass == Idle && |st.crs| == 4 && st.mem == FORGOTTEN
    && Latest(st) == Cr(true, Printed(Names({m, n})), Printed(Nil), Status(true, false, [], []))
    && |st.jobs| == 1 && st.jobs[0].node == n && st.jobs[0].done
    && st.hist.lifeStart == 1 && st.hist.lastRead == 0 && st.hist.maxCap == 1 && st.hist.strays == {}
    && st.hist.landed
    && exists job :: JobName(name, n, stamp) == Some(job) && st.claims == [ClaimName(job)]
  }

  lemma ScheduleTwo(name: string, m: NodeName, n: NodeName, reached: State -> bool) returns (st: State)
    requires Closed(reached, ReadsForward) && reached(Fresh(name, false))
    ensures reached(st) && st.name == name && st.pass == Idle && |st.crs| == 3 && st.jobs == [] && st.claims == []
    ensures st.mem == Memory(true, Some(Names({m, n})), None) && st.hist.landed
    ensures Latest(st) == Cr(true, Printed(Names({m, n})), Absent, Status(true, false, [], []))
    ensures st.hist.lastRead == 0 && st.hist.maxCap == 1 && st.hist.strays == {}
  {
    var ok := ReadsForward;
    st := Go(reached, ok, Fresh(name, false), Begin(0, 1));
    st := Go(reached, ok, st, NodesListed(Eligible({m, n})));
    st := Go(reached, ok, st, Written(Accepted));
    st := Go(reached, ok, st, Written(Accepted));
  }

  lemma StartAndDie(name: string, m: NodeName, n: NodeName, stamp: Stamp, reached: State -> bool) returns (st: State)
    requires |name| <= 43 && Closed(reached, ReadsForward) && reached(Fresh(name, false))
    ensures reached(st) && StartedAndDied(st, name, m, n, stamp)
  {
    var ok := ReadsForward;
    st := ScheduleTwo(name, m, n, reached);
    st := Go(reached, ok, st, Begin(2, 1));
    st := Dequeue(reached, ok, st, {});
    NamesFit(name, n, stamp);
    st := Go(reached, ok, st, ClaimAsked(n, stamp, ClaimCreated));
    st := Go(reached, ok, st, JobAsked(Created));
    st := Go(reached, ok, st, Crash);
    st := Go(reached, ok, st, JobFinished(0));
  }

  /** The next process starts n again and stores it as running. */
  lemma RestartTheNode(
        name: string, m: NodeName, n: NodeName, first: Stamp, second: Stamp, st: State, reached: State -> bool)
    returns (st': State)
    requires |name| <= 43 && m != n && first != second && Closed(reached, ReadsForward) && reached(st)
    requires StartedAndDied(st, name, m, n, first)
    ensures reached(st') && st'.pass.Choosing? && OnLatest(st') && |st'.crs| == 4 && st'.name == name
    ensures Latest(st') == Latest(st) && st'.pass.started == [n] && st'.pass.budget == 1
    ensures st'.mem == Memory(false, Some(Names({m, n})), Some(Nil))
    ensures |st'.jobs| == 2 && st'.jobs[0].node == n && st'.jobs[0].done && !st'.jobs[1].done
    ensures st'.hist.lifeStart == 1 && st'.hist.maxCap == 1 && st'.hist.strays == {} && st'.hist.lastRead == 3
    ensures st'.hist.landed
    ensures forall t: Stamp | JobName(name, m, t).Some? && t != first && t != second ::
      ClaimName(JobName(name, m, t).value) !in st'.claims
  {
    var ok := ReadsForward;
    st' := Go(reached, ok, st, Begin(3, 1));
    st' := Go(reached, ok, st', JobsListed(JobListFailed));
    OtherStampIsNew(name, n, first, second, st'.claims);
    st' := Go(reached, ok, st', ClaimAsked(n, second, ClaimCreated));
    st' := Go(reached, ok, st', JobAsked(Created));
    forall t: Stamp | JobName(name, m, t).Some? && t != first && t != second
      ensures ClaimName(JobName(name, m, t).value) !in st'.claims
    {
      DifferentStamp(name, m, t, n, first);
      DifferentStamp(name, m, t, n, second);
    }
  }

  lemma DifferentStamp(name: string, m: NodeName, t: Stamp, n: NodeName, u: Stamp)
    requires |name| <= 43 && t != u
    ensures JobName(name, m, t).Some? && JobName(name, n, u).Some?
    ensures ClaimName(JobName(name, m, t).value) != ClaimName(JobName(name, n, u).value)
  {
    NamesFit(name, m, t);
    NamesFit(name, n, u);
    NamesCollideExactly(name, m, t, n, u);
    if ClaimName(JobName(name, m, t).value) == ClaimName(JobName(name, n, u).value) {
      ClaimNameInjective(JobName(name, m, t).value, JobName(name, n, u).value);
      assert false;
    }
  }

  /** Its next pass sees the old Job of n done, takes n for done, and starts m. */
  lemma StartTheOther(name: string, m: NodeName, n: NodeName, third: Stamp, st: State, reached: State -> bool)
    returns (st': State)
    requires |name| <= 43 && m != n && Closed(reached, ReadsForward) && reached(st)
    requires st.pass == Idle && |st.crs| > 0 && st.name == name && st.hist.lastRead < |st.crs|
    requires Latest(st).annotated && Latest(st).status.inProgress && !Latest(st).status.finished
    requires Latest(st).running == Printed(Names({n}))
    requires st.mem == Memory(false, Some(Names({m})), Some(Names({n})))
    requires |st.jobs| == 2 && st.jobs[0].node == n && st.jobs[0].done && !st.jobs[1].done
    requires ClaimIsNew(st, m, third) && st.hist.lifeStart == 1 && st.hist.maxCap == 1 && st.hist.strays == {}
    ensures reached(st') && |st'.jobs| == 3 && !st'.jobs[1].done && !st'.jobs[2].done && st'.jobs[0].done
    ensures st'.hist.lifeStart == 1 && st'.hist.maxCap == 1 && st'.hist.strays == {}
  {
    var none: set<NodeName> := {};
    st' := Go(reached, ReadsForward, st, Begin(|st.crs| - 1, 1));
    assert {n} - {n} == none && n in {n} && n !in none;
    st' := Dequeue(reached, ReadsForward, st', {n});
    assert st'.pass.todo == {m} && st'.pass.budget == 1;
    NamesFit(name, m, third);
    st' := StartTheNode(reached, ReadsForward, st', m, third);
  }

  lemma EarlierJob(
        name: string, m: NodeName, n: NodeName, first: Stamp, second: Stamp, third: Stamp, reached: State -> bool)
    returns (st: State)
    requires |name| <= 43 && m != n && first != second && third != first && third != second
    requires Closed(reached, ReadsForward) && reached(Fresh(name, false))
    ensures reached(st) && |st.jobs| == 3 && !st.jobs[1].done && !st.jobs[2].done && st.jobs[0].done
    ensures st.hist.lifeStart == 1 && st.hist.maxCap == 1 && st.hist.strays == {}
  {
    st := StartAndDie(name, m, n, first, reached);
    st := RestartTheNode(name, m, n, first, second, st, reached);
    assert AsSet([n]) == {n} && AsSet([m]) == {m} && {m, n} - {n} == {m} && {} + {n} == {n};
    assert LoopLeftStep(st).mem == Memory(false, Some(Names({m})), Some(Names({n})));
    NamesFit(name, m, third);
    st := StoreTheRest(reached, ReadsForward, st, [n], [m]);
    st := StartTheOther(name, m, n, third, st, reached);
  }

  lemma TwoOpenOneOther(st: State)
    requires |st.jobs| == 3 && st.jobs[0].done && !st.jobs[1].done && !st.jobs[2].done
    requires st.hist.lifeStart == 1 && st.hist.strays == {}
    ensures |OpenJobs(st.jobs)| == 2 && |Others(st)| == 1
  {
    assert OpenJobs(st.jobs) == {1, 2};
    assert Others(st) == {0};
  }

  /** A done Job of an earlier process makes its node's new Job look done: two Jobs are open at
      concurrency 1, which is the bound of OpenJobsNeverExceedCap with one Job the process does not know. */
  lemma {:induction false} EarlierJobFreesItsNode(
      name: string, m: NodeName, n: NodeName, first: Stamp, second: Stamp, third: Stamp)
    returns (es: seq<Event>, st: State)
    requires |name| <= 43 && m != n && first != second && third != first && third != second
    ensures st == Exec(Fresh(name, false), es) && Always(Fresh(name, false), es, ReadsForward)
    ensures st.hist.lifeStart == 1 && st.hist.strays == {} && st.hist.maxCap == 1
    ensures |OpenJobs(st.jobs)| == st.hist.maxCap + |Others(st)| && |Others(st)| == 1
  {
    var start := Fresh(name, false);
    ReachableIsClosed(start, ReadsForward);
    st := EarlierJob(name, m, n, first, second, third, Reachable(start, ReadsForward));
    es := RunOf(start, ReadsForward, st);
    TwoOpenOneOther(st);
  }

  // ---------- panics ----------

  ghost predicate NobodyKillsIt(st: State, e: Event) {
    !e.Crash?
  }

  lemma NilMap(name: string, reached: State -> bool) returns (st: State)
    requires Closed(reached, NobodyKillsIt) && reached(Fresh(name, false))
    ensures reached(st) && st.hist.lives == 1
  {
    var ok := NobodyKillsIt;
    st := Go(reached, ok, Fresh(name, false), Begin(0, 1));
    st := Go(reached, ok, st, NodesListed(NodeListFailed));
    st := Go(reached, ok, st, Begin(0, 1));
    st := Go(reached, ok, st, JobsListed(JobListFailed));
    assert AsSet([]) == {};
    st := Go(reached, ok, st, LoopLeft);
  }

  /** Two failed lists in a row, of nodes and then of Jobs, end a process nobody killed. */
  lemma {:induction false} FailedListsPanic(name: string) returns (es: seq<Event>, st: State)
    ensures st == Exec(Fresh(name, false), es) && Always(Fresh(name, false), es, NobodyKillsIt)
    ensures st.hist.lives == 1
  {
    var start := Fresh(name, false);
    ReachableIsClosed(start, NobodyKillsIt);
    st := NilMap(name, Reachable(start, NobodyKillsIt));
    es := RunOf(start, NobodyKillsIt, st);
  }

  lemma ScheduleLongName(name: string, n: NodeName, reached: State -> bool) returns (st: State)
    requires Closed(reached, NobodyKillsIt) && reached(Fresh(name, false))
    ensures reached(st) && ScheduledOn(st, name, n)
  {
    var ok := NobodyKillsIt;
    st := Go(reached, ok, Fresh(name, false), Begin(0, 1));
    st := Go(reached, ok, st, NodesListed(Eligible({n})));
    st := Go(reached, ok, st, Written(Accepted));
    st := Go(reached, ok, st, Written(Accepted));
  }

  lemma LongName(name: string, n: NodeName, stamp: Stamp, reached: State -> bool) returns (st: State)
    requires |name| > 43 && Closed(reached, NobodyKillsIt) && reached(Fresh(name, false))
    ensures reached(st) && st.hist.lives == 1 && st.jobs == [] && |st.crs| > 0
    ensures Latest(st).toRun == Printed(Names({n}))
  {
    var ok := NobodyKillsIt;
    st := ScheduleLongName(name, n, reached);
    st := Go(reached, ok, st, Begin(2, 1));
    st := Go(reached, ok, st, JobsListed(JobListFailed));
    NamesFit(name, n, stamp);
    st := Go(reached, ok, st, ClaimAsked(n, stamp, NoTemplate));
  }

  /** So does a CR whose name has more than 43 characters, with its node still to run in the CR. */
  lemma {:induction false} LongNamePanics(name: string, n: NodeName, stamp: Stamp) returns (es: seq<Event>, st: State)
    requires |name| > 43
    ensures st == Exec(Fresh(name, false), es) && Always(Fresh(name, false), es, NobodyKillsIt)
    ensures st.hist.lives == 1 && st.jobs == [] && |st.crs| > 0 && Latest(st).toRun == Printed(Names({n}))
  {
    var start := Fresh(name, false);
    ReachableIsClosed(start, NobodyKillsIt);
    st := LongName(name, n, stamp, Reachable(start, NobodyKillsIt));
    es := RunOf(start, NobodyKillsIt, st);
  }
}
