/**
 The premises on reads are exact. For each of them: in a state reached so far under the premise, reading a
 given version is allowed by it if and only if nothing that can follow, with reads that are beyond
 suspicion from then on, breaks the result.
 */
module Exactness {
  import opened Wrappers
  import opened Codec
  import opened Naming
  import opened Protocol
  import opened Phases
  import opened Coverage
  import opened Lifetimes
  import opened Runs

  // ---------- letting the rest of a pass fail ----------

  /** A step that changes nothing outside the pass: skipping a node, leaving the loop, mirroring, a refused write. */
  predicate IsQuiet(e: Event) {
    match e
    case ClaimAsked(_, _, claim) => claim.NoTemplate?
    case LoopLeft => true
    case Mirrored(_, _) => true
    case Written(write) => write.Refused?
    case _ => false
  }

  ghost predicate AllowsQuiet(ok: (State, Event) -> bool) {
    forall s: State, e: Event | IsQuiet(e) :: ok(s, e)
  }

  const SOME_STAMP: Stamp := "20060102150405"

  /** Every node left is skipped, because its template cannot be read. */
  lemma {:induction false} SkipTheRest(st: State, reached: State -> bool, ok: (State, Event) -> bool)
    returns (st': State)
    requires Closed(reached, ok) && AllowsQuiet(ok) && reached(st) && |st.crs| > 0 && st.pass.Choosing?
    requires |st.name| <= 43 || st.pass.budget <= |st.pass.started|
    ensures reached(st') && st' == st.(pass := st'.pass) && st'.pass.Choosing? && Enabled(st', LoopLeft)
    ensures st'.pass.copy == st.pass.copy && st'.pass.started == st.pass.started
    decreases |st.pass.todo|
  {
    if st.pass.todo == {} || st.pass.budget <= |st.pass.started| {
      st' := st;
    } else {
      var n :| n in st.pass.todo;
      NamesFit(st.name, n, SOME_STAMP);
      st' := Go(reached, ok, st, ClaimAsked(n, SOME_STAMP, NoTemplate));
      st' := SkipTheRest(st', reached, ok);
    }
  }

  lemma RefusedStatus(st: State, reached: State -> bool, ok: (State, Event) -> bool) returns (st': State)
    requires Closed(reached, ok) && AllowsQuiet(ok) && reached(st) && |st.crs| > 0 && st.pass.Mirroring?
    ensures reached(st') && st' == st.(pass := Idle)
  {
    var current := Enumeration(Elements(st.pass.copy.cr.running.Parsed()));
    var outstanding := Enumeration(Elements(st.pass.copy.cr.toRun.Parsed()));
    st' := Go(reached, ok, st, Mirrored(current, outstanding));
    st' := Go(reached, ok, st', Written(Refused));
  }

  /** The loop ends and nothing is written: the started nodes have moved in memory, and that is all. */
  lemma EndQuietly(st: State, reached: State -> bool, ok: (State, Event) -> bool) returns (st': State)
    requires Closed(reached, ok) && AllowsQuiet(ok) && reached(st) && |st.crs| > 0
    requires st.pass.Choosing? && st.pass.copy.cr.annotated && Enabled(st, LoopLeft)
    ensures reached(st') && st' == st.(pass := Idle, mem := LoopLeftStep(st).mem)
  {
    st' := Go(reached, ok, st, LoopLeft);
    if st'.pass.WritingQueues? {
      st' := Go(reached, ok, st', Written(Refused));
    }
    st' := RefusedStatus(st', reached, ok);
  }

  // ---------- no node is lost, exactly ----------

  lemma {:induction false} StaysKept(name: string, annotated: bool, es: seq<Event>, e: Event, fs: seq<Event>)
    requires Always(Fresh(name, annotated), es, RecoversKept) && RecoversKept(Exec(Fresh(name, annotated), es), e)
    requires Always(Step(Exec(Fresh(name, annotated), es), e), fs, RecoversAfterScheduling)
    ensures NothingLost(Exec(Step(Exec(Fresh(name, annotated), es), e), fs))
  {
    var start := Fresh(name, annotated);
    ExecOne(start, es, e);
    AlwaysOneMore(start, es, e, RecoversKept);
    KeptSinceScheduling(name, annotated, es + [e], fs);
    LostRun(name, annotated, es + [e] + fs);
    ExecConcat(start, es + [e], fs);
  }

  /** The to-run entry a recovery loads is complete exactly when nothing is lost whatever follows. */
  lemma {:induction false} KeptExactly(name: string, annotated: bool, es: seq<Event>, st: State, v: nat, cap: int)
    requires Always(Fresh(name, annotated), es, RecoversKept) && st == Exec(Fresh(name, annotated), es)
    requires st.hist.landed && LoadsToRun(st, Begin(v, cap)) && st.pass.Idle?
    ensures RecoversKept(st, Begin(v, cap)) <==>
      forall fs | Always(Step(st, Begin(v, cap)), fs, RecoversAfterScheduling) ::
        NothingLost(Exec(Step(st, Begin(v, cap)), fs))
  {
    var e := Begin(v, cap);
    if RecoversKept(st, e) {
      forall fs | Always(Step(st, e), fs, RecoversAfterScheduling) ensures NothingLost(Exec(Step(st, e), fs)) {
        StaysKept(name, annotated, es, e, fs);
      }
    } else {
      LosesAtOnce(st, e);
      ReachableIsClosed(Step(st, e), RecoversAfterScheduling);
      var fs := RunOf(Step(st, e), RecoversAfterScheduling, Step(st, e));
    }
  }

  lemma LosesAtOnce(st: State, e: Event)
    requires Enabled(st, e) && !RecoversKept(st, e)
    ensures !NothingLost(Step(st, e))
  {
  }

  // ---------- Finished means done, exactly ----------

  /** A pass that starts nothing and whose writes are all refused leaves the store alone. */
  lemma IdlePass(st: State, reached: State -> bool) returns (st': State)
    requires Closed(reached, RecoversCurrent) && reached(st) && |st.crs| > 0
    requires st.pass.ListingJobs? && (|st.name| <= 43 || st.pass.cap <= 0)
    ensures reached(st') && st'.pass == Idle && st'.mem == st.mem.(running := Some(Names(Elements(st.mem.running))))
    ensures st'.crs == st.crs && st'.jobs == st.jobs && st'.hist == st.hist
  {
    st' := Go(reached, RecoversCurrent, st, JobsListed(DoneSeen({})));
    WithoutNothing(st.mem.running);
    if st'.pass.WritingDequeue? {
      st' := Go(reached, RecoversCurrent, st', Written(Refused));
    }
    st' := IdleLoop(st', reached);
  }

  lemma IdleLoop(st: State, reached: State -> bool) returns (st': State)
    requires Closed(reached, RecoversCurrent) && reached(st) && |st.crs| > 0
    requires st.pass.Choosing? && st.pass.started == [] && st.pass.copy.cr.annotated
    requires |st.name| <= 43 || st.pass.budget <= 0
    ensures reached(st') && st' == st.(pass := Idle, mem := st.mem.(running := Some(Names(Elements(st.mem.running)))))
  {
    st' := SkipTheRest(st, reached, RecoversCurrent);
    WithoutNothing(st.mem.toRun);
    assert AsSet([]) == {} && Elements(st.mem.running) + {} == Elements(st.mem.running);
    st' := EndQuietly(st', reached, RecoversCurrent);
  }

  /** The next pass reads the latest version and stores the running entry beside a to-run annotation that
      does not make up for it. */
  lemma StoresUncovered(st: State, n: NodeName, reached: State -> bool) returns (st': State)
    requires Closed(reached, RecoversCurrent) && reached(st) && AccountedNow(st) && st.hist.kept
    requires st.pass == Idle && TakesQueueBranch(st, |st.crs| - 1) && st.mem.running.Some?
    requires st.mem.running.value.Names?
    requires n in Scheduled(st) && !DoneOn(st.jobs, n)
    requires n !in Elements(Latest(st).toRun.Parsed()) && n !in Elements(st.mem.running)
    ensures reached(st') && !Accounted(st')
  {
    st' := Go(reached, RecoversCurrent, st, Begin(|st.crs| - 1, 0));
    WithoutNothing(st.mem.running);
    assert Latest(st).running != Printed(st.mem.running.value);
    st' := Go(reached, RecoversCurrent, st', JobsListed(DoneSeen({})));
    st' := Go(reached, RecoversCurrent, st', Written(Accepted));
    assert !Covered(st', Latest(st').toRun.Parsed(), Latest(st').running.Parsed());
  }

  /** A recovery that will not cover a node in memory, or not beside the stored to-run annotation, can go wrong. */
  lemma UncoveredGoesWrong(st: State, e: Event, reached: State -> bool) returns (st': State)
    requires Sound(st) && CoverInv(st) && st.pass == Idle && LoadsToRun(st, e) && !RecoversCovered(st, e)
    requires |st.name| <= 43 || e.cap <= 0
    requires Closed(reached, RecoversCurrent) && reached(Step(st, e))
    ensures reached(st') && !Accounted(st')
  {
    st' := Step(st, e);
    var m := Recovered(st.mem, st.crs[e.version]);
    assert st'.mem == m && Scheduled(st') == Scheduled(st) && st'.jobs == st.jobs && st'.crs == st.crs;
    if Covered(st, Latest(st).toRun.Parsed(), m.running) {
      assert !Accounted(st');
    } else {
      var n :| n in Scheduled(st) &&
        !(n in Elements(Latest(st).toRun.Parsed()) || n in Elements(m.running) || DoneOn(st.jobs, n));
      st' := IdlePass(st', reached);
      assert Scheduled(st') == Scheduled(st) && st'.hist.kept;
      assert Latest(st) == st.crs[|st.crs| - 1] && Rank(st.crs[e.version].status) <= Rank(Latest(st).status);
      if Accounted(st') { st' := StoresUncovered(st', n, reached); }
    }
  }

  lemma {:induction false} StaysAccounted(name: string, annotated: bool, es: seq<Event>, e: Event, fs: seq<Event>)
    requires Always(Fresh(name, annotated), es, RecoversCovered) && RecoversCovered(Exec(Fresh(name, annotated), es), e)
    requires Always(Step(Exec(Fresh(name, annotated), es), e), fs, RecoversCurrent)
    ensures Accounted(Exec(Step(Exec(Fresh(name, annotated), es), e), fs))
  {
    var start := Fresh(name, annotated);
    ExecOne(start, es, e);
    AlwaysOneMore(start, es, e, RecoversCovered);
    CoverRun(name, annotated, es + [e]);
    CurrentFrom(name, annotated, es + [e], fs);
  }

  /** What a recovery loads covers the scheduled nodes, alone and beside the stored to-run annotation, exactly
      when every node stays accounted for whatever follows, with current recovery reads from then on. The
      concurrency read does not matter, except that a positive one over a CR name that is too long may end
      the process before anything goes wrong. */
  lemma {:induction false} CoverageExactly(name: string, annotated: bool, es: seq<Event>, st: State, v: nat, cap: int)
    requires Always(Fresh(name, annotated), es, RecoversCovered) && st == Exec(Fresh(name, annotated), es)
    requires st.hist.kept && LoadsToRun(st, Begin(v, cap)) && st.pass == Idle && st.name == name
    ensures RecoversCovered(st, Begin(v, cap)) ==>
      forall fs | Always(Step(st, Begin(v, cap)), fs, RecoversCurrent) :: Accounted(Exec(Step(st, Begin(v, cap)), fs))
    ensures !RecoversCovered(st, Begin(v, cap)) && (|name| <= 43 || cap <= 0) ==>
      exists fs | Always(Step(st, Begin(v, cap)), fs, RecoversCurrent) :: !Accounted(Exec(Step(st, Begin(v, cap)), fs))
  {
    var e := Begin(v, cap);
    if RecoversCovered(st, e) {
      forall fs | Always(Step(st, e), fs, RecoversCurrent) ensures Accounted(Exec(Step(st, e), fs)) {
        StaysAccounted(name, annotated, es, e, fs);
      }
    } else if |name| <= 43 || cap <= 0 {
      SoundRun(name, annotated, es);
      CoverRun(name, annotated, es);
      ReachableIsClosed(Step(st, e), RecoversCurrent);
      var bad := UncoveredGoesWrong(st, e, Reachable(Step(st, e), RecoversCurrent));
      var fs := RunOf(Step(st, e), RecoversCurrent, bad);
    }
  }

  // ---------- a death, exactly ----------

  /** Current recovery reads, and no new scheduling. */
  ghost predicate CurrentNoNew(st: State, e: Event) {
    && (LoadsToRun(st, e) ==> e.version == |st.crs| - 1)
    && (e.NodesListed? ==> !e.nodes.Eligible?)
  }

  lemma NoNewKeeps(st: State, e: Event)
    requires st.hist.kept && CurrentNoNew(st, e)
    ensures Step(st, e).hist.kept && RecoversCurrent(st, e)
  {
  }

  lemma {:induction false} NoNewKeepsAlong(st: State, es: seq<Event>)
    requires st.hist.kept && Always(st, es, CurrentNoNew)
    ensures Exec(st, es).hist.kept && Always(st, es, RecoversCurrent)
  {
    if es != [] {
      var before := es[..|es| - 1];
      NoNewKeepsAlong(st, before);
      NoNewKeeps(Exec(st, before), es[|es| - 1]);
    }
  }

  lemma CrashRestarts(st: State)
    requires |st.crs| > 0
    ensures Step(st, Crash) == Restarted(st)
  {
  }

  /** With nothing in memory it is the store that accounts for the nodes, which a death leaves alone. */
  lemma RestartedAccounts(st: State)
    ensures AccountedNow(Restarted(st)) <==> StoredAccounts(st)
    ensures StoredAccounts(st) ==> CoverInv(Restarted(st)) && Restarted(st).hist.kept
  {
    var st' := Restarted(st);
    assert st'.crs == st.crs && Scheduled(st') == Scheduled(st) && st'.jobs == st.jobs;
    assert StoredAccounts(st') <==> StoredAccounts(st);
  }

  lemma KeptIsAccounted(st: State)
    requires CoverInv(st) && st.hist.kept
    ensures AccountedNow(st)
  {
  }

  lemma {:induction false} SurvivesDeath(name: string, annotated: bool, es: seq<Event>, st: State, fs: seq<Event>)
    requires st == Exec(Fresh(name, annotated), es) && StoredAccounts(st)
    requires Always(Restarted(st), fs, CurrentNoNew)
    ensures AccountedNow(Exec(Restarted(st), fs))
  {
    ExecOne(Fresh(name, annotated), es, Crash);
    CrashRestarts(st);
    RestartedAccounts(st);
    NoNewKeepsAlong(Restarted(st), fs);
    CurrentFrom(name, annotated, es + [Crash], fs);
    KeptIsAccounted(Exec(Restarted(st), fs));
  }

  /** With no premise on the run so far: what is stored accounts for the scheduled nodes when the process dies
      exactly when they stay accounted for whatever follows, with current recovery reads and no new scheduling. */
  lemma {:induction false} DeathExactly(name: string, annotated: bool, es: seq<Event>, st: State)
    requires st == Exec(Fresh(name, annotated), es)
    ensures StoredAccounts(st) <==>
      forall fs | Always(Restarted(st), fs, CurrentNoNew) :: AccountedNow(Exec(Restarted(st), fs))
  {
    if StoredAccounts(st) {
      forall fs | Always(Restarted(st), fs, CurrentNoNew) ensures AccountedNow(Exec(Restarted(st), fs)) {
        SurvivesDeath(name, annotated, es, st, fs);
      }
    } else {
      ReachableIsClosed(Restarted(st), CurrentNoNew);
      var fs := RunOf(Restarted(st), CurrentNoNew, Restarted(st));
      RestartedAccounts(st);
    }
  }

  // ---------- at most one Job per node, exactly ----------

  /** A process that has a reported Job for n, and goes to scheduling again, can start n again. */
  lemma StartsAgain(st: State, v: nat, cap: int, n: NodeName, stamp: Stamp, reached: State -> bool) returns (st': State)
    requires Closed(reached, SchedulesOnce) && reached(Step(st, Begin(v, cap)))
    requires Enabled(st, Begin(v, cap)) && Next(st, Begin(v, cap)).pass.ListingNodes? && |st.name| <= 43
    requires ClaimIsNew(st, n, stamp)
    ensures reached(st')
    ensures |st'.jobs| == |st.jobs| + 1 && st'.jobs[..|st.jobs|] == st.jobs && st'.jobs[|st.jobs|].node == n
    ensures st'.hist.lifeStart == st.hist.lifeStart && st'.hist.strays == st.hist.strays
  {
    var ok := SchedulesOnce;
    st' := Step(st, Begin(v, cap));
    st' := Go(reached, ok, st', NodesListed(Eligible({n})));
    st' := Go(reached, ok, st', Written(Refused));
    st' := Go(reached, ok, st', Written(Refused));
    st' := QueueAgain(st', v, n, reached);
    NamesFit(st.name, n, stamp);
    st' := StartTheNode(reached, ok, st', n, stamp);
  }

  lemma QueueAgain(st: State, v: nat, n: NodeName, reached: State -> bool) returns (st': State)
    requires Closed(reached, SchedulesOnce) && reached(st) && st.pass == Idle && v < |st.crs|
    requires !st.crs[v].status.finished
    requires st.mem.onRunList && st.mem.toRun == Some(Names({n}))
    ensures reached(st') && st'.pass.Choosing? && st'.pass.todo == {n} && st'.pass.started == [] && st'.pass.budget == 1
    ensures st'.crs == st.crs && st'.jobs == st.jobs && st'.claims == st.claims && st'.name == st.name
    ensures st'.hist.lifeStart == st.hist.lifeStart && st'.hist.strays == st.hist.strays
  {
    var ok := SchedulesOnce;
    var running := Recovered(st.mem, st.crs[v]).running;
    st' := Go(reached, ok, st, Begin(v, |Elements(running)| + 1));
    st' := Go(reached, ok, st', JobsListed(JobListFailed));
  }

  lemma {:induction false} StaysOnce(name: string, annotated: bool, es: seq<Event>, e: Event, fs: seq<Event>)
    requires Always(Fresh(name, annotated), es, SchedulesOnce) && SchedulesOnce(Exec(Fresh(name, annotated), es), e)
    requires Always(Step(Exec(Fresh(name, annotated), es), e), fs, SchedulesOnce)
    ensures OncePerLife(Exec(Step(Exec(Fresh(name, annotated), es), e), fs))
  {
    var start := Fresh(name, annotated);
    ExecOne(start, es, e);
    AlwaysOneMore(start, es, e, SchedulesOnce);
    AlwaysConcat(start, es + [e], fs, SchedulesOnce);
    OnceRun(name, annotated, es + [e] + fs);
    ExecConcat(start, es + [e], fs);
  }

  /** Going to scheduling in a process that has started n is harmless exactly when it finds no to-run
      entry, which is when it cannot have started anything. */
  lemma {:induction false} OnceExactly(
        name: string, annotated: bool, es: seq<Event>, st: State, v: nat, cap: int, i: nat, stamp: Stamp)
    requires Always(Fresh(name, annotated), es, SchedulesOnce) && st == Exec(Fresh(name, annotated), es)
    requires Enabled(st, Begin(v, cap)) && st.name == name && |name| <= 43
    requires Reported(st, i) && ClaimIsNew(st, st.jobs[i].node, stamp)
    ensures SchedulesOnce(st, Begin(v, cap)) <==>
      forall fs | Always(Step(st, Begin(v, cap)), fs, SchedulesOnce) :: OncePerLife(Exec(Step(st, Begin(v, cap)), fs))
  {
    var e := Begin(v, cap);
    if SchedulesOnce(st, e) {
      forall fs | Always(Step(st, e), fs, SchedulesOnce) ensures OncePerLife(Exec(Step(st, e), fs)) {
        StaysOnce(name, annotated, es, e, fs);
      }
    } else {
      OnceRun(name, annotated, es);
      ReachableIsClosed(Step(st, e), SchedulesOnce);
      var bad := StartsAgain(st, v, cap, st.jobs[i].node, stamp, Reachable(Step(st, e), SchedulesOnce));
      var fs := RunOf(Step(st, e), SchedulesOnce, bad);
      TwiceIsTwice(st, bad, i);
    }
  }

  lemma TwiceIsTwice(st: State, bad: State, i: nat)
    requires OnceInv(st) && Reported(st, i)
    requires |bad.jobs| == |st.jobs| + 1 && bad.jobs[..|st.jobs|] == st.jobs
    requires bad.jobs[|st.jobs|].node == st.jobs[i].node
    requires bad.hist.lifeStart == st.hist.lifeStart && bad.hist.strays == st.hist.strays
    ensures !OncePerLife(bad)
  {
    assert bad.jobs[i] == bad.jobs[..|st.jobs|][i];
    assert Reported(bad, i) && Reported(bad, |st.jobs|);
  }

  // ---------- a lost reply to a Job, exactly ----------

  /** Scheduling once, and no further Job stored with its reply lost. */
  ghost predicate NoMoreLost(st: State, e: Event) {
    SchedulesOnce(st, e) && (e.JobAsked? ==> !e.create.CreateReplyLost?)
  }

  /** All Jobs of this process are on distinct nodes, reported or not. */
  ghost predicate AllDistinct(st: State) {
    forall i, j | st.hist.lifeStart <= i < j < |st.jobs| :: st.jobs[i].node != st.jobs[j].node
  }

  ghost predicate NoStray(st: State) {
    forall i | i in st.hist.strays :: i < st.hist.lifeStart
  }

  /** A loop that ends in a panic, and that will not visit a node again that has a Job. */
  ghost predicate Doomed(st: State) {
    && InLoop(st.pass) && !st.pass.copy.cr.annotated && AllDistinct(st)
    && (forall i | st.hist.lifeStart <= i < |st.jobs| ::
         st.jobs[i].node !in st.pass.todo && (st.pass.CreatingJob? ==> st.jobs[i].node != st.pass.node))
  }

  ghost predicate HarmlessSoFar(st: State) {
    NoStray(st) || Doomed(st)
  }

  lemma DoomedLoop(st: State, e: Event)
    requires Sound(st) && OnceInv(st) && Doomed(st) && NoMoreLost(st, e) && Enabled(st, e)
    ensures HarmlessSoFar(Next(st, e))
  {
    var st' := Next(st, e);
    if e.LoopLeft? {
      assert st' == Restarted(st);
    } else if e.JobAsked? && e.create.Created? {
      assert st'.jobs[|st.jobs|].node == st.pass.node;
    }
  }

  lemma NoStrayStays(st: State, e: Event)
    requires OnceInv(st) && NoStray(st) && NoMoreLost(st, e) && Enabled(st, e)
    ensures NoStray(Next(st, e))
  {
  }

  lemma {:induction false} HarmlessAlong(name: string, annotated: bool, es: seq<Event>, fs: seq<Event>)
    requires Always(Fresh(name, annotated), es, SchedulesOnce) && HarmlessSoFar(Exec(Fresh(name, annotated), es))
    requires Always(Exec(Fresh(name, annotated), es), fs, NoMoreLost)
    ensures Always(Fresh(name, annotated), es + fs, SchedulesOnce)
    ensures HarmlessSoFar(Exec(Exec(Fresh(name, annotated), es), fs))
    decreases |fs|
  {
    if fs == [] {
      assert es + fs == es;
    } else {
      var before, e := fs[..|fs| - 1], fs[|fs| - 1];
      HarmlessAlong(name, annotated, es, before);
      ExecConcat(Fresh(name, annotated), es, before);
      var st := Exec(Exec(Fresh(name, annotated), es), before);
      SoundRun(name, annotated, es + before);
      OnceRun(name, annotated, es + before);
      if Enabled(st, e) {
        if NoStray(st) { NoStrayStays(st, e); } else { DoomedLoop(st, e); }
      }
      AlwaysOneMore(Fresh(name, annotated), es + before, e, SchedulesOnce);
      LastOfConcat(es, fs);
    }
  }

  lemma HarmlessIsDistinct(st: State)
    requires OnceInv(st) && HarmlessSoFar(st)
    ensures AllDistinct(st)
  {
    if NoStray(st) {
      forall i, j | st.hist.lifeStart <= i < j < |st.jobs| ensures st.jobs[i].node != st.jobs[j].node {
        assert Reported(st, i) && Reported(st, j);
      }
    }
  }

  lemma AnsweredHarmlessly(st: State, create: CreateAnswer)
    requires Sound(st) && OnceInv(st) && NoStray(st) && Enabled(st, JobAsked(create))
    requires create.CreateReplyLost? ==> !st.pass.copy.cr.annotated
    ensures HarmlessSoFar(JobAskedStep(st, create))
  {
    if create.CreateReplyLost? {
      assert forall i | st.hist.lifeStart <= i < |st.jobs| :: Reported(st, i);
      assert st.pass.node !in Started(st.pass) && st.pass.node in Elements(st.mem.toRun);
    }
  }

  // The version read last still takes a pass to the queue.

  ghost predicate LastReadInv(st: State) {
    |st.crs| > 0 && (InQueuePass(st.pass) ==> TakesQueueBranch(st, st.hist.lastRead))
  }

  lemma LastReadStep(st: State, e: Event)
    requires LastReadInv(st) && Enabled(st, e)
    ensures LastReadInv(Next(st, e))
  {
  }

  lemma {:induction false} LastReadRun(name: string, annotated: bool, es: seq<Event>)
    ensures LastReadInv(Exec(Fresh(name, annotated), es))
  {
    if es != [] {
      LastReadRun(name, annotated, es[..|es| - 1]);
      var st := Exec(Fresh(name, annotated), es[..|es| - 1]);
      if Enabled(st, es[|es| - 1]) { LastReadStep(st, es[|es| - 1]); }
    }
  }

  /** A pass in whose loop a node was left out comes to the node again. */
  lemma VisitsAgain(st: State, n: NodeName, reached: State -> bool) returns (st': State)
    requires Closed(reached, NoMoreLost) && reached(st) && |st.crs| > 0 && |st.name| <= 43
    requires st.pass.Choosing? && st.pass.copy.cr.annotated && TakesQueueBranch(st, st.hist.lastRead)
    requires n in Elements(st.mem.toRun) && n !in st.pass.started
    ensures reached(st') && |st'.crs| > 0 && st'.pass.Choosing? && n in st'.pass.todo
    ensures |st'.pass.started| < st'.pass.budget
    ensures st'.jobs == st.jobs && st'.claims == st.claims && st'.name == st.name
    ensures st'.hist.lifeStart == st.hist.lifeStart
  {
    var v := st.hist.lastRead;
    st' := SkipTheRest(st, reached, NoMoreLost);
    st' := EndQuietly(st', reached, NoMoreLost);
    assert n in Elements(st'.mem.toRun) && st'.mem.running.Some?;
    st' := Go(reached, NoMoreLost, st', Begin(v, |Elements(st'.mem.running)| + 1));
    st' := Go(reached, NoMoreLost, st', JobsListed(JobListFailed));
  }

  lemma StartsBeside(st: State, n: NodeName, stamp: Stamp, reached: State -> bool) returns (st': State)
    requires Closed(reached, NoMoreLost) && reached(st) && |st.crs| > 0 && |st.name| <= 43 && ClaimIsNew(st, n, stamp)
    requires st.pass.Choosing? && n in st.pass.todo && |st.pass.started| < st.pass.budget
    ensures reached(st') && st'.hist.lifeStart == st.hist.lifeStart
    ensures |st'.jobs| == |st.jobs| + 1 && st'.jobs[..|st.jobs|] == st.jobs && st'.jobs[|st.jobs|].node == n
  {
    NamesFit(st.name, n, stamp);
    st' := Go(reached, NoMoreLost, st, ClaimAsked(n, stamp, ClaimCreated));
    st' := Go(reached, NoMoreLost, st', JobAsked(Created));
  }

  lemma LostGoesWrong(st: State, stamp: Stamp, reached: State -> bool) returns (st': State)
    requires Sound(st) && OnceInv(st) && LastReadInv(st) && Enabled(st, JobAsked(CreateReplyLost))
    requires st.pass.copy.cr.annotated && |st.name| <= 43 && ClaimIsNew(st, st.pass.node, stamp)
    requires Closed(reached, NoMoreLost) && reached(JobAskedStep(st, CreateReplyLost))
    ensures reached(st') && !AllDistinct(st')
  {
    var n, k := st.pass.node, |st.jobs|;
    st' := JobAskedStep(st, CreateReplyLost);
    assert st'.jobs[k].node == n && n !in st'.pass.started;
    st' := VisitsAgain(st', n, reached);
    st' := StartsBeside(st', n, stamp, reached);
    assert st'.jobs[..k + 1][k].node == n && st'.jobs[k + 1].node == n;
    assert st'.hist.lifeStart <= k;
  }

  /** Storing a Job without reporting it is harmless exactly when the pass will panic for want of an
      annotation map. Otherwise the node can get a second Job, with no other reply lost. */
  lemma {:induction false} LostReplyExactly(
      name: string, annotated: bool, es: seq<Event>, st: State, create: CreateAnswer, stamp: Stamp)
    requires Always(Fresh(name, annotated), es, SchedulesOnce) && st == Exec(Fresh(name, annotated), es)
    requires Enabled(st, JobAsked(create)) && NoStray(st)
    requires st.name == name && |name| <= 43 && ClaimIsNew(st, st.pass.node, stamp)
    ensures (create.CreateReplyLost? ==> !st.pass.copy.cr.annotated) <==>
      forall fs | Always(JobAskedStep(st, create), fs, NoMoreLost) :: AllDistinct(Exec(JobAskedStep(st, create), fs))
  {
    var e := JobAsked(create);
    SoundRun(name, annotated, es);
    OnceRun(name, annotated, es);
    if create.CreateReplyLost? && st.pass.copy.cr.annotated {
      LastReadRun(name, annotated, es);
      ReachableIsClosed(JobAskedStep(st, create), NoMoreLost);
      var bad := LostGoesWrong(st, stamp, Reachable(JobAskedStep(st, create), NoMoreLost));
      var fs := RunOf(JobAskedStep(st, create), NoMoreLost, bad);
    } else {
      AnsweredHarmlessly(st, create);
      forall fs | Always(JobAskedStep(st, create), fs, NoMoreLost)
        ensures AllDistinct(Exec(JobAskedStep(st, create), fs)) {
        StaysHarmless(name, annotated, es, e, fs);
      }
    }
  }

  lemma {:induction false} StaysHarmless(name: string, annotated: bool, es: seq<Event>, e: Event, fs: seq<Event>)
    requires Always(Fresh(name, annotated), es, SchedulesOnce) && SchedulesOnce(Exec(Fresh(name, annotated), es), e)
    requires HarmlessSoFar(Step(Exec(Fresh(name, annotated), es), e))
    requires Always(Step(Exec(Fresh(name, annotated), es), e), fs, NoMoreLost)
    ensures AllDistinct(Exec(Step(Exec(Fresh(name, annotated), es), e), fs))
  {
    var start := Fresh(name, annotated);
    ExecOne(start, es, e);
    AlwaysOneMore(start, es, e, SchedulesOnce);
    HarmlessAlong(name, annotated, es + [e], fs);
    ExecConcat(start, es + [e], fs);
    OnceRun(name, annotated, es + [e] + fs);
    HarmlessIsDistinct(Exec(start, es + [e] + fs));
  }
}
