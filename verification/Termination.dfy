/** How many passes a Sosreport takes when nothing fails, and that without concurrency it never finishes. */
module Termination {
  import opened Wrappers
  import opened Codec
  import opened Naming
  import opened Protocol
  import opened Phases
  import opened Coverage
  import opened Lifetimes
  import opened Queue

  /** Every call succeeds, reads are current, the concurrency is c, and all Jobs are done before the next pass
      begins. */
  ghost predicate Smooth(st: State, e: Event, c: nat) {
    match e
    case Begin(version, cap) => version == |st.crs| - 1 && cap == c && forall i | 0 <= i < |st.jobs| :: st.jobs[i].done
    case NodesListed(nodes) => nodes.Eligible?
    case JobsListed(jobs) => jobs.DoneSeen? && forall i | 0 <= i < |st.jobs| && st.jobs[i].done ::
      st.jobs[i].node in jobs.nodes
    case Written(write) => write.Accepted?
    case ClaimAsked(_, _, claim) => claim.ClaimCreated?
    case JobAsked(create) => create.Created?
    case Crash => false
    case Edited => st.pass.Idle?
    case _ => true
  }

  ghost function SmoothAt(c: nat): (State, Event) -> bool {
    (st: State, e: Event) => Smooth(st, e, c)
  }

  /** What is left to run of n nodes after k loops that each start c. */
  function Left(n: nat, c: nat, k: nat): nat {
    if k == 0 then n
    else
      var before := Left(n, c, k - 1);
      if before <= c then 0 else before - c
  }

  lemma {:induction false} LeftIsZero(n: nat, c: nat, k: nat)
    requires c > 0
    ensures Left(n, c, k) == 0 <==> n <= k * c
    ensures Left(n, c, k) > 0 ==> Left(n, c, k) == n - k * c
  {
    if k > 0 {
      LeftIsZero(n, c, k - 1);
      assert k * c == (k - 1) * c + c;
    }
  }

  /** Not yet finished before pass k + 1: the loop of pass k had something to run. */
  ghost predicate StillToDo(n: nat, c: nat, k: nat) {
    k == 0 || Left(n, c, k - 1) > 0
  }

  /** Pass k is under way and its loop has not ended. */
  ghost predicate BeforeLoop(st: State, c: nat) {
    var n, k := |Scheduled(st)|, st.hist.passes;
    && st.hist.scheduled.Some?
    && k > 0 && StillToDo(n, c, k - 1)
    && |Elements(st.mem.toRun)| == Left(n, c, k - 1)
  }

  /** The loop of pass k has ended. */
  ghost predicate AfterLoop(st: State, c: nat) {
    var n, k := |Scheduled(st)|, st.hist.passes;
    && st.hist.scheduled.Some?
    && |Elements(st.mem.toRun)| == Left(n, c, k)
    && (forall m | m in Elements(st.mem.running) :: CreatedOn(st.jobs, m))
    && |Elements(st.mem.running)| == (if k == 0 then 0 else Left(n, c, k - 1) - Left(n, c, k))
    && (k > 0 ==> StillToDo(n, c, k - 1))
  }

  ghost predicate LoopPace(st: State, c: nat)
    requires InLoop(st.pass)
  {
    && Elements(st.mem.running) == {} && st.pass.budget == c && |st.pass.started| <= c
    && st.pass.todo + AsSet(st.pass.started) + (if st.pass.CreatingJob? then {st.pass.node} else {}) ==
        Elements(st.mem.toRun)
    && (st.pass.CreatingJob? ==> |st.pass.started| < c)
    && st.pass.copy.cr.annotated
  }

  ghost predicate Pace(st: State, c: nat)
    requires |st.crs| > 0
  {
    var n, k := |Scheduled(st)|, st.hist.passes;
    && st.hist.lives == 0
    && (!st.pass.Idle? ==> st.pass.copy.version == |st.crs| - 1)
    && match st.pass
       case Idle =>
         if st.hist.scheduled.None? then !st.mem.onRunList && Rank(Latest(st).status) ==
           0 && Elements(st.mem.running) == {}
         else AfterLoop(st, c) && (Latest(st).status.finished <==> !StillToDo(n, c, k))
       case ListingNodes(_) => st.hist.scheduled.None? && Elements(st.mem.running) == {}
       case WritingSchedule(_) => AfterLoop(st, c) && k == 0
       case WritingScheduled(_) => AfterLoop(st, c) && k == 0
       case ListingJobs(_, cap) => BeforeLoop(st, c) && cap == c && forall m | m in Elements(st.mem.running) ::
         DoneOn(st.jobs, m)
       case WritingDequeue(copy, cap) => BeforeLoop(st, c) && cap ==
         c && Elements(st.mem.running) == {} && copy.cr.annotated
       case Choosing(_, _, _, _) => BeforeLoop(st, c) && LoopPace(st, c)
       case CreatingJob(_, _, _, _, _, _) => BeforeLoop(st, c) && LoopPace(st, c)
       case WritingQueues(_) => AfterLoop(st, c) && k > 0
       case Mirroring(_) => AfterLoop(st, c) && k > 0
       case WritingStatus(copy) => AfterLoop(st, c) && k > 0 && (copy.cr.status.finished <==> !StillToDo(n, c, k))
  }

  lemma PaceBegin(st: State, e: Event, c: nat)
    requires |st.crs| > 0 && Pace(st, c) && Enabled(st, e) && e.Begin? && Smooth(st, e, c)
    requires Rank(Latest(st).status) <= 2
    requires st.hist.scheduled.Some? ==> st.mem.onRunList && st.mem.toRun.Some?
    requires st.mem.running.None? ==> NothingRunning(Latest(st))
    ensures Pace(Next(st, e), c)
  {
    var st' := Next(st, e);
    assert Elements(st'.mem.running) == Elements(st.mem.running);
    assert Elements(st'.mem.toRun) == Elements(st.mem.toRun) || st.hist.scheduled.None?;
    if st.hist.scheduled.Some? {
      forall m | m in Elements(st.mem.running) ensures DoneOn(st.jobs, m) {
        assert CreatedOn(st.jobs, m);
      }
    }
  }

  lemma PaceNodesListed(st: State, e: Event, c: nat)
    requires |st.crs| > 0 && Pace(st, c) && Enabled(st, e) && e.NodesListed? && Smooth(st, e, c)
    ensures Pace(Next(st, e), c)
  {
  }

  lemma PaceJobsListed(st: State, e: Event, c: nat)
    requires |st.crs| > 0 && Pace(st, c) && Enabled(st, e) && e.JobsListed? && Smooth(st, e, c)
    ensures Pace(Next(st, e), c)
  {
    assert AsSet([]) == {};
    forall m | m in Elements(st.mem.running) ensures m in e.jobs.nodes {
      assert DoneOn(st.jobs, m);
    }
    assert Elements(Next(st, e).mem.running) == {};
  }

  lemma PaceWritten(st: State, c: nat)
    requires |st.crs| > 0 && Pace(st, c) && Enabled(st, Written(Accepted))
    requires st.pass.WritingSchedule? || st.pass.WritingScheduled? ==> !st.pass.copy.cr.status.finished
    requires st.pass.WritingScheduled? || st.pass.WritingStatus? || !Latest(st).status.finished
    ensures Pace(WrittenStep(st, Accepted), c)
  {
    assert AsSet([]) == {};
    assert Latest(WrittenStep(st, Accepted)) == Stored(st);
  }

  lemma ClaimShape(st: State, e: Event) returns (job: string)
    requires |st.name| <= 43 && Enabled(st, e) && e.ClaimAsked? && e.claim.ClaimCreated?
    ensures var p := st.pass;
      Next(st, e) == st.(
        pass := CreatingJob(p.copy, p.budget, p.todo - {e.node}, p.started, e.node, job),
        claims := st.claims + [ClaimName(job)])
  {
    NamesFit(st.name, e.node, e.stamp);
    job := JobName(st.name, e.node, e.stamp).value;
  }

  lemma NodeInHand(todo: set<NodeName>, started: set<NodeName>, n: NodeName)
    requires n in todo
    ensures todo - {n} + started + {n} == todo + started
  {
  }

  lemma PaceClaimAsked(st: State, e: Event, c: nat)
    requires |st.crs| > 0 && |st.name| <= 43 && Pace(st, c) && Enabled(st, e) && Smooth(st, e, c) && e.ClaimAsked?
    ensures Pace(Next(st, e), c)
  {
    var job := ClaimShape(st, e);
    NodeInHand(st.pass.todo, AsSet(st.pass.started), e.node);
    assert BeforeLoop(Next(st, e), c) by { assert BeforeLoop(st, c); }
    assert LoopPace(Next(st, e), c) by { assert LoopPace(st, c); }
  }

  lemma PaceJobAsked(st: State, c: nat)
    requires |st.crs| > 0 && Pace(st, c) && Enabled(st, JobAsked(Created))
    ensures Pace(JobAskedStep(st, Created), c)
  {
    var p := st.pass;
    assert AsSet(p.started + [p.node]) == AsSet(p.started) + {p.node};
    assert p.todo + AsSet(p.started + [p.node]) == p.todo + AsSet(p.started) + {p.node};
    assert BeforeLoop(JobAskedStep(st, Created), c);
  }

  lemma LoopSizes(todo: set<NodeName>, started: seq<NodeName>, all: set<NodeName>)
    requires todo !! AsSet(started) && todo + AsSet(started) == all && NoRepeats(started)
    ensures |all| == |todo| + |started| && |AsSet(started)| == |started| && all - AsSet(started) == todo
  {
    EnumerationSize(started, AsSet(started));
    assert all == todo + AsSet(started);
  }

  lemma LoopLeftSizes(st: State, c: nat)
    requires |st.crs| > 0 && Pace(st, c) && LoopOk(st) && Enabled(st, LoopLeft)
    ensures |st.pass.todo| == Left(|Scheduled(st)|, c, st.hist.passes)
    ensures |AsSet(st.pass.started)| == Left(|Scheduled(st)|, c, st.hist.passes - 1) - |st.pass.todo|
    ensures Elements(st.mem.toRun) - AsSet(st.pass.started) == st.pass.todo
  {
    LoopSizes(st.pass.todo, st.pass.started, Elements(st.mem.toRun));
  }

  /** What leaving the loop does when the CR copy has an annotation map. */
  lemma LoopLeftEffect(st: State)
    requires Enabled(st, LoopLeft) && st.pass.copy.cr.annotated
    ensures var st' := LoopLeftStep(st);
      && (st'.pass.WritingQueues? || st'.pass.Mirroring?) && st'.pass.copy.version == st.pass.copy.version
      && st'.crs == st.crs && st'.jobs == st.jobs && st'.hist == st.hist
      && Elements(st'.mem.toRun) == Elements(st.mem.toRun) - AsSet(st.pass.started)
      && Elements(st'.mem.running) == Elements(st.mem.running) + AsSet(st.pass.started)
  {
  }

  lemma AfterLoopLeft(st: State, c: nat)
    requires |st.crs| > 0 && Pace(st, c) && LoopOk(st) && Enabled(st, LoopLeft)
    ensures AfterLoop(LoopLeftStep(st), c)
  {
    LoopLeftSizes(st, c);
    LoopLeftEffect(st);
    AfterMoving(st, LoopLeftStep(st), c);
  }

  lemma AfterMoving(st: State, st': State, c: nat)
    requires InLoop(st.pass) && BeforeLoop(st, c) && LoopPace(st, c) && LoopOk(st)
    requires st'.jobs == st.jobs && st'.hist == st.hist
    requires Elements(st'.mem.toRun) == st.pass.todo
    requires Elements(st'.mem.running) == Elements(st.mem.running) + AsSet(st.pass.started)
    requires |st.pass.todo| == Left(|Scheduled(st)|, c, st.hist.passes)
    requires |AsSet(st.pass.started)| == Left(|Scheduled(st)|, c, st.hist.passes - 1) - |st.pass.todo|
    ensures AfterLoop(st', c)
  {
    assert Elements(st'.mem.running) == AsSet(st.pass.started);
  }

  lemma PaceAfterLoop(st: State, c: nat)
    requires |st.crs| > 0 && AfterLoop(st, c) && st.hist.passes > 0 && st.hist.lives == 0
    requires (st.pass.WritingQueues? || st.pass.Mirroring?) && st.pass.copy.version == |st.crs| - 1
    ensures Pace(st, c)
  {
  }

  lemma PaceLoopLeft(st: State, c: nat)
    requires |st.crs| > 0 && Pace(st, c) && LoopOk(st) && Enabled(st, LoopLeft)
    ensures Pace(LoopLeftStep(st), c)
  {
    AfterLoopLeft(st, c);
    LoopLeftEffect(st);
    PaceAfterLoop(LoopLeftStep(st), c);
  }

  lemma PaceMirrored(st: State, e: Event, c: nat)
    requires |st.crs| > 0 && c > 0 && Pace(st, c) && Enabled(st, e) && e.Mirrored? && !st.pass.copy.cr.status.finished
    ensures Pace(Next(st, e), c)
  {
    assert Elements(st.mem.toRun) == {} && Elements(st.mem.running) == {} <==>
      Left(|Scheduled(st)|, c, st.hist.passes - 1) == 0;
    assert AfterLoop(Next(st, e), c);
  }

  lemma PaceOutside(st: State, e: Event, c: nat)
    requires |st.crs| > 0 && Pace(st, c) && Enabled(st, e) && Smooth(st, e, c) && (e.JobFinished? || e.Edited?)
    ensures Pace(Next(st, e), c)
  {
    CreatedStays(st, e);
    DoneStays(st, e);
  }

  /** What a smooth run takes from the facts every run keeps. */
  ghost predicate Facts(st: State)
    requires |st.crs| > 0
  {
    && LoopOk(st)
    && Rank(Latest(st).status) <= 2
    && (st.hist.scheduled.Some? ==> st.mem.onRunList && st.mem.toRun.Some?)
    && (st.mem.running.None? ==> NothingRunning(Latest(st)))
    && (st.pass.WritingSchedule? || st.pass.WritingScheduled? || st.pass.Mirroring? ==>
         !st.pass.copy.cr.status.finished)
    && (!st.pass.Idle? && st.pass.copy.version == |st.crs| - 1 ==>
         st.pass.WritingScheduled? || st.pass.WritingStatus? || !Latest(st).status.finished)
  }

  lemma FactsHold(st: State)
    requires Sound(st) && QueueInv(st) && st.hist.lives == 0
    ensures Facts(st)
  {
    assert st.mem.running.None? ==> NothingRunning(st.crs[|st.crs| - 1]);
  }

  lemma PaceInLoop(st: State, e: Event, c: nat)
    requires |st.crs| > 0 && LoopOk(st) && |st.name| <= 43 && Pace(st, c) && Smooth(st, e, c) && Enabled(st, e)
    requires e.ClaimAsked? || e.JobAsked? || e.LoopLeft?
    ensures Pace(Next(st, e), c)
  {
    match e
    case ClaimAsked(_, _, _) => PaceClaimAsked(st, e, c);
    case JobAsked(_) => PaceJobAsked(st, c);
    case LoopLeft => PaceLoopLeft(st, c);
  }

  lemma PaceAnswered(st: State, e: Event, c: nat)
    requires |st.crs| > 0 && Facts(st) && Pace(st, c) && Smooth(st, e, c) && Enabled(st, e)
    requires e.Begin? || e.NodesListed? || e.JobsListed?
    ensures Pace(Next(st, e), c)
  {
    match e
    case Begin(_, _) => PaceBegin(st, e, c);
    case NodesListed(_) => PaceNodesListed(st, e, c);
    case JobsListed(_) => PaceJobsListed(st, e, c);
  }

  lemma PaceStep(st: State, e: Event, c: nat)
    requires |st.crs| > 0 && Facts(st) && |st.name| <= 43 && c > 0 && Pace(st, c) && Smooth(st, e, c) && Enabled(st, e)
    ensures |Next(st, e).crs| > 0 && Pace(Next(st, e), c)
  {
    if e.Begin? || e.NodesListed? || e.JobsListed? { PaceAnswered(st, e, c); }
    else if e.Written? { PaceWritten(st, c); }
    else if e.Mirrored? { PaceMirrored(st, e, c); }
    else if e.JobFinished? || e.Edited? { PaceOutside(st, e, c); }
    else { PaceInLoop(st, e, c); }
  }

  lemma NameStays(st: State, e: Event)
    ensures Step(st, e).name == st.name
  {
  }

  lemma {:induction false} PaceRun(name: string, annotated: bool, es: seq<Event>, c: nat)
    requires |name| <= 43 && c > 0
    requires Always(Fresh(name, annotated), es, SmoothAt(c))
    ensures var st := Exec(Fresh(name, annotated), es);
      |st.crs| > 0 && Pace(st, c) && st.name == name
  {
    if es != [] {
      var before := es[..|es| - 1];
      PaceRun(name, annotated, before, c);
      SoundRun(name, annotated, before);
      QueueRun(name, annotated, before);
      var st := Exec(Fresh(name, annotated), before);
      FactsHold(st);
      if Enabled(st, es[|es| - 1]) { PaceStep(st, es[|es| - 1], c); }
      NameStays(st, es[|es| - 1]);
    }
  }

  function CeilingOfQuotient(n: nat, c: nat): nat
    requires c > 0
  {
    (n + c - 1) / c
  }

  lemma Times(a: nat, b: nat, c: nat)
    requires a <= b
    ensures a * c <= b * c
  {
  }

  lemma CeilingBounds(n: nat, c: nat, k: nat)
    requires c > 0
    ensures n <= k * c <==> CeilingOfQuotient(n, c) <= k
  {
    var q, r := CeilingOfQuotient(n, c), (n + c - 1) % c;
    assert n + c - 1 == q * c + r;
    if k < q {
      Times(k + 1, q, c);
      assert (k + 1) * c == k * c + c;
    } else {
      Times(q, k, c);
    }
  }

  /** When every call succeeds and each pass finds the Jobs of the one before it done, N scheduled nodes at
      concurrency c are finished by pass ceil(N / c) + 1 after the scheduling: not before, and no pass follows. */
  lemma {:induction false} FinishesAtExactlyThisPass(name: string, annotated: bool, es: seq<Event>, c: nat, st: State)
    requires |name| <= 43 && c > 0
    requires Always(Fresh(name, annotated), es, SmoothAt(c))
    requires st == Exec(Fresh(name, annotated), es)
    requires st.pass.Idle? && st.hist.scheduled.Some?
    ensures |st.crs| > 0
    ensures st.hist.passes <= CeilingOfQuotient(|Scheduled(st)|, c) + 1
    ensures Latest(st).status.finished <==> st.hist.passes == CeilingOfQuotient(|Scheduled(st)|, c) + 1
  {
    PaceRun(name, annotated, es, c);
    AtPassEnd(st, c);
  }

  lemma AtPassEnd(st: State, c: nat)
    requires |st.crs| > 0 && c > 0 && Pace(st, c) && st.pass.Idle? && st.hist.scheduled.Some?
    ensures st.hist.passes <= CeilingOfQuotient(|Scheduled(st)|, c) + 1
    ensures Latest(st).status.finished <==> st.hist.passes == CeilingOfQuotient(|Scheduled(st)|, c) + 1
  {
    PassNumber(|Scheduled(st)|, c, st.hist.passes);
  }

  lemma PassNumber(n: nat, c: nat, k: nat)
    requires c > 0 && (k > 0 ==> StillToDo(n, c, k - 1))
    ensures k <= CeilingOfQuotient(n, c) + 1
    ensures !StillToDo(n, c, k) <==> k == CeilingOfQuotient(n, c) + 1
  {
    if k > 0 {
      LeftIsZero(n, c, k - 1);
      CeilingBounds(n, c, k - 1);
      if k > 1 {
        LeftIsZero(n, c, k - 2);
        CeilingBounds(n, c, k - 2);
      }
    }
  }

  // ---------- no concurrency ----------

  /** Recoveries load what covers the nodes, and no pass is given a positive concurrency. */
  ghost predicate WithoutConcurrency(st: State, e: Event) {
    RecoversCovered(st, e) && (e.Begin? ==> e.cap <= 0)
  }

  /** A pass in flight, if any, has no budget either. */
  predicate StartsNothing(p: Pass) {
    match p
    case ListingJobs(_, cap) => cap <= 0
    case WritingDequeue(_, cap) => cap <= 0
    case Choosing(_, budget, _, _) => budget <= 0
    case CreatingJob(_, _, _, _, _, _) => false
    case _ => true
  }

  lemma NothingStarts(st: State, e: Event)
    requires StartsNothing(st.pass) && WithoutConcurrency(st, e)
    ensures StartsNothing(Step(st, e).pass)
    ensures forall n | CreatedOn(Step(st, e).jobs, n) :: CreatedOn(st.jobs, n)
  {
    var st' := Step(st, e);
    forall n | CreatedOn(st'.jobs, n) ensures CreatedOn(st.jobs, n) {
      var i :| 0 <= i < |st'.jobs| && st'.jobs[i].node == n;
      assert st.jobs[i].node == n;
    }
  }

  lemma {:induction false} NothingStartsAlong(st: State, es: seq<Event>, n: NodeName)
    requires StartsNothing(st.pass) && Always(st, es, WithoutConcurrency)
    ensures StartsNothing(Exec(st, es).pass)
    ensures CreatedOn(Exec(st, es).jobs, n) ==> CreatedOn(st.jobs, n)
    ensures Always(st, es, RecoversCovered)
  {
    if es != [] {
      var before := es[..|es| - 1];
      NothingStartsAlong(st, before, n);
      NothingStarts(Exec(st, before), es[|es| - 1]);
    }
  }

  /** Once no pass is given a positive concurrency any more, a scheduled node without a Job keeps the CR from
      Finished for good, whatever ran before and whatever else happens. */
  lemma {:induction false} NeverFinishesOnceConcurrencyIsGone(
      name: string, annotated: bool, es: seq<Event>, st: State, fs: seq<Event>, st': State, n: NodeName)
    requires Always(Fresh(name, annotated), es, RecoversCovered) && st == Exec(Fresh(name, annotated), es)
    requires StartsNothing(st.pass) && !CreatedOn(st.jobs, n)
    requires Always(st, fs, WithoutConcurrency) && st' == Exec(st, fs)
    requires st'.hist.kept && n in Scheduled(st')
    ensures |st'.crs| > 0 && !Latest(st').status.finished && !CreatedOn(st'.jobs, n)
  {
    NothingStartsAlong(st, fs, n);
    CoverRun(name, annotated, es);
    CoverFrom(name, annotated, es, fs);
    assert !DoneOn(st'.jobs, n);
  }

  /** In particular nothing runs and nothing finishes while no positive concurrency was ever read. */
  lemma {:induction false} NeverFinishesWithoutConcurrency(name: string, annotated: bool, es: seq<Event>, st: State)
    requires Always(Fresh(name, annotated), es, RecoversCovered)
    requires st == Exec(Fresh(name, annotated), es)
    requires st.hist.maxCap == 0 && st.hist.kept && Scheduled(st) != {}
    ensures st.jobs == [] && |st.crs| > 0 && !Latest(st).status.finished
  {
    RunningNeverExceedsCap(name, annotated, es, st);
    var n :| n in Scheduled(st);
    FinishedMeansDone(name, annotated, es, st, n);
  }
}
