/** Seen from outside, a process that did not die moves every node from pending over active to over. */
module Queue {
  import opened Wrappers
  import opened Codec
  import opened Protocol
  import opened Phases
  import opened Lifetimes

  /** The abstract queue. */
  datatype Queue = Queue(pending: set<NodeName>, active: set<NodeName>, over: set<NodeName>)

  ghost function View(st: State): Queue {
    var p, a := Elements(st.mem.toRun), Elements(st.mem.running);
    Queue(p, a, Scheduled(st) - p - a)
  }

  /** Some pending nodes become active, some active nodes become over. */
  ghost predicate Moves(q: Queue, r: Queue) {
    && r.pending <= q.pending
    && q.pending - r.pending <= r.active
    && r.active <= q.active + q.pending
    && q.over <= r.over
  }

  ghost predicate Partition(st: State) {
    var q := View(st);
    && q.pending !! q.active
    && q.pending + q.active + q.over == Scheduled(st)
    && forall n | n in q.over :: DoneOn(st.jobs, n)
  }

  ghost predicate NothingRunning(cr: Cr) {
    Elements(cr.running.Parsed()) == {}
  }

  ghost predicate Untouched(st: State) {
    && Elements(st.mem.toRun) == {} && Elements(st.mem.running) == {} && st.jobs == []
    && (forall i | 0 <= i < |st.crs| :: Elements(st.crs[i].toRun.Parsed()) == {} && Rank(st.crs[i].status) != 1)
    && (!st.pass.Idle? ==> Elements(st.pass.copy.cr.toRun.Parsed()) == {} && !st.pass.copy.cr.status.inProgress)
  }

  ghost predicate QueueInv(st: State) {
    st.hist.lives == 0 ==>
      && (st.hist.scheduled.None? ==> Untouched(st))
      && (st.hist.scheduled.Some? ==> Partition(st) && st.mem.onRunList && st.mem.toRun.Some?)
      && (st.pass.ListingNodes? ==> st.hist.scheduled.None?)
      && (st.mem.running.None? ==>
           && (forall i | 0 <= i < |st.crs| :: NothingRunning(st.crs[i]))
           && (!st.pass.Idle? ==> NothingRunning(st.pass.copy.cr)))
  }

  lemma QueueBegin(st: State, e: Event)
    requires Sound(st) && QueueInv(st) && Enabled(st, e) && e.Begin?
    ensures QueueInv(Next(st, e))
  {
    if st.hist.lives == 0 { assert NothingRunning(st.crs[e.version]) || st.mem.running.Some?; }
  }

  lemma QueueNodesListed(st: State, e: Event)
    requires Sound(st) && QueueInv(st) && Enabled(st, e) && e.NodesListed?
    ensures QueueInv(Next(st, e))
  {
  }

  /** Dequeuing done nodes keeps the partition. */
  lemma DequeueKeepsPartition(st: State, nodes: set<NodeName>)
    requires Partition(st) && forall n | n in nodes :: DoneOn(st.jobs, n)
    ensures Partition(JobsSeen(st, nodes))
  {
  }

  ghost function JobsSeen(st: State, nodes: set<NodeName>): State {
    st.(mem := st.mem.(running := Without(st.mem.running, nodes)))
  }

  lemma {:induction false} QueueJobsListed(st: State, e: Event)
    requires QueueInv(st) && Enabled(st, e) && e.JobsListed?
    ensures QueueInv(Next(st, e))
  {
    if st.hist.lives == 0 && e.jobs.DoneSeen? {
      var st' := Next(st, e);
      assert st' == JobsSeen(st, e.jobs.nodes).(pass := st'.pass);
      if st.hist.scheduled.Some? {
        DequeueKeepsPartition(st, e.jobs.nodes);
        assert View(st') == View(JobsSeen(st, e.jobs.nodes));
      }
    }
  }

  lemma StoredIsHarmless(st: State, w: WriteAnswer)
    requires Sound(st) && QueueInv(st) && Enabled(st, Written(w)) && !w.Refused? && st.hist.lives == 0
    ensures st.hist.scheduled.None? ==> Elements(Stored(st).toRun.Parsed()) == {} && Rank(Stored(st).status) != 1
    ensures st.mem.running.None? ==> NothingRunning(Stored(st))
  {
    assert Latest(st) == st.crs[st.pass.copy.version];
  }

  lemma {:induction false} QueueWritten(st: State, w: WriteAnswer)
    requires Sound(st) && QueueInv(st) && Enabled(st, Written(w)) && !w.Refused?
    ensures QueueInv(WrittenStep(st, w))
  {
    if st.hist.lives == 0 {
      StoredIsHarmless(st, w);
      var st' := WrittenStep(st, w);
      assert st'.crs == st.crs + [Stored(st)];
      assert st'.mem == st.mem && st'.jobs == st.jobs && st'.hist.scheduled == st.hist.scheduled;
      assert st.hist.scheduled.None? ==> Untouched(st');
    }
  }

  lemma QueueClaimAsked(st: State, e: Event)
    requires QueueInv(st) && Enabled(st, e) && e.ClaimAsked?
    ensures QueueInv(Next(st, e))
  {
  }

  lemma QueueJobAsked(st: State, e: Event)
    requires Sound(st) && QueueInv(st) && Enabled(st, e) && e.JobAsked?
    ensures QueueInv(Next(st, e))
  {
    DoneStays(st, e);
  }

  lemma QueueLoopLeft(st: State)
    requires Sound(st) && QueueInv(st) && Enabled(st, LoopLeft)
    ensures QueueInv(LoopLeftStep(st))
  {
  }

  lemma QueueElsewhere(st: State, e: Event)
    requires Sound(st) && QueueInv(st) && Enabled(st, e)
    requires e.Crash? || e.JobFinished? || e.Edited? || e.Mirrored? || e == Written(Refused)
    ensures QueueInv(Next(st, e))
  {
    DoneStays(st, e);
  }

  lemma QueueStep(st: State, e: Event)
    requires Sound(st) && QueueInv(st)
    ensures QueueInv(Step(st, e))
  {
    if Enabled(st, e) {
      if e.Written? && !e.write.Refused? { QueueWritten(st, e.write); }
      else if e.ClaimAsked? { QueueClaimAsked(st, e); }
      else if e.JobAsked? { QueueJobAsked(st, e); }
      else if e.LoopLeft? { QueueLoopLeft(st); }
      else if e.Begin? { QueueBegin(st, e); }
      else if e.NodesListed? { QueueNodesListed(st, e); }
      else if e.JobsListed? { QueueJobsListed(st, e); }
      else { QueueElsewhere(st, e); }
    }
  }

  lemma {:induction false} QueueRun(name: string, annotated: bool, es: seq<Event>)
    ensures QueueInv(Exec(Fresh(name, annotated), es))
  {
    if es != [] {
      var before := es[..|es| - 1];
      QueueRun(name, annotated, before);
      SoundRun(name, annotated, before);
      QueueStep(Exec(Fresh(name, annotated), before), es[|es| - 1]);
    }
  }

  lemma MovesOnJobsListed(st: State, e: Event)
    requires QueueInv(st) && Enabled(st, e) && e.JobsListed? && st.hist.lives == 0 && st.hist.scheduled.Some?
    ensures Moves(View(st), View(Next(st, e)))
  {
  }

  lemma MovesOnLoopLeft(st: State)
    requires Sound(st) && QueueInv(st) && Enabled(st, LoopLeft) && LoopLeftStep(st).hist.lives == 0
    requires st.hist.scheduled.Some?
    ensures Moves(View(st), View(LoopLeftStep(st)))
  {
  }

  lemma BeginLoadsNothing(st: State, e: Event)
    requires QueueInv(st) && Enabled(st, e) && e.Begin? && st.hist.lives == 0 && st.hist.scheduled.Some?
    ensures Elements(Next(st, e).mem.toRun) == Elements(st.mem.toRun)
    ensures Elements(Next(st, e).mem.running) == Elements(st.mem.running)
  {
    assert st.mem.running.None? ==> NothingRunning(st.crs[e.version]);
  }

  lemma StaysElsewhere(st: State, e: Event)
    requires QueueInv(st) && Enabled(st, e) && !e.JobsListed? && !e.LoopLeft? && !e.Begin?
    requires Next(st, e).hist.lives == 0 && st.hist.scheduled.Some?
    ensures Next(st, e).mem == st.mem && Next(st, e).hist.scheduled == st.hist.scheduled
  {
  }

  /** Every step of a run without restarts is a move of the abstract queue, which stays a
      partition of the scheduled set in which every node that is over has a done Job. */
  lemma {:induction false} RefinesQueue(name: string, annotated: bool, es: seq<Event>, e: Event, st: State, st': State)
    requires st == Exec(Fresh(name, annotated), es) && st' == Step(st, e)
    requires st'.hist.lives == 0 && st.hist.scheduled.Some?
    ensures Partition(st) && Partition(st')
    ensures st'.hist.scheduled == st.hist.scheduled
    ensures Moves(View(st), View(st'))
  {
    QueueRun(name, annotated, es);
    SoundRun(name, annotated, es);
    QueueStep(st, e);
    LivesGrow(st, e);
    if Enabled(st, e) {
      if e.JobsListed? { MovesOnJobsListed(st, e); }
      else if e.LoopLeft? { MovesOnLoopLeft(st); }
      else if e.Begin? { BeginLoadsNothing(st, e); }
      else { StaysElsewhere(st, e); }
    }
  }

  lemma LivesGrow(st: State, e: Event)
    ensures st.hist.lives <= Step(st, e).hist.lives
  {
  }

  // ---------- Finished, in a process that never died ----------

  ghost predicate AllDone(st: State) {
    forall n | n in Scheduled(st) :: DoneOn(st.jobs, n)
  }

  ghost predicate AliveInv(st: State) {
    st.hist.lives == 0 && |st.crs| > 0 ==>
      && (forall i | 0 <= i < |st.jobs| :: st.jobs[i].node in Scheduled(st))
      && (Latest(st).status.finished ==> AllDone(st))
      && (st.pass.WritingStatus? && st.pass.copy.cr.status.finished ==> AllDone(st))
         // before its one scheduling nothing has been stored that says anything else than not started
      && (!st.mem.onRunList ==> st.pass.Idle? && st.hist.scheduled.None?)
      && (!st.mem.onRunList || st.pass.ListingNodes? ==> forall i | 0 <= i < |st.crs| :: Rank(st.crs[i].status) == 0)
  }

  lemma AliveClaimAsked(st: State, e: Event)
    requires AliveInv(st) && Enabled(st, e) && e.ClaimAsked?
    ensures AliveInv(Next(st, e))
  {
  }

  lemma AliveJobAsked(st: State, e: Event)
    requires Sound(st) && QueueInv(st) && AliveInv(st) && Enabled(st, e) && e.JobAsked?
    ensures AliveInv(Next(st, e))
  {
    DoneStays(st, e);
  }

  lemma AliveLoopLeft(st: State)
    requires AliveInv(st) && Enabled(st, LoopLeft)
    ensures AliveInv(LoopLeftStep(st))
  {
  }

  lemma AliveBegin(st: State, e: Event)
    requires Sound(st) && QueueInv(st) && AliveInv(st) && Enabled(st, e) && e.Begin?
    ensures AliveInv(Next(st, e))
  {
  }

  lemma AliveNodesListed(st: State, nodes: NodeAnswer)
    requires Sound(st) && QueueInv(st) && AliveInv(st) && Enabled(st, NodesListed(nodes))
    ensures AliveInv(NodesListedStep(st, nodes))
  {
    if st.hist.lives == 0 { assert Rank(st.crs[|st.crs| - 1].status) == 0; }
  }

  lemma AliveJobsListed(st: State, e: Event)
    requires AliveInv(st) && Enabled(st, e) && e.JobsListed?
    ensures AliveInv(Next(st, e))
  {
  }

  lemma AliveMirrored(st: State, e: Event)
    requires Sound(st) && QueueInv(st) && AliveInv(st) && Enabled(st, e) && e.Mirrored?
    ensures AliveInv(Next(st, e))
  {
  }

  /** A write stores Finished only when everything is done, and before the scheduling it stores nothing new. */
  lemma AliveStored(st: State)
    requires Sound(st) && AliveInv(st) && Enabled(st, Written(Accepted)) && st.hist.lives == 0
    ensures Stored(st).status.finished ==> AllDone(st)
    ensures st.mem.onRunList && !st.pass.ListingNodes?
  {
    assert Latest(st) == st.crs[st.pass.copy.version];
  }

  lemma AliveWritten(st: State, w: WriteAnswer)
    requires Sound(st) && AliveInv(st) && Enabled(st, Written(w))
    ensures AliveInv(WrittenStep(st, w))
  {
    var st' := WrittenStep(st, w);
    assert st'.mem == st.mem && st'.jobs == st.jobs && Scheduled(st') == Scheduled(st) && !st'.pass.WritingStatus?;
    assert !st'.pass.ListingNodes?;
    if !w.Refused? && st.hist.lives == 0 {
      AliveStored(st);
      assert Latest(st') == Stored(st);
    }
  }

  lemma AliveOutside(st: State, e: Event)
    requires AliveInv(st) && Enabled(st, e) && (e.Crash? || e.JobFinished? || e.Edited?)
    ensures AliveInv(Next(st, e))
  {
    DoneStays(st, e);
  }

  lemma AliveStep(st: State, e: Event)
    requires Sound(st) && QueueInv(st) && AliveInv(st)
    ensures AliveInv(Step(st, e))
  {
    if Enabled(st, e) {
      if e.Written? { AliveWritten(st, e.write); }
      else if e.ClaimAsked? { AliveClaimAsked(st, e); }
      else if e.JobAsked? { AliveJobAsked(st, e); }
      else if e.LoopLeft? { AliveLoopLeft(st); }
      else if e.Begin? { AliveBegin(st, e); }
      else if e.Mirrored? { AliveMirrored(st, e); }
      else if e.NodesListed? { AliveNodesListed(st, e.nodes); }
      else if e.JobsListed? { AliveJobsListed(st, e); }
      else { AliveOutside(st, e); }
    }
  }

  lemma {:induction false} AliveRun(name: string, annotated: bool, es: seq<Event>)
    ensures AliveInv(Exec(Fresh(name, annotated), es))
  {
    if es != [] {
      var before := es[..|es| - 1];
      AliveRun(name, annotated, before);
      QueueRun(name, annotated, before);
      SoundRun(name, annotated, before);
      AliveStep(Exec(Fresh(name, annotated), before), es[|es| - 1]);
    }
  }

  /** As long as the process never died, Finished means done with no premise on writes or reads. So a
      Finished CR has no Job exactly when nothing was scheduled: the node list failed, was empty, or had
      no tolerated node. */
  lemma {:induction false} FinishedWithoutDeaths(name: string, annotated: bool, es: seq<Event>, st: State)
    requires st == Exec(Fresh(name, annotated), es)
    requires st.hist.lives == 0 && |st.crs| > 0 && Latest(st).status.finished
    ensures forall n | n in Scheduled(st) :: DoneOn(st.jobs, n)
    ensures st.jobs == [] <==> Scheduled(st) == {}
  {
    AliveRun(name, annotated, es);
    if Scheduled(st) != {} {
      var n :| n in Scheduled(st);
      assert DoneOn(st.jobs, n);
    }
    if st.jobs != [] { assert st.jobs[0].node in Scheduled(st); }
  }

  // ---------- progress ----------

  ghost function Work(st: State): nat {
    2 * |Elements(st.mem.toRun)| + |Elements(st.mem.running)|
  }

  /** How many nodes a step takes out of the two entries' way: started or dequeued ones. */
  ghost function Moved(st: State, e: Event): nat {
    if e.LoopLeft? && Enabled(st, e) then |AsSet(st.pass.started)|
    else if e.JobsListed? && Enabled(st, e) && e.jobs.DoneSeen? then |Elements(st.mem.running) * e.jobs.nodes|
    else 0
  }

  /** Once both entries are loaded, each step of the process lowers the work left by at least the number of
      nodes it starts or dequeues, and none raises it. */
  lemma {:induction false} WorkFalls(name: string, annotated: bool, es: seq<Event>, e: Event, st: State, st': State)
    requires Always(Fresh(name, annotated), es, SchedulesOnce)
    requires st == Exec(Fresh(name, annotated), es) && st' == Step(st, e)
    requires st.mem.toRun.Some? && st.mem.running.Some? && st'.hist.lives == st.hist.lives
    ensures Work(st') + Moved(st, e) <= Work(st)
  {
    OnceRun(name, annotated, es);
    SoundRun(name, annotated, es);
    WorkStep(st, e);
  }

  lemma MovedSizes(a: set<NodeName>, b: set<NodeName>, s: set<NodeName>)
    requires s <= a
    ensures |a - s| + |s| == |a| && |b + s| <= |b| + |s|
  {
    assert a == (a - s) + s;
    SizeOfUnion(b, s);
  }

  lemma LoopMoves(st: State)
    requires Enabled(st, LoopLeft) && LoopLeftStep(st).hist.lives == st.hist.lives
    ensures Elements(LoopLeftStep(st).mem.toRun) == Elements(st.mem.toRun) - AsSet(st.pass.started)
    ensures Elements(LoopLeftStep(st).mem.running) == Elements(st.mem.running) + AsSet(st.pass.started)
  {
  }

  lemma WorkOnLoopLeft(st: State)
    requires Sound(st) && Enabled(st, LoopLeft) && st.mem.toRun.Some? && LoopLeftStep(st).hist.lives == st.hist.lives
    ensures Work(LoopLeftStep(st)) + Moved(st, LoopLeft) <= Work(st)
  {
    MovedSizes(Elements(st.mem.toRun), Elements(st.mem.running), AsSet(st.pass.started));
    LoopMoves(st);
  }

  lemma WorkOnJobsListed(st: State, nodes: set<NodeName>)
    requires Enabled(st, JobsListed(DoneSeen(nodes)))
    ensures Work(JobsListedStep(st, DoneSeen(nodes))) + |Elements(st.mem.running) * nodes| == Work(st)
  {
    var b := Elements(st.mem.running);
    assert |b - nodes| + |b * nodes| == |b| by { assert b == (b - nodes) + (b * nodes); }
    assert Elements(JobsListedStep(st, DoneSeen(nodes)).mem.running) == b - nodes;
  }

  lemma WorkElsewhere(st: State, e: Event)
    requires OnceInv(st) && Enabled(st, e) && !e.LoopLeft? && !(e.JobsListed? && e.jobs.DoneSeen?)
    requires st.mem.toRun.Some? && st.mem.running.Some? && Next(st, e).hist.lives == st.hist.lives
    ensures Next(st, e).mem.toRun == st.mem.toRun && Next(st, e).mem.running == st.mem.running
  {
  }

  lemma WorkStep(st: State, e: Event)
    requires OnceInv(st) && Sound(st)
    requires st.mem.toRun.Some? && st.mem.running.Some? && Step(st, e).hist.lives == st.hist.lives
    ensures Work(Step(st, e)) + Moved(st, e) <= Work(st)
  {
    if Enabled(st, e) {
      if e.LoopLeft? { WorkOnLoopLeft(st); }
      else if e.JobsListed? && e.jobs.DoneSeen? { WorkOnJobsListed(st, e.jobs.nodes); }
      else { WorkElsewhere(st, e); }
    }
  }
}
