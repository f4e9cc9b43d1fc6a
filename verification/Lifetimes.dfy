/** What one process keeps until it dies: no node is started twice, and the concurrency cap bounds what runs. */
module Lifetimes {
  import opened Wrappers
  import opened Codec
  import opened Protocol
  import opened Phases

  // ---------- premises ----------

  /** A pass that goes to scheduling finds no to-run entry. */
  ghost predicate SchedulesOnce(st: State, e: Event) {
    e.Begin? && Enabled(st, e) && Next(st, e).pass.ListingNodes? ==> st.mem.toRun.None?
  }

  /** Within one process the cached reads never go back to an older version. */
  ghost predicate ReadsForward(st: State, e: Event) {
    e.Begin? ==> st.hist.lastRead <= e.version
  }

  // ---------- at most one Job per node and process ----------

  /** A Job of this process whose creation was reported. */
  predicate Reported(st: State, i: int) {
    st.hist.lifeStart <= i < |st.jobs| && i !in st.hist.strays
  }

  /** The Jobs of this process whose creation was reported are for distinct nodes. */
  ghost predicate OncePerLife(st: State) {
    forall i, j | Reported(st, i) && Reported(st, j) && i != j :: st.jobs[i].node != st.jobs[j].node
  }

  ghost predicate OnceInv(st: State) {
    && OncePerLife(st)
    && st.hist.lifeStart <= |st.jobs|
    && (forall i | i in st.hist.strays :: i < |st.jobs|)
       // a node with a reported Job of this process is still to run only while the loop that started it goes on
    && (forall i | Reported(st, i) :: st.jobs[i].node in Elements(st.mem.toRun) ==> st.jobs[i].node in Started(st.pass))
    && (st.mem.toRun.None? ==> |st.jobs| == st.hist.lifeStart)
    && (st.pass.ListingNodes? ==> st.mem.toRun.None?)
  }

  lemma OnceJobAsked(st: State, create: CreateAnswer)
    requires Sound(st) && OnceInv(st) && Enabled(st, JobAsked(create))
    ensures OnceInv(JobAskedStep(st, create))
  {
    var st' := JobAskedStep(st, create);
    assert AsSet(st.pass.started + [st.pass.node]) == AsSet(st.pass.started) + {st.pass.node};
    assert forall i | Reported(st', i) :: Reported(st, i) || (i == |st.jobs| && create.Created?);
  }

  lemma OnceLoopLeft(st: State)
    requires Sound(st) && OnceInv(st) && Enabled(st, LoopLeft)
    ensures OnceInv(LoopLeftStep(st))
  {
    assert forall i | Reported(LoopLeftStep(st), i) :: Reported(st, i);
  }

  lemma OnceBegin(st: State, e: Event)
    requires OnceInv(st) && Enabled(st, e) && SchedulesOnce(st, e) && e.Begin?
    ensures OnceInv(Next(st, e))
  {
    assert forall i | Reported(Next(st, e), i) :: Reported(st, i);
  }

  lemma OnceListed(st: State, e: Event)
    requires OnceInv(st) && Enabled(st, e) && (e.NodesListed? || e.JobsListed?)
    ensures OnceInv(Next(st, e))
  {
    assert forall i | Reported(Next(st, e), i) :: Reported(st, i);
  }

  lemma OnceWritten(st: State, e: Event)
    requires OnceInv(st) && Enabled(st, e) && (e.Mirrored? || e.Written?)
    ensures OnceInv(Next(st, e))
  {
    assert forall i | Reported(Next(st, e), i) :: Reported(st, i);
  }

  lemma OnceOutside(st: State, e: Event)
    requires Sound(st) && OnceInv(st) && Enabled(st, e)
    requires e.ClaimAsked? || e.Crash? || e.JobFinished? || e.Edited?
    ensures OnceInv(Next(st, e))
  {
    assert forall i | Reported(Next(st, e), i) :: Reported(st, i);
  }

  lemma OnceStep(st: State, e: Event)
    requires Sound(st) && OnceInv(st) && SchedulesOnce(st, e)
    ensures OnceInv(Step(st, e))
  {
    if Enabled(st, e) {
      if e.JobAsked? { OnceJobAsked(st, e.create); }
      else if e.LoopLeft? { OnceLoopLeft(st); }
      else if e.ClaimAsked? || e.Crash? || e.JobFinished? || e.Edited? { OnceOutside(st, e); }
      else if e.Begin? { OnceBegin(st, e); }
      else if e.Mirrored? || e.Written? { OnceWritten(st, e); }
      else { OnceListed(st, e); }
    }
  }

  lemma {:induction false} OnceRun(name: string, annotated: bool, es: seq<Event>)
    requires Always(Fresh(name, annotated), es, SchedulesOnce)
    ensures OnceInv(Exec(Fresh(name, annotated), es))
  {
    if es != [] {
      var before := es[..|es| - 1];
      OnceRun(name, annotated, before);
      SoundRun(name, annotated, before);
      OnceStep(Exec(Fresh(name, annotated), before), es[|es| - 1]);
    }
  }

  /** Within one process two Jobs for one node are possible only when the creation of one of them was
      answered with an error although it was stored; all other failures of creates and writes do no harm. */
  lemma {:induction false} AtMostOneJobPerNode(name: string, annotated: bool, es: seq<Event>, st: State, i: nat, j: nat)
    requires Always(Fresh(name, annotated), es, SchedulesOnce)
    requires st == Exec(Fresh(name, annotated), es)
    requires Reported(st, i) && Reported(st, j) && i != j
    ensures st.jobs[i].node != st.jobs[j].node
  {
    OnceRun(name, annotated, es);
  }

  // ---------- reads that never go back schedule once ----------

  ghost predicate ReadsInv(st: State) {
    && st.hist.lastRead < |st.crs|
    && (!st.mem.onRunList && st.mem.toRun.Some? ==> Rank(st.crs[st.hist.lastRead].status) >= 1)
    && (!st.pass.Idle? ==> st.hist.lastRead <= st.pass.copy.version)
    && (InQueuePass(st.pass) && !st.mem.onRunList ==> Rank(st.crs[st.hist.lastRead].status) >= 1)
  }

  lemma ReadsInside(st: State, e: Event)
    requires Sound(st) && ReadsInv(st) && Enabled(st, e) && !e.Begin?
    ensures ReadsInv(Next(st, e))
  {
    assert Next(st, e).hist.lastRead == st.hist.lastRead || Next(st, e).hist.lastRead == 0;
  }

  lemma ReadsBegin(st: State, e: Event)
    requires Sound(st) && ReadsInv(st) && Enabled(st, e) && e.Begin? && ReadsForward(st, e)
    ensures SchedulesOnce(st, e) && ReadsInv(Next(st, e))
  {
    assert Rank(st.crs[st.hist.lastRead].status) <= Rank(st.crs[e.version].status);
  }

  lemma {:induction false} ReadsRun(name: string, annotated: bool, es: seq<Event>)
    requires Always(Fresh(name, annotated), es, ReadsForward)
    ensures ReadsInv(Exec(Fresh(name, annotated), es))
  {
    if es != [] {
      var before := es[..|es| - 1];
      ReadsRun(name, annotated, before);
      SoundRun(name, annotated, before);
      var st, e := Exec(Fresh(name, annotated), before), es[|es| - 1];
      if Enabled(st, e) {
        if e.Begin? { ReadsBegin(st, e); } else { ReadsInside(st, e); }
      }
    }
  }

  /** Whoever never reads back schedules once. */
  lemma {:induction false} ForwardReadsSuffice(name: string, annotated: bool, es: seq<Event>)
    requires Always(Fresh(name, annotated), es, ReadsForward)
    ensures Always(Fresh(name, annotated), es, SchedulesOnce)
  {
    if es != [] {
      var before := es[..|es| - 1];
      ForwardReadsSuffice(name, annotated, before);
      ReadsRun(name, annotated, before);
      SoundRun(name, annotated, before);
      var st, e := Exec(Fresh(name, annotated), before), es[|es| - 1];
      if e.Begin? && Enabled(st, e) { ReadsBegin(st, e); }
    }
  }

  // ---------- concurrency ----------

  lemma SubsetSize<T>(a: set<T>, b: set<T>)
    requires a <= b
    ensures |a| <= |b|
  {
    assert b == a + (b - a);
  }

  lemma AsSetSize(q: seq<NodeName>)
    ensures |AsSet(q)| <= |q|
  {
    if q != [] {
      var n := |q| - 1;
      AsSetSize(q[..n]);
      assert AsSet(q) == AsSet(q[..n]) + {q[n]};
    }
  }

  ghost predicate SmallAnnotation(a: Annotation, cap: nat) {
    |Elements(a.Parsed())| <= cap
  }

  ghost predicate CapInv(st: State) {
    var cap := st.hist.maxCap;
    && |Elements(st.mem.running)| <= cap
    && (forall i | 0 <= i < |st.crs| :: SmallAnnotation(st.crs[i].running, cap))
    && (!st.pass.Idle? ==> SmallAnnotation(st.pass.copy.cr.running, cap))
    && st.hist.cap <= cap
    && (st.pass.ListingJobs? || st.pass.WritingDequeue? ==> st.pass.cap == st.hist.cap)
    && (InLoop(st.pass) ==>
         && st.pass.budget == st.hist.cap - |Elements(st.mem.running)|
         && |st.pass.started| <= (if st.pass.budget > 0 then st.pass.budget else 0))
    && (st.pass.CreatingJob? ==> |st.pass.started| < st.pass.budget)
    && (cap == 0 ==> st.jobs == [])
  }

  lemma UnionSize(a: set<NodeName>, q: seq<NodeName>)
    ensures |a + AsSet(q)| <= |a| + |q|
  {
    var b := AsSet(q);
    AsSetSize(q);
    assert a + b == a + (b - a);
    SubsetSize(b - a, b);
  }

  lemma CapLoop(st: State, e: Event)
    requires Sound(st) && CapInv(st) && Enabled(st, e)
    requires e.ClaimAsked? || e.JobAsked?
    ensures CapInv(Next(st, e))
  {
  }

  lemma CapLoopLeft(st: State)
    requires CapInv(st) && Enabled(st, LoopLeft)
    ensures CapInv(LoopLeftStep(st))
  {
    var all := Elements(st.mem.running) + AsSet(st.pass.started);
    UnionSize(Elements(st.mem.running), st.pass.started);
    assert |all| <= st.hist.maxCap by {
      if st.pass.budget <= 0 {
        assert st.pass.started == [];
        assert all == Elements(st.mem.running);
      }
    }
    var st' := LoopLeftStep(st);
    assert st'.mem == FORGOTTEN || Elements(st'.mem.running) == all;
    assert st'.pass.Idle? || SmallAnnotation(st'.pass.copy.cr.running, st.hist.maxCap);
  }

  lemma CapJobsListed(st: State, e: Event)
    requires CapInv(st) && Enabled(st, e) && e.JobsListed?
    ensures CapInv(Next(st, e))
  {
    var mem' := Next(st, e).mem;
    SubsetSize(Elements(mem'.running), Elements(st.mem.running));
    assert SmallAnnotation(Printed(Entry(mem'.running)), st.hist.maxCap);
  }

  lemma CapBegin(st: State, e: Event)
    requires CapInv(st) && Enabled(st, e) && e.Begin?
    ensures CapInv(Next(st, e))
  {
    var st' := Next(st, e);
    forall i | 0 <= i < |st.crs| ensures SmallAnnotation(st.crs[i].running, st'.hist.maxCap) {
      assert SmallAnnotation(st.crs[i].running, st.hist.maxCap);
    }
  }

  lemma CapListed(st: State, e: Event)
    requires CapInv(st) && Enabled(st, e)
    requires e.NodesListed? || e.Mirrored?
    ensures CapInv(Next(st, e))
  {
  }

  lemma CapWritten(st: State, w: WriteAnswer)
    requires Sound(st) && CapInv(st) && Enabled(st, Written(w))
    ensures CapInv(WrittenStep(st, w))
  {
    assert SmallAnnotation(Latest(st).running, st.hist.maxCap);
    assert SmallAnnotation(Stored(st).running, st.hist.maxCap);
  }

  lemma {:induction false} CapStep(st: State, e: Event)
    requires Sound(st) && CapInv(st)
    ensures CapInv(Step(st, e))
  {
    if Enabled(st, e) {
      if e.Written? { CapWritten(st, e.write); }
      else if e.ClaimAsked? || e.JobAsked? { CapLoop(st, e); }
      else if e.LoopLeft? { CapLoopLeft(st); }
      else if e.Begin? { CapBegin(st, e); }
      else if e.JobsListed? { CapJobsListed(st, e); }
      else if e.Crash? || e.JobFinished? || e.Edited? { }
      else { CapListed(st, e); }
    }
  }

  lemma {:induction false} CapRun(name: string, annotated: bool, es: seq<Event>)
    ensures CapInv(Exec(Fresh(name, annotated), es))
  {
    if es != [] {
      var before := es[..|es| - 1];
      CapRun(name, annotated, before);
      SoundRun(name, annotated, before);
      CapStep(Exec(Fresh(name, annotated), before), es[|es| - 1]);
    }
  }

  /** The running entry and every stored running annotation never hold more nodes than the largest
      concurrency read so far, restarts included; a loop starts at most the concurrency of its own
      pass minus the nodes running when it began, and nothing when that is negative. */
  lemma {:induction false} RunningNeverExceedsCap(name: string, annotated: bool, es: seq<Event>, st: State)
    requires st == Exec(Fresh(name, annotated), es)
    ensures |Elements(st.mem.running)| <= st.hist.maxCap
    ensures forall i | 0 <= i < |st.crs| :: |Elements(st.crs[i].running.Parsed())| <= st.hist.maxCap
    ensures st.hist.cap <= st.hist.maxCap
    ensures InLoop(st.pass) ==> |st.pass.started| <= Max(0, st.hist.cap - |Elements(st.mem.running)|)
    ensures st.hist.maxCap == 0 ==> st.jobs == []
  {
    CapRun(name, annotated, es);
    forall i | 0 <= i < |st.crs| ensures |Elements(st.crs[i].running.Parsed())| <= st.hist.maxCap {
      assert SmallAnnotation(st.crs[i].running, st.hist.maxCap);
    }
  }

  // ---------- Jobs that are not done ----------

  ghost function OpenJobs(jobs: seq<Job>): set<nat> {
    set i | 0 <= i < |jobs| && !jobs[i].done
  }

  /** Jobs of earlier processes, and Jobs whose creation reported an error: the running entry need not know them. */
  ghost function Others(st: State): set<nat> {
    set i | 0 <= i < |st.jobs| && !Reported(st, i)
  }

  /** One of them is done on n. */
  ghost predicate OtherDoneOn(st: State, n: NodeName) {
    exists i | i in Others(st) :: st.jobs[i].node == n && st.jobs[i].done
  }

  /** Every reported Job of this process that is not done is on a running node, or was taken for
      another Job of its node that is done. */
  ghost predicate OpenInv(st: State) {
    forall i | Reported(st, i) && !st.jobs[i].done ::
      || st.jobs[i].node in Elements(st.mem.running)
      || st.jobs[i].node in Started(st.pass)
      || OtherDoneOn(st, st.jobs[i].node)
  }

  lemma OtherDoneStays(st: State, e: Event)
    requires OnceInv(st) && Enabled(st, e)
    ensures forall n | OtherDoneOn(st, n) :: OtherDoneOn(Next(st, e), n)
  {
    var st' := Next(st, e);
    forall n | OtherDoneOn(st, n) ensures OtherDoneOn(st', n) {
      var k :| k in Others(st) && st.jobs[k].node == n && st.jobs[k].done;
      assert k in Others(st') && st'.jobs[k].node == n && st'.jobs[k].done;
    }
  }

  lemma OpenJobsListed(st: State, nodes: set<NodeName>)
    requires OnceInv(st) && OpenInv(st) && Enabled(st, JobsListed(DoneSeen(nodes)))
    ensures OpenInv(JobsListedStep(st, DoneSeen(nodes)))
  {
    var st' := JobsListedStep(st, DoneSeen(nodes));
    OtherDoneStays(st, JobsListed(DoneSeen(nodes)));
    forall i | Reported(st', i) && !st'.jobs[i].done
      ensures st.jobs[i].node !in nodes || OtherDoneOn(st, st.jobs[i].node)
    {
      if st.jobs[i].node in nodes {
        var k :| 0 <= k < |st.jobs| && st.jobs[k].node == st.jobs[i].node && st.jobs[k].done;
        assert Reported(st, i) && !Reported(st, k);
        assert k in Others(st);
      }
    }
  }

  lemma OpenJobAsked(st: State, create: CreateAnswer)
    requires OnceInv(st) && OpenInv(st) && Enabled(st, JobAsked(create))
    ensures OpenInv(JobAskedStep(st, create))
  {
    var st' := JobAskedStep(st, create);
    OtherDoneStays(st, JobAsked(create));
    assert AsSet(st.pass.started + [st.pass.node]) == AsSet(st.pass.started) + {st.pass.node};
    assert forall i | Reported(st', i) :: Reported(st, i) || (i == |st.jobs| && create.Created?);
  }

  lemma OpenLoop(st: State, e: Event)
    requires OnceInv(st) && OpenInv(st) && Enabled(st, e) && (e.ClaimAsked? || e.LoopLeft?)
    ensures OpenInv(Next(st, e))
  {
    OtherDoneStays(st, e);
    assert forall i | Reported(Next(st, e), i) :: Reported(st, i);
  }

  lemma OpenOutside(st: State, e: Event)
    requires OnceInv(st) && OpenInv(st) && Enabled(st, e) && (e.Crash? || e.JobFinished? || e.Edited?)
    ensures OpenInv(Next(st, e))
  {
    OtherDoneStays(st, e);
    assert forall i | Reported(Next(st, e), i) && !Next(st, e).jobs[i].done :: Reported(st, i) && !st.jobs[i].done;
  }

  lemma OpenElsewhere(st: State, e: Event)
    requires OnceInv(st) && OpenInv(st) && Enabled(st, e)
    requires e.Begin? || e.NodesListed? || e == JobsListed(JobListFailed) || e.Written? || e.Mirrored?
    ensures OpenInv(Next(st, e))
  {
    OtherDoneStays(st, e);
    assert forall i | Reported(Next(st, e), i) :: Reported(st, i);
  }

  lemma OpenStep(st: State, e: Event)
    requires OnceInv(st) && OpenInv(st)
    ensures OpenInv(Step(st, e))
  {
    if Enabled(st, e) {
      if e.JobsListed? && e.jobs.DoneSeen? { OpenJobsListed(st, e.jobs.nodes); }
      else if e.JobAsked? { OpenJobAsked(st, e.create); }
      else if e.ClaimAsked? || e.LoopLeft? { OpenLoop(st, e); }
      else if e.Crash? || e.JobFinished? || e.Edited? { OpenOutside(st, e); }
      else { OpenElsewhere(st, e); }
    }
  }

  lemma {:induction false} OpenRun(name: string, annotated: bool, es: seq<Event>)
    requires Always(Fresh(name, annotated), es, SchedulesOnce)
    ensures OpenInv(Exec(Fresh(name, annotated), es))
  {
    if es != [] {
      var before := es[..|es| - 1];
      OpenRun(name, annotated, before);
      OnceRun(name, annotated, before);
      OpenStep(Exec(Fresh(name, annotated), before), es[|es| - 1]);
    }
  }

  lemma {:induction false} DistinctNodesBound(jobs: seq<Job>, some: set<nat>, nodes: set<NodeName>)
    requires forall i, j | i in some && j in some && i != j :: i < |jobs| && j < |jobs| && jobs[i].node != jobs[j].node
    requires forall i | i in some :: i < |jobs| && jobs[i].node in nodes
    ensures |some| <= |nodes|
    decreases some
  {
    if some != {} {
      var i :| i in some;
      DistinctNodesBound(jobs, some - {i}, nodes - {jobs[i].node});
    }
  }

  ghost function NodesOf(jobs: seq<Job>, some: set<nat>): set<NodeName> {
    set i | i in some && i < |jobs| :: jobs[i].node
  }

  lemma {:induction false} NodesBound(jobs: seq<Job>, some: set<nat>)
    ensures |NodesOf(jobs, some)| <= |some|
    decreases some
  {
    if some != {} {
      var i :| i in some;
      var fewer := some - {i};
      NodesBound(jobs, fewer);
      if i < |jobs| {
        assert NodesOf(jobs, some) == NodesOf(jobs, fewer) + {jobs[i].node};
      } else {
        assert NodesOf(jobs, some) == NodesOf(jobs, fewer);
      }
    } else {
      assert NodesOf(jobs, some) == {};
    }
  }

  /** Running nodes and those started in this loop are within the largest concurrency read. */
  lemma RunningAndStarted(st: State)
    requires CapInv(st)
    ensures |Elements(st.mem.running) + Started(st.pass)| <= st.hist.maxCap
  {
    if InLoop(st.pass) {
      UnionSize(Elements(st.mem.running), st.pass.started);
      if st.pass.budget <= 0 { assert Elements(st.mem.running) + Started(st.pass) == Elements(st.mem.running); }
    } else {
      assert Elements(st.mem.running) + Started(st.pass) == Elements(st.mem.running);
    }
  }

  ghost function DoneOthers(st: State): set<nat> {
    set i | i in Others(st) && st.jobs[i].done
  }

  lemma ReportedOpenJobs(st: State, i: nat)
    requires OpenInv(st) && i in OpenJobs(st.jobs) - Others(st)
    ensures Reported(st, i)
    ensures st.jobs[i].node in Elements(st.mem.running) + Started(st.pass) + NodesOf(st.jobs, DoneOthers(st))
  {
    assert Reported(st, i);
    var n := st.jobs[i].node;
    if OtherDoneOn(st, n) {
      var k :| k in Others(st) && st.jobs[k].node == n && st.jobs[k].done;
      assert k in DoneOthers(st);
    }
  }

  lemma ReportedOpenBound(st: State)
    requires OnceInv(st) && OpenInv(st) && CapInv(st)
    ensures |OpenJobs(st.jobs) - Others(st)| <= st.hist.maxCap + |DoneOthers(st)|
  {
    var some := OpenJobs(st.jobs) - Others(st);
    var busy, freed := Elements(st.mem.running) + Started(st.pass), NodesOf(st.jobs, DoneOthers(st));
    forall i | i in some ensures Reported(st, i) && st.jobs[i].node in busy + freed { ReportedOpenJobs(st, i); }
    DistinctNodesBound(st.jobs, some, busy + freed);
    RunningAndStarted(st);
    NodesBound(st.jobs, DoneOthers(st));
    SizeOfUnion(busy, freed);
  }

  lemma SizeOfUnion<T>(a: set<T>, b: set<T>)
    ensures |a + b| <= |a| + |b|
  {
    assert a + b == a + (b - a);
    SubsetSize(b - a, b);
  }

  lemma SizeOfParts<T>(a: set<T>, b: set<T>, c: set<T>)
    requires c <= b && a !! c
    ensures |a| + |c| <= |a - b| + |b|
  {
    assert a == (a - b) + (a * b);
    assert (a * b) !! c;
    SubsetSize((a * b) + c, b);
  }

  /** Splits the Jobs that are not done into those the process knows and the others, and bounds each part. */
  lemma OpenJobsBound(st: State)
    requires OnceInv(st) && OpenInv(st) && CapInv(st)
    ensures |OpenJobs(st.jobs)| <= st.hist.maxCap + |Others(st)|
  {
    ReportedOpenBound(st);
    SizeOfParts(OpenJobs(st.jobs), Others(st), DoneOthers(st));
  }

  /** The Jobs that are not done are at most as many as the largest concurrency read, plus one for each Job
      of an earlier process and each Job whose creation was stored but answered with an error. */
  lemma {:induction false} OpenJobsNeverExceedCap(name: string, annotated: bool, es: seq<Event>, st: State)
    requires Always(Fresh(name, annotated), es, SchedulesOnce)
    requires st == Exec(Fresh(name, annotated), es)
    ensures |OpenJobs(st.jobs)| <= st.hist.maxCap + |Others(st)|
    ensures st.hist.lifeStart == 0 ==> |OpenJobs(st.jobs)| <= st.hist.maxCap + |st.hist.strays|
  {
    OnceRun(name, annotated, es);
    OpenRun(name, annotated, es);
    CapRun(name, annotated, es);
    OpenJobsBound(st);
    if st.hist.lifeStart == 0 {
      assert Others(st) == st.hist.strays;
    }
  }
}
