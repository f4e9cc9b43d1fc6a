/** What every run keeps: a pass in flight agrees with the version it read, and the persisted phase only advances. */
module Phases {
  import opened Wrappers
  import opened Codec
  import opened Protocol

  /** Where a status stands: 0 not started, 1 in progress, 2 finished, 3 both flags set. */
  function Rank(s: Status): nat {
    if s.inProgress then (if s.finished then 3 else 1) else if s.finished then 2 else 0
  }

  /** A nil annotation map holds no annotation. */
  predicate CrOk(cr: Cr) {
    !cr.annotated ==> cr.toRun == Absent && cr.running == Absent
  }

  predicate InQueuePass(p: Pass) {
    || p.ListingJobs? || p.WritingDequeue? || p.Choosing? || p.CreatingJob?
    || p.WritingQueues? || p.Mirroring? || p.WritingStatus?
  }

  predicate InLoop(p: Pass) {
    p.Choosing? || p.CreatingJob?
  }

  function Started(p: Pass): set<NodeName> {
    if InLoop(p) then AsSet(p.started) else {}
  }

  /** The copy a pass works on, against the version it was read at. */
  predicate CopyOk(st: State) {
    st.pass.Idle? ||
    (var c := st.pass.copy;
     && c.version < |st.crs|
     && CrOk(c.cr)
     && var base := st.crs[c.version];
     && match st.pass {
          case ListingNodes(_) => c.cr == base && Rank(base.status) == 0
          case WritingSchedule(_) => c.cr.status == base.status && Rank(base.status) == 0 && c.cr.annotated
          case WritingScheduled(_) => Rank(base.status) == 0 && Rank(c.cr.status) <= 1
          case ListingJobs(_, _) => c.cr == base && Rank(base.status) <= 1
          case WritingStatus(_) => Rank(base.status) <= Rank(c.cr.status) <= 2
          case _ => c.cr.status == base.status && Rank(base.status) <= 1
        })
  }

  /** Until the loop ends the copy keeps the to-run annotation it was read with. */
  predicate KeepsToRun(st: State) {
    st.pass.ListingJobs? || st.pass.WritingDequeue? || InLoop(st.pass) ==>
      var c := st.pass.copy;
      c.version < |st.crs| && c.cr.toRun == st.crs[c.version].toRun
  }

  /** The nodes still to visit and those started in this pass come from the to-run entry. */
  predicate LoopOk(st: State) {
    InLoop(st.pass) ==>
      var p := st.pass;
      && p.todo <= Elements(st.mem.toRun)
      && AsSet(p.started) <= Elements(st.mem.toRun)
      && p.todo !! AsSet(p.started)
      && NoRepeats(p.started)
      && (forall n | n in p.started :: CreatedOn(st.jobs, n))
      && (p.CreatingJob? ==> p.node in Elements(st.mem.toRun) && p.node !in p.todo && p.node !in p.started)
  }

  /** The annotations a write carries are those of the memory. */
  predicate CarriesMemory(st: State) {
    && (st.pass.WritingDequeue? ==> st.pass.copy.cr.running == Printed(Entry(st.mem.running)))
    && (st.pass.WritingQueues? || st.pass.Mirroring? ==>
         && st.pass.copy.cr.running == Printed(Entry(st.mem.running))
         && st.pass.copy.cr.toRun == Printed(Entry(st.mem.toRun)))
    && (st.pass.WritingSchedule? ==> st.mem.toRun.Some? && st.pass.copy.cr.toRun == Printed(st.mem.toRun.value)
                                     && st.hist.scheduled == Some(Elements(st.mem.toRun)) && !st.hist.landed)
    && (st.pass.ListingNodes? || st.pass.WritingSchedule? || st.pass.WritingScheduled? ==> st.mem.onRunList)
  }

  // ---------- facts about single steps ----------

  /** An enumeration is as long as the set it enumerates. */
  lemma {:induction false} EnumerationSize(q: seq<NodeName>, s: set<NodeName>)
    requires Enumerates(q, s)
    ensures |q| == |s|
    decreases |q|
  {
    if q == [] {
      assert s == {};
    } else {
      var n := |q| - 1;
      assert AsSet(q) == AsSet(q[..n]) + {q[n]};
      EnumerationSize(q[..n], AsSet(q[..n]));
    }
  }

  lemma CreatedStays(st: State, e: Event)
    requires Enabled(st, e)
    ensures forall n | CreatedOn(st.jobs, n) :: CreatedOn(Next(st, e).jobs, n)
  {
    forall n | CreatedOn(st.jobs, n) ensures CreatedOn(Next(st, e).jobs, n) {
      var k :| 0 <= k < |st.jobs| && st.jobs[k].node == n;
      assert Next(st, e).jobs[k].node == n;
    }
  }

  lemma DoneStays(st: State, e: Event)
    requires Enabled(st, e)
    ensures forall n | DoneOn(st.jobs, n) :: DoneOn(Next(st, e).jobs, n)
  {
    forall n | DoneOn(st.jobs, n) ensures DoneOn(Next(st, e).jobs, n) {
      var k :| 0 <= k < |st.jobs| && st.jobs[k].node == n && st.jobs[k].done;
      assert Next(st, e).jobs[k].node == n && Next(st, e).jobs[k].done;
    }
  }

  predicate OnlyAdvances(crs: seq<Cr>) {
    && |crs| > 0
    && (forall i | 0 <= i < |crs| :: Rank(crs[i].status) <= 2 && CrOk(crs[i]))
    && (forall i, j | 0 <= i <= j < |crs| :: Rank(crs[i].status) <= Rank(crs[j].status))
  }

  predicate Sound(st: State) {
    OnlyAdvances(st.crs) && CopyOk(st) && KeepsToRun(st) && LoopOk(st) && CarriesMemory(st)
  }

  lemma AppendAdvances(crs: seq<Cr>, cr: Cr)
    requires OnlyAdvances(crs) && CrOk(cr) && Rank(crs[|crs| - 1].status) <= Rank(cr.status) <= 2
    ensures OnlyAdvances(crs + [cr])
  {
    var all := crs + [cr];
    forall i, j | 0 <= i <= j < |all| ensures Rank(all[i].status) <= Rank(all[j].status) {
      if i < |crs| { assert Rank(crs[i].status) <= Rank(crs[|crs| - 1].status); }
    }
  }

  lemma WrittenAdvances(st: State, write: WriteAnswer)
    requires Sound(st) && Enabled(st, Written(write)) && !write.Refused?
    ensures OnlyAdvances(st.crs + [Stored(st)])
    ensures CrOk(Stored(st))
  {
    assert Latest(st) == st.crs[st.pass.copy.version];
    AppendAdvances(st.crs, Stored(st));
  }

  lemma SoundRefused(st: State)
    requires Sound(st) && Enabled(st, Written(Refused))
    ensures Sound(WrittenStep(st, Refused))
  {
    assert AsSet([]) == {};
  }

  lemma SoundWritten(st: State, write: WriteAnswer)
    requires Sound(st) && Enabled(st, Written(write)) && !write.Refused?
    ensures Sound(WrittenStep(st, write))
  {
    WrittenAdvances(st, write);
    var st' := WrittenStep(st, write);
    assert st'.crs == st.crs + [Stored(st)];
    assert AsSet([]) == {};
    assert st.crs[st.pass.copy.version] == st'.crs[st.pass.copy.version];
  }

  lemma SoundClaimAsked(st: State, e: Event)
    requires Sound(st) && Enabled(st, e) && e.ClaimAsked?
    ensures Sound(Next(st, e))
  {
  }

  lemma SoundJobAsked(st: State, create: CreateAnswer)
    requires Sound(st) && Enabled(st, JobAsked(create))
    ensures Sound(JobAskedStep(st, create))
  {
    var p := st.pass;
    CreatedStays(st, JobAsked(create));
    assert AsSet(p.started + [p.node]) == AsSet(p.started) + {p.node};
    if create.Created? { assert JobAskedStep(st, create).jobs[|st.jobs|].node == p.node; }
  }

  lemma SoundLoopLeft(st: State)
    requires Sound(st) && Enabled(st, LoopLeft)
    ensures Sound(LoopLeftStep(st))
  {
  }

  lemma SoundBegin(st: State, e: Event)
    requires Sound(st) && Enabled(st, e) && e.Begin?
    ensures Sound(Next(st, e))
  {
  }

  lemma SoundListed(st: State, e: Event)
    requires Sound(st) && Enabled(st, e)
    requires e.NodesListed? || e.JobsListed? || e.Mirrored?
    ensures Sound(Next(st, e))
  {
    assert AsSet([]) == {};
  }

  lemma SoundOutside(st: State, e: Event)
    requires Sound(st) && Enabled(st, e)
    requires e.Crash? || e.JobFinished? || e.Edited?
    ensures Sound(Next(st, e))
  {
    CreatedStays(st, e);
    if e.Edited? { AppendAdvances(st.crs, Latest(st)); }
  }

  lemma SoundStep(st: State, e: Event)
    requires Sound(st)
    ensures Sound(Step(st, e))
  {
    if Enabled(st, e) {
      if e.Written? && e.write.Refused? { SoundRefused(st); }
      else if e.Written? { SoundWritten(st, e.write); }
      else if e.ClaimAsked? { SoundClaimAsked(st, e); }
      else if e.JobAsked? { SoundJobAsked(st, e.create); }
      else if e.LoopLeft? { SoundLoopLeft(st); }
      else if e.Begin? { SoundBegin(st, e); }
      else if e.NodesListed? || e.JobsListed? || e.Mirrored? { SoundListed(st, e); }
      else { SoundOutside(st, e); }
    }
  }

  lemma {:induction false} SoundRun(name: string, annotated: bool, es: seq<Event>)
    ensures Sound(Exec(Fresh(name, annotated), es))
  {
    if es != [] {
      SoundRun(name, annotated, es[..|es| - 1]);
      SoundStep(Exec(Fresh(name, annotated), es[..|es| - 1]), es[|es| - 1]);
    }
  }

  /** In every run the stored phase goes from (F,F) to (T,F) or (F,T), from (T,F) only to (F,T),
      never leaves (F,T), and is never (T,T). */
  lemma {:induction false} PhaseSafety(name: string, annotated: bool, es: seq<Event>, st: State, i: nat, j: nat)
    requires st == Exec(Fresh(name, annotated), es)
    requires i <= j < |st.crs|
    ensures Rank(st.crs[0].status) == 0
    ensures Rank(st.crs[i].status) <= Rank(st.crs[j].status) <= 2
  {
    SoundRun(name, annotated, es);
    FirstVersionStays(Fresh(name, annotated), es);
    assert st.crs[0] == st.crs[..1][0];
  }

  lemma StepKeepsVersions(st: State, e: Event)
    requires |st.crs| > 0
    ensures |Step(st, e).crs| >= |st.crs| && Step(st, e).crs[..|st.crs|] == st.crs
  {
  }

  lemma {:induction false} FirstVersionStays(st: State, es: seq<Event>)
    requires |st.crs| > 0
    ensures |Exec(st, es).crs| >= |st.crs| && Exec(st, es).crs[..|st.crs|] == st.crs
  {
    if es != [] {
      var before := Exec(st, es[..|es| - 1]);
      FirstVersionStays(st, es[..|es| - 1]);
      StepKeepsVersions(before, es[|es| - 1]);
      var after := Exec(st, es);
      assert after.crs[..|st.crs|] == after.crs[..|before.crs|][..|st.crs|];
    }
  }
}
