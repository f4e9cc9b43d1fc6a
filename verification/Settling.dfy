/**
 What a pass records is stored once: a pass over the latest version whose writes all succeed leaves annotations
 that are the texts of the records, and from then on a pass that finds nothing new writes no annotations.
 */
module Settling {
  import opened Wrappers
  import opened Codec
  import opened Protocol
  import opened Phases

  /** The annotations of the latest version are the texts of the records. */
  ghost predicate Recorded(st: State) {
    && |st.crs| > 0 && st.mem.running.Some? && st.mem.running.value.Names?
    && Latest(st).annotated && Texts(st, Latest(st))
  }

  ghost predicate Settled(st: State) {
    st.pass == Idle && Recorded(st)
  }

  ghost predicate Texts(st: State, cr: Cr) {
    cr.toRun == Printed(Entry(st.mem.toRun)) && cr.running == Printed(Entry(st.mem.running))
  }

  // ---------- a pass whose writes succeed ----------

  /** Inside a pass, with every write accepted. */
  ghost predicate Succeeding(st: State, e: Event) {
    && !e.Begin? && !e.Crash? && !e.JobFinished? && !e.Edited?
    && (e.Written? ==> e.write.Accepted?)
  }

  /** The copy is the latest version but for what the next write will store. */
  ghost predicate UpToDate(st: State) {
    var p := st.pass;
    && |st.crs| > 0 && CrOk(Latest(st))
    && (!p.Idle? ==> p.copy.version == |st.crs| - 1 && CrOk(p.copy.cr))
    && (p.ListingJobs? || p.Choosing? || p.CreatingJob? || p.Mirroring? ==> p.copy.cr == Latest(st))
    && (p.WritingDequeue? || p.WritingQueues? ==> p.copy.cr.status == Latest(st).status && p.copy.cr.annotated)
    && (p.WritingQueues? || p.Mirroring? || p.WritingStatus? ==>
         st.mem.running.Some? && st.mem.running.value.Names? && p.copy.cr.annotated && Texts(st, p.copy.cr))
    && (p.WritingStatus? ==> p.copy.cr.(status := Latest(st).status) == Latest(st))
    && !p.ListingNodes? && !p.WritingSchedule? && !p.WritingScheduled?
  }

  ghost predicate SettlesFrom(lives: nat, st: State) {
    st.hist.lives == lives ==> UpToDate(st) && (st.pass.Idle? ==> Settled(st))
  }

  lemma SettlesWritten(st: State)
    requires UpToDate(st) && Enabled(st, Written(Accepted))
    ensures var st' := WrittenStep(st, Accepted);
      UpToDate(st') && (st'.pass.Idle? ==> Settled(st')) && st'.hist.lives == st.hist.lives
  {
    var st' := WrittenStep(st, Accepted);
    assert st'.crs == st.crs + [Stored(st)];
  }

  lemma SettlesListed(st: State, e: Event)
    requires UpToDate(st) && Enabled(st, e) && e.JobsListed?
    ensures UpToDate(Next(st, e)) && !Next(st, e).pass.Idle? && Next(st, e).hist.lives == st.hist.lives
  {
  }

  lemma SettlesLeft(st: State)
    requires UpToDate(st) && Enabled(st, LoopLeft)
    ensures var st' := LoopLeftStep(st);
      if st.pass.copy.cr.annotated then UpToDate(st') && !st'.pass.Idle? && st'.hist.lives == st.hist.lives
      else st'.hist.lives > st.hist.lives
  {
  }

  lemma {:induction false} SettlesOn(lives: nat, st: State, e: Event)
    requires st.hist.lives >= lives && SettlesFrom(lives, st) && Succeeding(st, e)
    ensures Step(st, e).hist.lives >= lives && SettlesFrom(lives, Step(st, e))
  {
    if Enabled(st, e) && st.hist.lives == lives {
      if e.Written? { SettlesWritten(st); }
      else if e.JobsListed? { SettlesListed(st, e); }
      else if e.LoopLeft? { SettlesLeft(st); }
    }
  }

  lemma {:induction false} SettlesAlong(lives: nat, st: State, es: seq<Event>)
    requires st.hist.lives >= lives && SettlesFrom(lives, st) && Always(st, es, Succeeding)
    ensures Exec(st, es).hist.lives >= lives && SettlesFrom(lives, Exec(st, es))
  {
    if es != [] {
      SettlesAlong(lives, st, es[..|es| - 1]);
      SettlesOn(lives, Exec(st, es[..|es| - 1]), es[|es| - 1]);
    }
  }

  /** A queue pass over the latest version whose writes are all accepted, and that does not panic, leaves the CR
      settled when it is over. */
  lemma {:induction false} PassSettles(
      name: string, annotated: bool, before: seq<Event>, st: State, e: Event, es: seq<Event>, st': State)
    requires st == Exec(Fresh(name, annotated), before)
    requires e.Begin? && e.version + 1 == |st.crs| && Enabled(st, e) && TakesQueueBranch(st, e.version)
    requires Always(Step(st, e), es, Succeeding) && st' == Exec(Step(st, e), es)
    requires st'.pass == Idle && st'.hist.lives == st.hist.lives
    ensures Settled(st')
  {
    SoundRun(name, annotated, before);
    SettlesAlong(st.hist.lives, Step(st, e), es);
  }

  // ---------- a pass that finds nothing new ----------

  /** Inside a pass, with no running node seen done and no Job started. Creates may fail or lose their replies, and
      so may the status write. */
  ghost predicate NothingNew(st: State, e: Event) {
    && !e.Begin? && !e.Crash? && !e.JobFinished? && !e.Edited?
    && (e.JobsListed? && e.jobs.DoneSeen? ==> e.jobs.nodes !! Elements(st.mem.running))
    && (e.JobAsked? ==> !e.create.Created?)
  }

  /** The pass works on the settled version and has not started anything; what it can still write is the status. */
  ghost predicate StillSettled(was: State, st: State)
    requires |was.crs| > 0
  {
    var p, cr := st.pass, Latest(was);
    && st.mem == was.mem && st.crs == was.crs
    && (p.ListingJobs? || p.Choosing? || p.CreatingJob? || p.Mirroring? || p.WritingStatus?)
    && (p.ListingJobs? || p.Choosing? || p.CreatingJob? || p.Mirroring? ==> p.copy.cr == cr)
    && (p.Choosing? || p.CreatingJob? ==> p.started == [])
    && p.copy.cr.(status := cr.status) == cr
  }

  /** At the end, at most one version more, with the same annotations. */
  ghost predicate OnlyStatusWritten(was: State, st: State)
    requires |was.crs| > 0
  {
    && st.pass == Idle && st.mem == was.mem
    && (st.crs == was.crs || exists s: Status :: st.crs == was.crs + [Latest(was).(status := s)])
  }

  ghost predicate QuietFrom(was: State, st: State)
    requires |was.crs| > 0
  {
    && st.hist.lives >= was.hist.lives
    && (st.hist.lives == was.hist.lives ==> StillSettled(was, st) || OnlyStatusWritten(was, st))
    && (st.hist.lives > was.hist.lives ==> st.pass == Idle && st.crs == was.crs)
  }

  lemma SameRecords(m: Memory, gone: set<NodeName>)
    requires gone !! Elements(m.running)
    ensures Without(m.running, gone) == m.running
    ensures Without(m.toRun, {}) == m.toRun
  {
    if m.running.Some? && m.running.value.Names? { assert m.running.value.names - gone == m.running.value.names; }
    if m.toRun.Some? && m.toRun.value.Names? { assert m.toRun.value.names - {} == m.toRun.value.names; }
  }

  lemma QuietListed(was: State, st: State, e: Event)
    requires Recorded(was) && StillSettled(was, st) && NothingNew(st, e) && Enabled(st, e) && e.JobsListed?
    ensures StillSettled(was, Next(st, e)) && Next(st, e).hist.lives == st.hist.lives
  {
    if e.jobs.DoneSeen? { SameRecords(st.mem, e.jobs.nodes); }
  }

  lemma QuietLeft(was: State, st: State)
    requires Recorded(was) && StillSettled(was, st) && Enabled(st, LoopLeft)
    ensures StillSettled(was, LoopLeftStep(st)) && LoopLeftStep(st).hist.lives == st.hist.lives
  {
    SameRecords(st.mem, {});
    assert AsSet([]) == {} && Elements(st.mem.running) + {} == Elements(st.mem.running);
  }

  lemma QuietWritten(was: State, st: State, w: WriteAnswer)
    requires Recorded(was) && StillSettled(was, st) && Enabled(st, Written(w))
    ensures OnlyStatusWritten(was, WrittenStep(st, w)) && WrittenStep(st, w).hist.lives == st.hist.lives
  {
    if !w.Refused? {
      assert WrittenStep(st, w).crs == was.crs + [Latest(was).(status := st.pass.copy.cr.status)];
    }
  }

  lemma {:induction false} QuietOn(was: State, st: State, e: Event)
    requires Recorded(was) && QuietFrom(was, st) && NothingNew(st, e)
    ensures QuietFrom(was, Step(st, e))
  {
    if Enabled(st, e) {
      if e.JobsListed? { QuietListed(was, st, e); }
      else if e.LoopLeft? { QuietLeft(was, st); }
      else if e.Written? { QuietWritten(was, st, e.write); }
    }
  }

  lemma {:induction false} QuietAlong(was: State, st: State, es: seq<Event>)
    requires Recorded(was) && QuietFrom(was, st) && Always(st, es, NothingNew)
    ensures QuietFrom(was, Exec(st, es))
  {
    if es != [] {
      QuietAlong(was, st, es[..|es| - 1]);
      QuietOn(was, Exec(st, es[..|es| - 1]), es[|es| - 1]);
    }
  }

  lemma QuietStart(was: State, e: Event)
    requires Settled(was) && e.Begin? && e.version + 1 == |was.crs| && TakesQueueBranch(was, e.version)
    ensures var st := Step(was, e);
      && Recorded(st) && QuietFrom(st, st) && st.crs == was.crs && st.hist.lives == was.hist.lives
      && Elements(st.mem.toRun) == Elements(was.mem.toRun) && st.mem.running == was.mem.running
  {
  }

  lemma QuietEnd(was: State, st: State)
    requires |was.crs| > 0 && QuietFrom(was, st)
    ensures !st.pass.WritingDequeue? && !st.pass.WritingQueues?
    ensures |was.crs| <= |st.crs| <= |was.crs| + 1 && st.crs[..|was.crs|] == was.crs
    ensures |st.crs| > |was.crs| ==> Latest(st) == Latest(was).(status := Latest(st).status)
    ensures st.hist.lives == was.hist.lives ==> st.mem == was.mem
  {
    assert was.crs[..|was.crs|] == was.crs;
  }

  /** Over a settled CR, a pass that finds nothing new comes to no write of annotations: at its end the records hold
      the same nodes, and the store has gained at most a status. */
  lemma {:induction false} NothingNewNothingWritten(was: State, e: Event, es: seq<Event>, st: State)
    requires Settled(was) && e.Begin? && e.version + 1 == |was.crs| && TakesQueueBranch(was, e.version)
    requires Always(Step(was, e), es, NothingNew) && st == Exec(Step(was, e), es)
    ensures !st.pass.WritingDequeue? && !st.pass.WritingQueues?
    ensures |was.crs| <= |st.crs| <= |was.crs| + 1 && st.crs[..|was.crs|] == was.crs
    ensures |st.crs| > |was.crs| ==> Latest(st) == Latest(was).(status := Latest(st).status)
    ensures st.hist.lives == was.hist.lives ==>
      Elements(st.mem.toRun) == Elements(was.mem.toRun) && st.mem.running == was.mem.running
  {
    QuietStart(was, e);
    QuietAlong(Step(was, e), Step(was, e), es);
    QuietEnd(Step(was, e), st);
  }
}
