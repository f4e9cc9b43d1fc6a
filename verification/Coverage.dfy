/**
 No node is lost, and Finished means done, whatever fails and whenever the process dies.

 `covers` below says every node of the latest scheduling is in one of two places. While the process that
 scheduled is alive this needs no premise. A later process has only what was stored, so there the
 results speak of schedulings that what was stored accounts for, and of what is read back.
 */
module Coverage {
  import opened Wrappers
  import opened Codec
  import opened Protocol
  import opened Phases

  /** Every scheduled node is still to run according to `o`, or has a Job. */
  ghost predicate KeptOrCreated(st: State, o: Option<NodeSet>) {
    forall n | n in Scheduled(st) :: n in Elements(o) || CreatedOn(st.jobs, n)
  }

  // ---------- premises on recovery reads ----------

  /** A pass that has to load the to-run entry. */
  ghost predicate LoadsToRun(st: State, e: Event) {
    e.Begin? && st.mem.toRun.None? && TakesQueueBranch(st, e.version)
  }

  /** The version it reads is the latest. */
  ghost predicate RecoversCurrent(st: State, e: Event) {
    st.hist.kept && LoadsToRun(st, e) ==> e.version == |st.crs| - 1
  }

  /** It is not older than the scheduling. */
  ghost predicate RecoversAfterScheduling(st: State, e: Event) {
    st.hist.landed && LoadsToRun(st, e) ==> st.hist.landedAt <= e.version
  }

  /** The to-run annotation it loads holds every scheduled node without a Job. */
  ghost predicate RecoversKept(st: State, e: Event) {
    st.hist.landed && LoadsToRun(st, e) && st.crs[e.version].toRun.Parsed().Some? ==>
      KeptOrCreated(st, st.crs[e.version].toRun.Parsed())
  }

  /** What it will have in memory covers the scheduled nodes, and so does the running part of it
      together with the stored to-run annotation. */
  ghost predicate LoadsCovering(st: State, m: Memory)
    requires |st.crs| > 0
  {
    && (m.toRun.Some? ==> Covered(st, m.toRun, m.running))
    && Covered(st, Latest(st).toRun.Parsed(), m.running)
  }

  ghost predicate RecoversCovered(st: State, e: Event) {
    st.hist.kept && LoadsToRun(st, e) ==> LoadsCovering(st, Recovered(st.mem, st.crs[e.version]))
  }

  // ---------- the process that scheduled ----------

  ghost predicate OwnInv(st: State) {
    && (st.hist.own ==>
         && st.hist.scheduled.Some? && st.mem.toRun.Some?
         && KeptOrCreated(st, st.mem.toRun) && Covered(st, st.mem.toRun, st.mem.running))
    && (st.pass.WritingSchedule? ==> st.hist.own)
    && (st.hist.landed ==> st.hist.scheduled.Some? && st.hist.kept)
    && (st.hist.own && st.hist.kept ==> st.hist.landed)
  }

  lemma OwnLoop(st: State, e: Event)
    requires OwnInv(st) && Enabled(st, e) && (e.ClaimAsked? || e.JobAsked?)
    ensures OwnInv(Next(st, e))
  {
    CreatedStays(st, e);
    DoneStays(st, e);
  }

  lemma OwnLoopLeft(st: State)
    requires Sound(st) && OwnInv(st) && Enabled(st, LoopLeft)
    ensures OwnInv(LoopLeftStep(st))
  {
  }

  lemma OwnListed(st: State, e: Event)
    requires OwnInv(st) && Enabled(st, e)
    requires e.Begin? || e.NodesListed? || e.JobsListed? || e.Mirrored? || e.Written?
    ensures OwnInv(Next(st, e))
  {
  }

  lemma OwnOutside(st: State, e: Event)
    requires OwnInv(st) && Enabled(st, e)
    requires e.Crash? || e.JobFinished? || e.Edited?
    ensures OwnInv(Next(st, e))
  {
    CreatedStays(st, e);
    DoneStays(st, e);
  }

  lemma {:induction false} OwnRun(name: string, annotated: bool, es: seq<Event>)
    ensures OwnInv(Exec(Fresh(name, annotated), es))
  {
    if es != [] {
      var before := es[..|es| - 1];
      OwnRun(name, annotated, before);
      SoundRun(name, annotated, before);
      var st, e := Exec(Fresh(name, annotated), before), es[|es| - 1];
      if Enabled(st, e) {
        if e.ClaimAsked? || e.JobAsked? { OwnLoop(st, e); }
        else if e.LoopLeft? { OwnLoopLeft(st); }
        else if e.Crash? || e.JobFinished? || e.Edited? { OwnOutside(st, e); }
        else { OwnListed(st, e); }
      }
    }
  }

  /** The process that scheduled remembers every node, with no premise at all: stored or not, whatever is
      read, and whatever fails. */
  lemma {:induction false} SchedulerRemembers(name: string, annotated: bool, es: seq<Event>, st: State, n: NodeName)
    requires st == Exec(Fresh(name, annotated), es)
    requires st.hist.own && n in Scheduled(st)
    ensures n in Elements(st.mem.toRun) || CreatedOn(st.jobs, n)
    ensures n in Elements(st.mem.toRun) || n in Elements(st.mem.running) || DoneOn(st.jobs, n)
  {
    OwnRun(name, annotated, es);
  }

  // ---------- no node is lost ----------

  ghost predicate NothingLost(st: State) {
    st.hist.landed ==>
      && (st.mem.toRun.Some? ==> KeptOrCreated(st, st.mem.toRun))
      && (forall i | st.hist.landedAt <= i < |st.crs| ::
          st.crs[i].toRun.Parsed().Some? && KeptOrCreated(st, st.crs[i].toRun.Parsed()))
  }

  ghost predicate LoadedOnLatest(st: State) {
    InQueuePass(st.pass) && st.pass.copy.version == |st.crs| - 1 ==> st.mem.toRun.Some?
  }

  ghost predicate LostInv(st: State) {
    && NothingLost(st)
    && (st.hist.landed ==> st.hist.landedAt < |st.crs| && LoadedOnLatest(st))
  }

  lemma LostStored(st: State, w: WriteAnswer)
    requires Sound(st) && OwnInv(st) && LostInv(st) && Enabled(st, Written(w)) && !w.Refused?
    requires WrittenStep(st, w).hist.landed
    ensures Stored(st).toRun.Parsed().Some? && KeptOrCreated(st, Stored(st).toRun.Parsed())
  {
    assert Latest(st) == st.crs[st.pass.copy.version];
    if st.hist.landed {
      assert Latest(st).toRun.Parsed().Some? && KeptOrCreated(st, st.crs[|st.crs| - 1].toRun.Parsed());
    }
  }

  lemma LostWritten(st: State, w: WriteAnswer)
    requires Sound(st) && OwnInv(st) && LostInv(st) && Enabled(st, Written(w))
    ensures LostInv(WrittenStep(st, w))
  {
    var st' := WrittenStep(st, w);
    if !w.Refused? && st'.hist.landed {
      LostStored(st, w);
      forall i | st'.hist.landedAt <= i < |st'.crs|
        ensures st'.crs[i].toRun.Parsed().Some? && KeptOrCreated(st', st'.crs[i].toRun.Parsed()) {
        assert KeptOrCreated(st, st'.crs[i].toRun.Parsed());
      }
    }
  }

  lemma LostClaimAsked(st: State, e: Event)
    requires LostInv(st) && Enabled(st, e) && e.ClaimAsked?
    ensures LostInv(Next(st, e))
  {
  }

  lemma LostJobAsked(st: State, e: Event)
    requires LostInv(st) && Enabled(st, e) && e.JobAsked?
    ensures LostInv(Next(st, e))
  {
    CreatedStays(st, e);
  }

  lemma LostLoopLeft(st: State)
    requires Sound(st) && LostInv(st) && Enabled(st, LoopLeft)
    ensures LostInv(LoopLeftStep(st))
  {
  }

  lemma LostListed(st: State, e: Event)
    requires Sound(st) && LostInv(st) && Enabled(st, e) && RecoversKept(st, e)
    requires e.Begin? || e.NodesListed? || e.JobsListed? || e.Mirrored?
    ensures LostInv(Next(st, e))
  {
  }

  lemma LostOutside(st: State, e: Event)
    requires Sound(st) && LostInv(st) && Enabled(st, e)
    requires e.Crash? || e.JobFinished? || e.Edited?
    ensures LostInv(Next(st, e))
  {
    CreatedStays(st, e);
  }

  lemma LostStep(st: State, e: Event)
    requires Sound(st) && OwnInv(st) && LostInv(st) && RecoversKept(st, e)
    ensures LostInv(Step(st, e))
  {
    if Enabled(st, e) {
      if e.Written? { LostWritten(st, e.write); }
      else if e.ClaimAsked? { LostClaimAsked(st, e); }
      else if e.JobAsked? { LostJobAsked(st, e); }
      else if e.LoopLeft? { LostLoopLeft(st); }
      else if e.Crash? || e.JobFinished? || e.Edited? { LostOutside(st, e); }
      else { LostListed(st, e); }
    }
  }

  lemma {:induction false} LostRun(name: string, annotated: bool, es: seq<Event>)
    requires Always(Fresh(name, annotated), es, RecoversKept)
    ensures LostInv(Exec(Fresh(name, annotated), es))
  {
    if es != [] {
      var before := es[..|es| - 1];
      LostRun(name, annotated, before);
      SoundRun(name, annotated, before);
      OwnRun(name, annotated, before);
      LostStep(Exec(Fresh(name, annotated), before), es[|es| - 1]);
    }
  }

  /** Once the latest scheduling was stored, in every reachable state both the to-run entry (when
      loaded) and the to-run annotation hold every scheduled node that has no Job yet. */
  lemma {:induction false} NoNodeIsLost(name: string, annotated: bool, es: seq<Event>, st: State, n: NodeName)
    requires Always(Fresh(name, annotated), es, RecoversKept)
    requires st == Exec(Fresh(name, annotated), es)
    requires st.hist.landed && n in Scheduled(st)
    ensures st.mem.toRun.Some? ==> n in Elements(st.mem.toRun) || CreatedOn(st.jobs, n)
    ensures |st.crs| > 0 && (n in Elements(Latest(st).toRun.Parsed()) || CreatedOn(st.jobs, n))
  {
    LostRun(name, annotated, es);
    assert KeptOrCreated(st, st.crs[|st.crs| - 1].toRun.Parsed());
  }

  lemma LaterReadKeeps(st: State, e: Event)
    requires LostInv(st) && RecoversAfterScheduling(st, e)
    ensures RecoversKept(st, e)
  {
  }

  /** Reads that are not older than the scheduling meet the premise, from the start and after any run that did. */
  lemma {:induction false} KeptSinceScheduling(name: string, annotated: bool, es: seq<Event>, fs: seq<Event>)
    requires Always(Fresh(name, annotated), es, RecoversKept)
    requires Always(Exec(Fresh(name, annotated), es), fs, RecoversAfterScheduling)
    ensures Always(Fresh(name, annotated), es + fs, RecoversKept)
    decreases |fs|
  {
    if fs == [] {
      assert es + fs == es;
    } else {
      var before, e := fs[..|fs| - 1], fs[|fs| - 1];
      KeptSinceScheduling(name, annotated, es, before);
      ExecConcat(Fresh(name, annotated), es, before);
      LostRun(name, annotated, es + before);
      LaterReadKeeps(Exec(Fresh(name, annotated), es + before), e);
      AlwaysOneMore(Fresh(name, annotated), es + before, e, RecoversKept);
      LastOfConcat(es, fs);
    }
  }

  // ---------- Finished means done ----------

  /** In memory once loaded, and in the stored pair of annotations, every scheduled node is to run,
      running or done; and when Finished is stored, every one is done. */
  ghost predicate AccountedNow(st: State) {
    StoredAccounts(st) && (st.mem.toRun.Some? ==> Covered(st, st.mem.toRun, st.mem.running))
  }

  ghost predicate Accounted(st: State) {
    st.hist.kept ==> AccountedNow(st)
  }

  ghost predicate NothingToLoad(st: State)
    requires |st.crs| > 0
  {
    InQueuePass(st.pass) && st.pass.copy.version == |st.crs| - 1 && st.mem.toRun.None? ==>
      Elements(Latest(st).toRun.Parsed()) == {}
  }

  ghost predicate RunningCovers(st: State)
    requires |st.crs| > 0
  {
    st.mem.toRun.Some? || st.mem.running.Some? || InQueuePass(st.pass) ==>
      Covered(st, Latest(st).toRun.Parsed(), st.mem.running)
  }

  ghost predicate CoverInv(st: State) {
    |st.crs| > 0 && (st.hist.kept ==>
      && AccountedNow(st)
      && RunningCovers(st)
      && NothingToLoad(st)
      && (st.pass.WritingStatus? && st.pass.copy.version == |st.crs| - 1 && st.pass.copy.cr.status.finished ==>
           Covered(st, None, None)))
  }

  /** What an accepted write stores covers the scheduled nodes, and so does its to-run part with the running entry. */
  lemma CoverStored(st: State, w: WriteAnswer)
    requires Sound(st) && OwnInv(st) && CoverInv(st) && Enabled(st, Written(w)) && !w.Refused?
    requires WrittenStep(st, w).hist.kept
    ensures var cr := Stored(st);
      && Covered(st, cr.toRun.Parsed(), cr.running.Parsed())
      && (st.mem.toRun.Some? || st.mem.running.Some? || InQueuePass(st.pass) ==>
           Covered(st, cr.toRun.Parsed(), st.mem.running))
  {
    assert Latest(st) == st.crs[st.pass.copy.version];
  }

  /** What a write leaves alone, and what it makes the latest version. */
  lemma AfterWrite(st: State, w: WriteAnswer)
    requires Enabled(st, Written(w))
    ensures var st' := WrittenStep(st, w);
      && st'.mem == st.mem && st'.jobs == st.jobs && Scheduled(st') == Scheduled(st) && !st'.pass.WritingStatus?
      && |st'.crs| > 0 && Latest(st') == (if w.Refused? then Latest(st) else Stored(st))
      && (st.hist.kept || w.Refused? ==> st'.hist.kept == st.hist.kept)
      && (InQueuePass(st'.pass) ==>
           && InQueuePass(st.pass)
           && (st'.pass.copy.version == |st'.crs| - 1 ==> st.pass.copy.version == |st.crs| - 1))
  {
  }

  lemma CoverWritten(st: State, w: WriteAnswer)
    requires Sound(st) && OwnInv(st) && CoverInv(st) && Enabled(st, Written(w))
    ensures CoverInv(WrittenStep(st, w))
  {
    AfterWrite(st, w);
    var st' := WrittenStep(st, w);
    if !w.Refused? && st'.hist.kept {
      CoverStored(st, w);
      FinishedWritten(st, w);
      OwnQueueWrite(st, w);
    }
  }

  /** Finished gets stored only by a pass that found nothing left, and stays. */
  lemma FinishedWritten(st: State, w: WriteAnswer)
    requires Sound(st) && OwnInv(st) && CoverInv(st) && Enabled(st, Written(w)) && !w.Refused?
    ensures Stored(st).status.finished && WrittenStep(st, w).hist.kept ==> Covered(st, None, None)
  {
    assert Latest(st) == st.crs[st.pass.copy.version];
  }

  lemma OwnQueueWrite(st: State, w: WriteAnswer)
    requires Sound(st) && OwnInv(st) && CoverInv(st) && Enabled(st, Written(w)) && !w.Refused?
    requires WrittenStep(st, w).hist.kept
    ensures NothingToLoad(WrittenStep(st, w))
    ensures st.mem.toRun.Some? ==> Covered(st, st.mem.toRun, st.mem.running)
  {
    assert Latest(st) == st.crs[st.pass.copy.version];
  }

  lemma CoverClaimAsked(st: State, e: Event)
    requires Sound(st) && CoverInv(st) && Enabled(st, e) && e.ClaimAsked?
    ensures CoverInv(Next(st, e))
  {
  }

  lemma CoverJobAsked(st: State, e: Event)
    requires CoverInv(st) && Enabled(st, e) && e.JobAsked?
    ensures CoverInv(Next(st, e))
  {
    DoneStays(st, e);
  }

  lemma CoverLoopLeft(st: State)
    requires CoverInv(st) && Enabled(st, LoopLeft)
    ensures CoverInv(LoopLeftStep(st))
  {
  }

  lemma CoverBegin(st: State, e: Event)
    requires CoverInv(st) && Enabled(st, e) && RecoversCovered(st, e) && e.Begin?
    ensures CoverInv(Next(st, e))
  {
  }

  lemma CoverJobsListed(st: State, e: Event)
    requires CoverInv(st) && Enabled(st, e) && e.JobsListed?
    ensures CoverInv(Next(st, e))
  {
  }

  lemma CoverListed(st: State, e: Event)
    requires Sound(st) && CoverInv(st) && Enabled(st, e) && (e.NodesListed? || e.Mirrored?)
    ensures CoverInv(Next(st, e))
  {
  }

  lemma CoverOutside(st: State, e: Event)
    requires Sound(st) && CoverInv(st) && Enabled(st, e)
    requires e.Crash? || e.JobFinished? || e.Edited?
    ensures CoverInv(Next(st, e))
  {
    DoneStays(st, e);
  }

  lemma CoverStep(st: State, e: Event)
    requires Sound(st) && OwnInv(st) && CoverInv(st) && RecoversCovered(st, e)
    ensures CoverInv(Step(st, e))
  {
    if Enabled(st, e) {
      if e.Written? { CoverWritten(st, e.write); }
      else if e.ClaimAsked? { CoverClaimAsked(st, e); }
      else if e.JobAsked? { CoverJobAsked(st, e); }
      else if e.LoopLeft? { CoverLoopLeft(st); }
      else if e.Begin? { CoverBegin(st, e); }
      else if e.JobsListed? { CoverJobsListed(st, e); }
      else if e.Crash? || e.JobFinished? || e.Edited? { CoverOutside(st, e); }
      else { CoverListed(st, e); }
    }
  }

  /** From a state in which the invariant holds, however it was reached. */
  lemma {:induction false} CoverFrom(name: string, annotated: bool, es: seq<Event>, fs: seq<Event>)
    requires CoverInv(Exec(Fresh(name, annotated), es))
    requires Always(Exec(Fresh(name, annotated), es), fs, RecoversCovered)
    ensures CoverInv(Exec(Exec(Fresh(name, annotated), es), fs))
    decreases |fs|
  {
    if fs != [] {
      var before := fs[..|fs| - 1];
      CoverFrom(name, annotated, es, before);
      ExecConcat(Fresh(name, annotated), es, before);
      SoundRun(name, annotated, es + before);
      OwnRun(name, annotated, es + before);
      CoverStep(Exec(Exec(Fresh(name, annotated), es), before), fs[|fs| - 1]);
    }
  }

  lemma {:induction false} CoverRun(name: string, annotated: bool, es: seq<Event>)
    requires Always(Fresh(name, annotated), es, RecoversCovered)
    ensures CoverInv(Exec(Fresh(name, annotated), es))
  {
    CoverFrom(name, annotated, [], es);
  }

  /** Between any two calls, in memory once loaded and in the stored annotation pair, every
      scheduled node is to run, running or done; and once Finished is stored, every one is done. It is enough that
      the scheduling was stored, or that what was stored accounted for its nodes when a process died. */
  lemma {:induction false} FinishedMeansDone(name: string, annotated: bool, es: seq<Event>, st: State, n: NodeName)
    requires Always(Fresh(name, annotated), es, RecoversCovered)
    requires st == Exec(Fresh(name, annotated), es)
    requires st.hist.kept && n in Scheduled(st)
    ensures st.mem.toRun.Some? ==> n in Elements(st.mem.toRun) || n in Elements(st.mem.running) || DoneOn(st.jobs, n)
    ensures |st.crs| > 0
    ensures n in Elements(Latest(st).toRun.Parsed()) || n in Elements(Latest(st).running.Parsed()) || DoneOn(st.jobs, n)
    ensures Latest(st).status.finished ==> DoneOn(st.jobs, n)
  {
    CoverRun(name, annotated, es);
  }

  // ---------- current reads ----------

  /** The operator stores only texts it prints itself. */
  predicate OwnTexts(cr: Cr) {
    !cr.toRun.Foreign? && !cr.running.Foreign?
  }

  ghost predicate TextInv(st: State) {
    && |st.crs| > 0
    && (forall i | 0 <= i < |st.crs| :: OwnTexts(st.crs[i]))
    && (!st.pass.Idle? ==> OwnTexts(st.pass.copy.cr))
  }

  lemma TextWritten(st: State, w: WriteAnswer)
    requires TextInv(st) && Enabled(st, Written(w))
    ensures TextInv(WrittenStep(st, w))
  {
    assert OwnTexts(Latest(st));
    assert OwnTexts(Stored(st));
  }

  lemma TextElsewhere(st: State, e: Event)
    requires TextInv(st) && Enabled(st, e) && !e.Written?
    ensures TextInv(Next(st, e))
  {
  }

  lemma {:induction false} TextRun(name: string, annotated: bool, es: seq<Event>)
    ensures TextInv(Exec(Fresh(name, annotated), es))
  {
    if es != [] {
      TextRun(name, annotated, es[..|es| - 1]);
      var st, e := Exec(Fresh(name, annotated), es[..|es| - 1]), es[|es| - 1];
      if Enabled(st, e) {
        if e.Written? { TextWritten(st, e.write); } else { TextElsewhere(st, e); }
      }
    }
  }

  /** Reads of the latest version meet the premise. */
  lemma CurrentReadCovers(st: State, e: Event)
    requires CoverInv(st) && TextInv(st) && RecoversCurrent(st, e)
    ensures RecoversCovered(st, e)
  {
    assert OwnTexts(Latest(st));
  }

  /** From a state in which the invariant holds, current reads keep it. */
  lemma {:induction false} CurrentFrom(name: string, annotated: bool, es: seq<Event>, fs: seq<Event>)
    requires CoverInv(Exec(Fresh(name, annotated), es))
    requires Always(Exec(Fresh(name, annotated), es), fs, RecoversCurrent)
    ensures Always(Exec(Fresh(name, annotated), es), fs, RecoversCovered)
    ensures CoverInv(Exec(Exec(Fresh(name, annotated), es), fs))
    decreases |fs|
  {
    if fs != [] {
      var before, e := fs[..|fs| - 1], fs[|fs| - 1];
      CurrentFrom(name, annotated, es, before);
      ExecConcat(Fresh(name, annotated), es, before);
      TextRun(name, annotated, es + before);
      CurrentReadCovers(Exec(Exec(Fresh(name, annotated), es), before), e);
      CoverFrom(name, annotated, es, fs);
    }
  }

  /** Whoever always reads the latest version meets the premise. */
  lemma {:induction false} CurrentReadsSuffice(name: string, annotated: bool, es: seq<Event>)
    requires Always(Fresh(name, annotated), es, RecoversCurrent)
    ensures Always(Fresh(name, annotated), es, RecoversCovered)
  {
    CoverRun(name, annotated, []);
    CurrentFrom(name, annotated, [], es);
  }
}
