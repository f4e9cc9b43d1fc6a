/** The status lists mirror the queue, and claims pair up with Jobs. */
module Mirror {
  import opened Wrappers
  import opened Codec
  import opened Naming
  import opened Protocol
  import opened Phases

  // ---------- status lists ----------

  predicate ListsEmpty(s: Status) {
    s.running == [] && s.outstanding == []
  }

  ghost predicate MirrorInv(st: State) {
    && (st.pass.WritingStatus? ==>
         && Enumerates(st.pass.copy.cr.status.running, Elements(st.mem.running))
         && Enumerates(st.pass.copy.cr.status.outstanding, Elements(st.mem.toRun))
         && (st.pass.copy.cr.status.finished <==> QueueEmpty(st.mem.toRun) && QueueEmpty(st.mem.running)))
    && (forall i | 0 <= i < |st.crs| :: st.crs[i].status.finished ==> ListsEmpty(st.crs[i].status))
  }

  lemma MirrorWritten(st: State, w: WriteAnswer)
    requires Sound(st) && MirrorInv(st) && Enabled(st, Written(w))
    ensures MirrorInv(WrittenStep(st, w))
  {
    if st.pass.WritingStatus? && st.pass.copy.cr.status.finished {
      EnumerationSize(st.pass.copy.cr.status.running, {});
      EnumerationSize(st.pass.copy.cr.status.outstanding, {});
    }
  }

  lemma MirrorMirrored(st: State, e: Event)
    requires Sound(st) && MirrorInv(st) && Enabled(st, e) && e.Mirrored?
    ensures MirrorInv(Next(st, e))
  {
  }

  lemma MirrorElsewhere(st: State, e: Event)
    requires MirrorInv(st) && Enabled(st, e) && !e.Written? && !e.Mirrored?
    ensures MirrorInv(Next(st, e))
  {
  }

  lemma MirrorStep(st: State, e: Event)
    requires Sound(st) && MirrorInv(st)
    ensures MirrorInv(Step(st, e))
  {
    if Enabled(st, e) {
      if e.Written? { MirrorWritten(st, e.write); }
      else if e.Mirrored? { MirrorMirrored(st, e); }
      else { MirrorElsewhere(st, e); }
    }
  }

  lemma {:induction false} MirrorRun(name: string, annotated: bool, es: seq<Event>)
    ensures MirrorInv(Exec(Fresh(name, annotated), es))
  {
    if es != [] {
      var before := es[..|es| - 1];
      MirrorRun(name, annotated, before);
      SoundRun(name, annotated, before);
      MirrorStep(Exec(Fresh(name, annotated), before), es[|es| - 1]);
    }
  }

  /** When a queue pass comes to write its status, whether or not its annotation write succeeded, the two lists
      are duplicate-free enumerations of the running and to-run entries, Finished is set exactly
      when both are empty, and every stored Finished status has empty lists. */
  lemma {:induction false} StatusMirrorsQueue(name: string, annotated: bool, es: seq<Event>, st: State)
    requires st == Exec(Fresh(name, annotated), es)
    ensures st.pass.WritingStatus? ==>
      var s := st.pass.copy.cr.status;
      && Enumerates(s.running, Elements(st.mem.running)) && Enumerates(s.outstanding, Elements(st.mem.toRun))
      && (s.finished <==> Elements(st.mem.running) == {} && Elements(st.mem.toRun) == {})
    ensures forall i | 0 <= i < |st.crs| && st.crs[i].status.finished :: ListsEmpty(st.crs[i].status)
  {
    MirrorRun(name, annotated, es);
  }

  // ---------- claims and Jobs ----------

  ghost predicate PairInv(st: State) {
    && |st.claims| == |st.jobs| + st.hist.orphans + (if st.pass.CreatingJob? then 1 else 0)
    && (forall i, j | 0 <= i < j < |st.claims| :: st.claims[i] != st.claims[j])
    && (forall i | 0 <= i < |st.jobs| ::
          st.jobs[i].claim == ClaimName(st.jobs[i].name) && st.jobs[i].claim in st.claims)
    && (forall i, j | 0 <= i < j < |st.jobs| :: st.jobs[i].claim != st.jobs[j].claim)
    && (forall i | 0 <= i < |st.jobs| :: |st.jobs[i].claim| <= MAX_NAME)
    && (st.pass.CreatingJob? ==>
         var claim := ClaimName(st.pass.job);
         && claim in st.claims && |claim| <= MAX_NAME
         && forall i | 0 <= i < |st.jobs| :: st.jobs[i].claim != claim)
  }

  lemma PairClaimAsked(st: State, e: Event)
    requires PairInv(st) && Enabled(st, e) && e.ClaimAsked?
    ensures PairInv(Next(st, e))
  {
    NamesFit(st.name, e.node, e.stamp);
  }

  lemma PairJobAsked(st: State, create: CreateAnswer)
    requires PairInv(st) && Enabled(st, JobAsked(create))
    ensures PairInv(JobAskedStep(st, create))
  {
  }

  lemma PairJobFinished(st: State, i: nat)
    requires PairInv(st) && Enabled(st, JobFinished(i))
    ensures PairInv(Next(st, JobFinished(i)))
  {
    var jobs, jobs' := st.jobs, Next(st, JobFinished(i)).jobs;
    assert forall k | 0 <= k < |jobs| :: jobs'[k].name == jobs[k].name && jobs'[k].claim == jobs[k].claim;
  }

  /** No other event creates anything; dying between the two creates leaves an orphan. */
  lemma NothingCreated(st: State, e: Event)
    requires Enabled(st, e) && !e.ClaimAsked? && !e.JobAsked? && !e.JobFinished?
    ensures var st' := Next(st, e);
      && st'.claims == st.claims && st'.jobs == st.jobs
      && (st'.pass.CreatingJob? ==> st'.pass == st.pass && st'.hist.orphans == st.hist.orphans)
      && (!st'.pass.CreatingJob? ==> st'.hist.orphans == st.hist.orphans + (if st.pass.CreatingJob? then 1 else 0))
  {
  }

  lemma {:induction false} PairStep(st: State, e: Event)
    requires PairInv(st)
    ensures PairInv(Step(st, e))
  {
    if Enabled(st, e) {
      if e.ClaimAsked? { PairClaimAsked(st, e); }
      else if e.JobAsked? { PairJobAsked(st, e.create); }
      else if e.JobFinished? { PairJobFinished(st, e.index); }
      else { NothingCreated(st, e); }
    }
  }

  lemma {:induction false} PairRun(name: string, annotated: bool, es: seq<Event>)
    ensures PairInv(Exec(Fresh(name, annotated), es))
  {
    if es != [] {
      PairRun(name, annotated, es[..|es| - 1]);
      PairStep(Exec(Fresh(name, annotated), es[..|es| - 1]), es[|es| - 1]);
    }
  }

  /** Every Job mounts a claim of its own, named after it and created before it; the claims without a
      Job are those whose Job could not be created or whose creation the process did not live to ask for. */
  lemma {:induction false} JobsPairWithClaims(name: string, annotated: bool, es: seq<Event>, st: State)
    requires st == Exec(Fresh(name, annotated), es)
    ensures |st.claims| == |st.jobs| + st.hist.orphans + (if st.pass.CreatingJob? then 1 else 0)
    ensures forall i | 0 <= i < |st.jobs| ::
      st.jobs[i].claim == ClaimName(st.jobs[i].name) && st.jobs[i].claim in st.claims
    ensures forall i, j | 0 <= i < j < |st.jobs| ::
      st.jobs[i].claim != st.jobs[j].claim && st.jobs[i].name != st.jobs[j].name
    ensures st.pass.CreatingJob? ==> ClaimName(st.pass.job) in st.claims
  {
    PairRun(name, annotated, es);
  }
}
