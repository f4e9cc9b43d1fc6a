/**
 Each event of the protocol in its own right: where it leads, what it leaves alone, and when a write is due.
 */
module Steps {
  import opened Wrappers
  import opened Codec
  import opened Naming
  import opened Protocol

  ghost predicate StoreKept(st: State, st': State) {
    st'.crs == st.crs && st'.jobs == st.jobs && st'.claims == st.claims && st'.name == st.name
  }

  /** The text json.Marshal gives for an entry: that of a nil map when there is none. */
  lemma TextOfEntry(o: Option<NodeSet>)
    ensures Print(Entry(o)) == if o.Some? then Print(o.value) else "null"
    ensures forall n :: n in Elements(o) <==> o.Some? && o.value.Names? && n in o.value.names
  {
  }

  /** Each record is recovered on its own: one that exists stays, a missing one is what its annotation reads as.
      Only an unreadable to-run annotation keeps the running record from being recovered. */
  lemma EachEntryRecovered(mem: Memory, cr: Cr)
    ensures var m := Recovered(mem, cr);
      && m.onRunList == mem.onRunList
      && m.toRun == (if mem.toRun.Some? then mem.toRun else cr.toRun.Parsed())
      && (mem.running.Some? ==> m.running == mem.running)
      && (mem.running.None? && (mem.toRun.Some? || cr.toRun == Absent || cr.toRun.Parsed().Some?) ==>
           m.running == cr.running.Parsed())
      && (mem.running.None? && mem.toRun.None? && cr.toRun != Absent && cr.toRun.Parsed().None? ==> m.running.None?)
  {
  }

  /** Finished versions are left alone; a version that is not in progress is scheduled unless the CR is on the run
      list; everything else is worked on with the records recovered. Nothing is stored by reading. */
  lemma ReadLeadsTo(st: State, v: nat, cap: int, st': State)
    requires Enabled(st, Begin(v, cap)) && st' == Step(st, Begin(v, cap))
    ensures StoreKept(st, st')
    ensures var s := st.crs[v].status;
      && (s.finished ==> st'.mem == st.mem && st'.pass == Idle)
      && (!s.finished && !s.inProgress && !st.mem.onRunList ==>
           st'.mem == st.mem.(onRunList := true) && st'.pass == ListingNodes(Copy(st.crs[v], v)))
      && (!s.finished && (s.inProgress || st.mem.onRunList) ==>
           st'.mem == Recovered(st.mem, st.crs[v]) && st'.pass == ListingJobs(Copy(st.crs[v], v), cap))
  {
  }

  /** A failed list ends the pass with the CR on the run list; an empty one leads to a status that is not in
      progress; names are recorded and annotated, and the write of the annotation comes before that of the status. */
  lemma NodeListLeadsTo(st: State, nodes: NodeAnswer, st': State)
    requires Enabled(st, NodesListed(nodes)) && st' == Step(st, NodesListed(nodes))
    ensures StoreKept(st, st') && st'.mem.onRunList == st.mem.onRunList && st'.mem.running == st.mem.running
    ensures st'.mem.toRun == if nodes.Eligible? then Some(Names(nodes.names)) else st.mem.toRun
    ensures st'.pass.Idle? <==> nodes.NodeListFailed?
    ensures st'.pass.WritingScheduled? <==> nodes.NoNodes?
    ensures st'.pass.WritingSchedule? <==> nodes.Eligible?
    ensures nodes.NoNodes? ==>
      && st'.pass.copy.version == st.pass.copy.version && !st'.pass.copy.cr.status.inProgress
      && st'.pass.copy.cr.toRun == st.pass.copy.cr.toRun
    ensures nodes.Eligible? ==>
      && st'.pass.copy.version == st.pass.copy.version && st'.pass.copy.cr.annotated
      && st'.pass.copy.cr.toRun == Printed(Names(nodes.names)) && st'.pass.copy.cr.running == st.pass.copy.cr.running
      && st'.pass.copy.cr.status == st.pass.copy.cr.status
  {
  }

  /** The nodes seen done leave the running record and nothing else does. The write is due exactly when the running
      annotation is not the text of the record; without it, or after a failed list, the loop is next. */
  lemma JobListLeadsTo(st: State, jobs: JobAnswer, st': State)
    requires Enabled(st, JobsListed(jobs)) && st' == Step(st, JobsListed(jobs))
    ensures StoreKept(st, st') && st'.mem.onRunList == st.mem.onRunList && st'.mem.toRun == st.mem.toRun
    ensures st'.mem.running.Some? == st.mem.running.Some?
    ensures forall n :: n in Elements(st'.mem.running) <==>
      n in Elements(st.mem.running) && (jobs.DoneSeen? ==> n !in jobs.nodes)
    ensures jobs.JobListFailed? ==> st'.mem == st.mem && st'.pass.Choosing? && st'.pass.copy == st.pass.copy
    ensures jobs.DoneSeen? ==>
      && st'.pass.copy.version == st.pass.copy.version && st'.pass.copy.cr.annotated
      && st'.pass.copy.cr.running == Printed(Entry(st'.mem.running))
      && st'.pass.copy.cr.toRun == st.pass.copy.cr.toRun && st'.pass.copy.cr.status == st.pass.copy.cr.status
      && (st'.pass.WritingDequeue? <==> st.pass.copy.cr.running != Printed(Entry(st'.mem.running)))
      && (st'.pass.Choosing? <==> st.pass.copy.cr.running == Printed(Entry(st'.mem.running)))
    ensures st'.pass.Choosing? ==>
      && st'.pass.budget == st.pass.cap - |Elements(st'.mem.running)|
      && st'.pass.todo == Elements(st'.mem.toRun) && st'.pass.started == []
  {
  }

  /** Whatever a write is answered, the pass goes on to the same place, with the copy the answer left it. What is
      stored has the annotations of the copy and the stored status, or the stored annotations and the status of the
      copy. */
  lemma WriteLeadsTo(st: State, write: WriteAnswer, st': State)
    requires Enabled(st, Written(write)) && st' == Step(st, Written(write))
    ensures st'.mem == st.mem && st'.jobs == st.jobs && st'.claims == st.claims
    ensures write.Refused? ==> st'.crs == st.crs
    ensures !write.Refused? ==> |st'.crs| == |st.crs| + 1 && st'.crs[..|st.crs|] == st.crs
    ensures !write.Refused? ==>
      var was, cr := Latest(st), Latest(st');
      if st.pass.WritingScheduled? || st.pass.WritingStatus? then
        cr == Cr(was.annotated, was.toRun, was.running, st.pass.copy.cr.status)
      else
        cr == Cr(st.pass.copy.cr.annotated, st.pass.copy.cr.toRun, st.pass.copy.cr.running, was.status)
    ensures st.pass.WritingScheduled? || st.pass.WritingStatus? ==> st'.pass == Idle
    ensures st.pass.WritingSchedule? ==> st'.pass.WritingScheduled? && st'.pass.copy.cr.status.inProgress
    ensures st.pass.WritingDequeue? ==>
      && st'.pass.Choosing? && st'.pass.started == []
      && st'.pass.budget == st.pass.cap - |Elements(st.mem.running)| && st'.pass.todo == Elements(st.mem.toRun)
    ensures st.pass.WritingQueues? ==> st'.pass.Mirroring?
    ensures !st'.pass.Idle? ==>
      && st'.pass.copy.version == (if write.Accepted? then |st.crs| else st.pass.copy.version)
      && st'.pass.copy.cr.toRun == st.pass.copy.cr.toRun
      && st'.pass.copy.cr.running == st.pass.copy.cr.running
  {
  }

  /** Asking for a claim takes the node off what the loop has to visit, under the name every other part of the
      program uses; only a claim reported as created leads to asking for the Job. */
  lemma ClaimLeadsTo(st: State, n: NodeName, stamp: Stamp, claim: ClaimAnswer, st': State)
    requires Enabled(st, ClaimAsked(n, stamp, claim)) && st' == Step(st, ClaimAsked(n, stamp, claim))
    requires |st.name| <= 43
    ensures st'.mem == st.mem && st'.crs == st.crs && st'.jobs == st.jobs && st'.pass.copy == st.pass.copy
    ensures st'.pass.todo == st.pass.todo - {n} && st'.pass.started == st.pass.started
    ensures st'.pass.budget == st.pass.budget && (st'.pass.CreatingJob? <==> claim.ClaimCreated?)
    ensures st'.pass.Choosing? <==> !claim.ClaimCreated?
    ensures st'.pass.CreatingJob? ==> st'.pass.node == n && JobName(st.name, n, stamp) == Some(st'.pass.job)
    ensures st'.claims == if claim.ClaimCreated? || claim.ClaimReplyLost?
      then st.claims + [JobName(st.name, n, stamp).value + "-pvc"] else st.claims
  {
    NamesFit(st.name, n, stamp);
  }

  /** A Job is stored under its name, on its node, with its claim, not done; it counts as started only when its
      creation was reported. */
  lemma JobLeadsTo(st: State, create: CreateAnswer, st': State)
    requires Enabled(st, JobAsked(create)) && st' == Step(st, JobAsked(create))
    ensures st'.mem == st.mem && st'.crs == st.crs && st'.claims == st.claims
    ensures st'.jobs == if create.NotCreated? then st.jobs
      else st.jobs + [Job(st.pass.job, st.pass.job + "-pvc", st.pass.node, false)]
    ensures st'.pass == Choosing(st.pass.copy, st.pass.budget, st.pass.todo,
      if create.Created? then st.pass.started + [st.pass.node] else st.pass.started)
  {
  }

  /** The started nodes move in memory and no other node does. With an annotation map, the queue write is due exactly
      when an annotation is not the text of its record; without one the process panics. */
  lemma LoopLeadsTo(st: State, st': State)
    requires Enabled(st, LoopLeft) && st' == Step(st, LoopLeft)
    ensures StoreKept(st, st')
    ensures st.pass.copy.cr.annotated ==>
      && st'.mem.onRunList == st.mem.onRunList && st'.mem.running.Some? && st'.mem.running.value.Names?
      && (forall n :: n in Elements(st'.mem.toRun) <==> n in Elements(st.mem.toRun) && n !in st.pass.started)
      && (forall n :: n in Elements(st'.mem.running) <==> n in Elements(st.mem.running) || n in st.pass.started)
    ensures st.pass.copy.cr.annotated ==>
      var c := st.pass.copy;
      && (st'.pass.WritingQueues? <==>
           c.cr.toRun != Printed(Entry(st'.mem.toRun)) || c.cr.running != Printed(Entry(st'.mem.running)))
      && (st'.pass.Mirroring? <==>
           c.cr.toRun == Printed(Entry(st'.mem.toRun)) && c.cr.running == Printed(Entry(st'.mem.running)))
      && st'.pass.copy.version == c.version && st'.pass.copy.cr.status == c.cr.status
      && st'.pass.copy.cr.toRun == Printed(Entry(st'.mem.toRun))
      && st'.pass.copy.cr.running == Printed(Entry(st'.mem.running))
  {
  }

  /** The status written lists what the annotations of the copy list, and is Finished exactly when it was, or when
      no node is left in memory; Finished is never written together with InProgress then. */
  lemma MirrorLeadsTo(st: State, current: seq<NodeName>, outstanding: seq<NodeName>, st': State)
    requires Enabled(st, Mirrored(current, outstanding)) && st' == Step(st, Mirrored(current, outstanding))
    ensures StoreKept(st, st') && st'.mem == st.mem && st'.pass.WritingStatus?
    ensures var c, s := st.pass.copy, st'.pass.copy.cr.status;
      && st'.pass.copy == c.(cr := c.cr.(status := s)) && s.running == current && s.outstanding == outstanding
      && var nothingLeft := forall n :: n !in Elements(st.mem.toRun) && n !in Elements(st.mem.running);
         s.inProgress == (c.cr.status.inProgress && !nothingLeft) && s.finished == (c.cr.status.finished || nothingLeft)
  {
    if Elements(st.mem.toRun) != {} { var n :| n in Elements(st.mem.toRun); }
    if Elements(st.mem.running) != {} { var n :| n in Elements(st.mem.running); }
  }

  /** A dead process leaves the store as it is and its successor knows nothing. */
  lemma DeathForgets(st: State, st': State)
    requires Enabled(st, Crash) && st' == Step(st, Crash)
    ensures StoreKept(st, st') && st'.mem == Memory(false, None, None) && st'.pass == Idle
  {
  }
}
