/**
 The life of one Sosreport under the reconciler, cut at every call to the API server.

 The state holds what the reconciler keeps in memory for the CR, how far a reconcile pass in flight
 has come, every version of the CR the API server has stored, and the Jobs and claims created for it.
 Events carry what the reconciler cannot choose: answers of the API server, the age of a cached
 read, the order in which Go visits a map, the end of the process, and what other actors do.
 */
module Protocol {
  import opened Wrappers
  import opened Codec
  import opened Naming

  // ---------- data ----------

  /** An annotation: missing, a text the operator would print itself, or any other text. */
  datatype Annotation = Absent | Printed(list: NodeSet) | Foreign(parsed: Option<NodeSet>) {
    function Parsed(): Option<NodeSet> {
      match this
      case Absent => None
      case Printed(l) => Some(l)
      case Foreign(p) => p
    }
  }

  datatype Status = Status(inProgress: bool, finished: bool, running: seq<NodeName>, outstanding: seq<NodeName>)

  /** The parts of a CR the protocol is about; `annotated` is false for a nil annotation map. */
  datatype Cr = Cr(annotated: bool, toRun: Annotation, running: Annotation, status: Status)

  /** A CR as read, with the version it was read at. */
  datatype Copy = Copy(cr: Cr, version: nat)

  datatype Job = Job(name: string, claim: string, node: NodeName, done: bool)

  /** The entries of runList, jobToRunList and jobRunningList for the CR. */
  datatype Memory = Memory(onRunList: bool, toRun: Option<NodeSet>, running: Option<NodeSet>)

  const FORGOTTEN := Memory(false, None, None)

  datatype Pass =
    | Idle
    | ListingNodes(copy: Copy)
    | WritingSchedule(copy: Copy)
    | WritingScheduled(copy: Copy)
    | ListingJobs(copy: Copy, cap: int)
    | WritingDequeue(copy: Copy, cap: int)
    | Choosing(copy: Copy, budget: int, todo: set<NodeName>, started: seq<NodeName>)
    | CreatingJob(copy: Copy, budget: int, todo: set<NodeName>, started: seq<NodeName>, node: NodeName, job: string)
    | WritingQueues(copy: Copy)
    | Mirroring(copy: Copy)
    | WritingStatus(copy: Copy)

  /** What happened so far; the program itself keeps none of this. */
  datatype History = History(
    scheduled: Option<set<NodeName>>,  // the node set of the latest scheduling
    own: bool,                         // this process did it
    landed: bool,                      // the to-run annotation was stored by it or after it by the same process,
    landedAt: nat,                     //   first as this version
    kept: bool,                        // landed, or the stored pair accounted for the nodes when a process died
    passes: nat,                       // queue passes begun since it
    cap: int,                          // the concurrency read last
    maxCap: nat,                       // the largest concurrency read, 0 if none was positive
    lives: nat,                        // how often the process died
    lifeStart: nat,                    // how many Jobs existed when it last started
    lastRead: nat,                     // the latest version read by this process
    orphans: nat,                      // claims without a Job
    strays: set<nat>)                  // Jobs stored although their creation reported an error

  datatype State = State(
    name: string,
    mem: Memory,
    pass: Pass,
    crs: seq<Cr>,
    jobs: seq<Job>,
    claims: seq<string>,
    hist: History)

  datatype NodeAnswer = NodeListFailed | NoNodes | Eligible(names: set<NodeName>)
  datatype JobAnswer = JobListFailed | DoneSeen(nodes: set<NodeName>)
  datatype ClaimAnswer = NoTemplate | ClaimRefused | ClaimCreated | ClaimReplyLost
  datatype CreateAnswer = Created | NotCreated | CreateReplyLost
  datatype WriteAnswer = Accepted | Refused | ReplyLost

  datatype Event =
    | Begin(version: nat, cap: int)
    | NodesListed(nodes: NodeAnswer)
    | JobsListed(jobs: JobAnswer)
    | Written(write: WriteAnswer)
    | ClaimAsked(node: NodeName, stamp: Stamp, claim: ClaimAnswer)
    | JobAsked(create: CreateAnswer)
    | LoopLeft
    | Mirrored(current: seq<NodeName>, outstanding: seq<NodeName>)
    | Crash
    | JobFinished(index: nat)
    | Edited

  // ---------- small functions of the data ----------

  function Elements(o: Option<NodeSet>): set<NodeName> {
    if o.None? then {} else o.value.Elems()
  }

  /** What json.Marshal sees at a map key: a missing entry is a nil map. */
  function Entry(o: Option<NodeSet>): NodeSet {
    if o.None? then Nil else o.value
  }

  function Without(o: Option<NodeSet>, gone: set<NodeName>): Option<NodeSet> {
    match o
    case Some(Names(s)) => Some(Names(s - gone))
    case _ => o
  }

  lemma WithoutNothing(o: Option<NodeSet>)
    ensures Without(o, {}) == o
  {
    if o.Some? && o.value.Names? { assert o.value.names - {} == o.value.names; }
  }

  function AsSet(q: seq<NodeName>): set<NodeName> {
    set n | n in q
  }

  predicate DoneOn(jobs: seq<Job>, n: NodeName) {
    exists i | 0 <= i < |jobs| :: jobs[i].node == n && jobs[i].done
  }

  predicate CreatedOn(jobs: seq<Job>, n: NodeName) {
    exists i | 0 <= i < |jobs| :: jobs[i].node == n
  }

  predicate NoRepeats(q: seq<NodeName>) {
    forall i, j | 0 <= i < j < |q| :: q[i] != q[j]
  }

  /** A Go loop over a map visits each key once, in some order. */
  predicate Enumerates(q: seq<NodeName>, s: set<NodeName>) {
    NoRepeats(q) && AsSet(q) == s
  }

  function Latest(st: State): Cr
    requires |st.crs| > 0
  {
    st.crs[|st.crs| - 1]
  }

  predicate QueueEmpty(o: Option<NodeSet>) {
    Elements(o) == {}
  }

  // ---------- the steps ----------

  /** Whether a pass over this version goes to the work queue rather than to scheduling. */
  predicate TakesQueueBranch(st: State, version: nat) {
    version < |st.crs| && !st.crs[version].status.finished && (st.mem.onRunList || st.crs[version].status.inProgress)
  }

  /** Recovery: an entry missing in memory is loaded from its annotation; an unreadable
      to-run annotation ends the recovery. */
  function Recovered(mem: Memory, cr: Cr): Memory {
    if mem.toRun.None? && cr.toRun != Absent && cr.toRun.Parsed().None? then mem
    else
      var toRun := if mem.toRun.None? then cr.toRun.Parsed() else mem.toRun;
      var running := if mem.running.None? then cr.running.Parsed() else mem.running;
      mem.(toRun := toRun, running := running)
  }

  function Max(a: nat, b: int): nat {
    if b > a then b else a
  }

  function BeginStep(st: State, version: nat, cap: int): State
    requires version < |st.crs|
  {
    var cr := st.crs[version];
    var h := st.hist.(lastRead := version);
    if cr.status.finished then st.(hist := h)
    else
      var h := h.(cap := cap, maxCap := Max(h.maxCap, cap));
      if TakesQueueBranch(st, version) then
        st.(mem := Recovered(st.mem, cr),
            pass := ListingJobs(Copy(cr, version), cap),
            hist := h.(passes := h.passes + 1))
      else
        st.(mem := st.mem.(onRunList := true), pass := ListingNodes(Copy(cr, version)), hist := h)
  }

  function NodesListedStep(st: State, nodes: NodeAnswer): State
    requires st.pass.ListingNodes?
  {
    var c := st.pass.copy;
    match nodes
    case NodeListFailed => st.(pass := Idle)
    case NoNodes => st.(pass := WritingScheduled(c.(cr := c.cr.(status := c.cr.status.(inProgress := false)))))
    case Eligible(names) =>
      st.(mem := st.mem.(toRun := Some(Names(names))),
          pass := WritingSchedule(c.(cr := c.cr.(annotated := true, toRun := Printed(Names(names))))),
          hist := st.hist.(scheduled := Some(names), own := true, landed := false, kept := false, passes := 0))
  }

  function LoopHead(st: State, c: Copy, cap: int): Pass {
    Choosing(c, cap - |Elements(st.mem.running)|, Elements(st.mem.toRun), [])
  }

  /** The records once a list of Jobs was answered. */
  function AfterList(mem: Memory, jobs: JobAnswer): Memory {
    if jobs.DoneSeen? then mem.(running := Without(mem.running, jobs.nodes)) else mem
  }

  function JobsListedStep(st: State, jobs: JobAnswer): State
    requires st.pass.ListingJobs?
  {
    var c, cap := st.pass.copy, st.pass.cap;
    match jobs
    case JobListFailed => st.(pass := LoopHead(st, c, cap))
    case DoneSeen(nodes) =>
      var st' := st.(mem := AfterList(st.mem, jobs));
      var text := Printed(Entry(st'.mem.running));
      var c' := c.(cr := c.cr.(annotated := true, running := text));
      st'.(pass := if c.cr.running != text then WritingDequeue(c', cap) else LoopHead(st', c', cap))
  }

  /** A write of annotations keeps the stored status; a write of the status keeps the stored annotations. */
  function Stored(st: State): Cr
    requires |st.crs| > 0 && !st.pass.Idle?
  {
    var cr := st.pass.copy.cr;
    if st.pass.WritingScheduled? || st.pass.WritingStatus? then Latest(st).(status := cr.status)
    else cr.(status := Latest(st).status)
  }

  predicate IsWriting(p: Pass) {
    p.WritingSchedule? || p.WritingScheduled? || p.WritingDequeue? || p.WritingQueues? || p.WritingStatus?
  }

  function WrittenStep(st: State, write: WriteAnswer): State
    requires |st.crs| > 0 && IsWriting(st.pass)
  {
    var c := if write.Accepted? then Copy(Stored(st), |st.crs|) else st.pass.copy;
    var st' := if write.Refused? then st else st.(crs := st.crs + [Stored(st)]);
    var landed := st.hist.(landed := true, landedAt := |st.crs|, kept := true);
    match st.pass
    case WritingSchedule(_) =>
      st'.(pass := WritingScheduled(c.(cr := c.cr.(status := c.cr.status.(inProgress := true)))),
           hist := if write.Refused? then st.hist else landed)
    case WritingDequeue(_, cap) => st'.(pass := LoopHead(st, c, cap))
    case WritingQueues(_) =>
      st'.(pass := Mirroring(c), hist := if write.Refused? || !st.hist.own || st.hist.landed then st.hist else landed)
    case _ => st'.(pass := Idle)
  }

  function Scheduled(st: State): set<NodeName> {
    if st.hist.scheduled.Some? then st.hist.scheduled.value else {}
  }

  /** Every scheduled node is to run, running, or has a Job that is done. */
  predicate Covered(st: State, toRun: Option<NodeSet>, running: Option<NodeSet>) {
    forall n | n in Scheduled(st) :: n in Elements(toRun) || n in Elements(running) || DoneOn(st.jobs, n)
  }

  /** What is stored accounts for every scheduled node, and Finished is stored only with every node done. */
  predicate StoredAccounts(st: State) {
    |st.crs| > 0
    && Covered(st, Latest(st).toRun.Parsed(), Latest(st).running.Parsed())
    && (Latest(st).status.finished ==> Covered(st, None, None))
  }

  /** The process dies, by a crash or by a panic, and a new one starts. */
  function Restarted(st: State): State {
    st.(mem := FORGOTTEN, pass := Idle,
        hist := st.hist.(own := false, kept := st.hist.kept || StoredAccounts(st),
                         lives := st.hist.lives + 1, lifeStart := |st.jobs|, lastRead := 0,
                         orphans := st.hist.orphans + (if st.pass.CreatingJob? then 1 else 0)))
  }

  function ClaimAskedStep(st: State, node: NodeName, stamp: Stamp, claim: ClaimAnswer): State
    requires st.pass.Choosing?
  {
    var p := st.pass;
    match JobName(st.name, node, stamp)
    case None => Restarted(st)
    case Some(job) =>
      var skipped := st.(pass := Choosing(p.copy, p.budget, p.todo - {node}, p.started));
      match claim
      case ClaimCreated =>
        st.(pass := CreatingJob(p.copy, p.budget, p.todo - {node}, p.started, node, job),
            claims := st.claims + [ClaimName(job)])
      case ClaimReplyLost =>
        skipped.(claims := st.claims + [ClaimName(job)], hist := st.hist.(orphans := st.hist.orphans + 1))
      case _ => skipped
  }

  /** A Job whose reply is lost exists, but its node stays to run and takes no budget. */
  function JobAskedStep(st: State, create: CreateAnswer): State
    requires st.pass.CreatingJob?
  {
    var p := st.pass;
    var skipped := st.(pass := Choosing(p.copy, p.budget, p.todo, p.started));
    var jobs := st.jobs + [Job(p.job, ClaimName(p.job), p.node, false)];
    match create
    case Created => skipped.(pass := Choosing(p.copy, p.budget, p.todo, p.started + [p.node]), jobs := jobs)
    case CreateReplyLost => skipped.(jobs := jobs, hist := st.hist.(strays := st.hist.strays + {|st.jobs|}))
    case NotCreated => skipped.(hist := st.hist.(orphans := st.hist.orphans + 1))
  }

  /** Started nodes move from the to-run entry to the running entry, and the annotations follow.
      Assigning to a nil annotation map panics. */
  function LoopLeftStep(st: State): State
    requires st.pass.Choosing?
  {
    var c, moved := st.pass.copy, AsSet(st.pass.started);
    var mem := st.mem.(toRun := Without(st.mem.toRun, moved), running := Some(Names(Elements(st.mem.running) + moved)));
    var toRun, running := Printed(Entry(mem.toRun)), Printed(Entry(mem.running));
    if c.cr.toRun == toRun && c.cr.running == running then st.(mem := mem, pass := Mirroring(c))
    else if !c.cr.annotated then Restarted(st)
    else st.(mem := mem, pass := WritingQueues(c.(cr := c.cr.(toRun := toRun, running := running))))
  }

  function MirroredStep(st: State, current: seq<NodeName>, outstanding: seq<NodeName>): State
    requires st.pass.Mirroring?
  {
    var c := st.pass.copy;
    var s := c.cr.status.(running := current, outstanding := outstanding);
    var isDone := QueueEmpty(st.mem.toRun) && QueueEmpty(st.mem.running);
    var s := if isDone then s.(inProgress := false, finished := true) else s;
    st.(pass := WritingStatus(c.(cr := c.cr.(status := s))))
  }

  /** Whether the pass panics once the Jobs are listed: a name has to be cut below nothing, or annotations
      have to go into a nil map, which only a failed list leaves as it was. */
  predicate PanicsAfter(st: State, jobs: JobAnswer)
    requires st.pass.ListingJobs?
  {
    || (|st.name| > 43 && st.pass.cap > |Elements(AfterList(st.mem, jobs).running)| && Elements(st.mem.toRun) != {})
    || (jobs.JobListFailed? && !st.pass.copy.cr.annotated)
  }

  predicate ClaimIsNew(st: State, node: NodeName, stamp: Stamp) {
    var job := JobName(st.name, node, stamp);
    job.Some? ==> ClaimName(job.value) !in st.claims
  }

  predicate Enabled(st: State, e: Event) {
    |st.crs| > 0 &&
    match e
    case Begin(version, _) => st.pass.Idle? && version < |st.crs|
    case NodesListed(_) => st.pass.ListingNodes?
    case JobsListed(jobs) => st.pass.ListingJobs? && (jobs.DoneSeen? ==> forall n | n in jobs.nodes ::
      DoneOn(st.jobs, n))
    case Written(write) =>
      // a write from an old version is rejected
      IsWriting(st.pass) && (!write.Refused? ==> st.pass.copy.version == |st.crs| - 1)
    case ClaimAsked(node, stamp, claim) =>
      && st.pass.Choosing? && node in st.pass.todo && |st.pass.started| < st.pass.budget
         // the API server keeps names unique
      && (claim.ClaimCreated? || claim.ClaimReplyLost? ==> ClaimIsNew(st, node, stamp))
    case JobAsked(_) => st.pass.CreatingJob?
    case LoopLeft => st.pass.Choosing? && (st.pass.todo == {} || st.pass.budget <= |st.pass.started|)
    case Mirrored(current, outstanding) =>
      && st.pass.Mirroring?
      && Enumerates(current, Elements(st.pass.copy.cr.running.Parsed()))
      && Enumerates(outstanding, Elements(st.pass.copy.cr.toRun.Parsed()))
    case Crash => true
    case JobFinished(i) => i < |st.jobs|
    case Edited => true
  }

  function Next(st: State, e: Event): State
    requires Enabled(st, e)
  {
    match e
    case Begin(version, cap) => BeginStep(st, version, cap)
    case NodesListed(nodes) => NodesListedStep(st, nodes)
    case JobsListed(jobs) => JobsListedStep(st, jobs)
    case Written(write) => WrittenStep(st, write)
    case ClaimAsked(node, stamp, claim) => ClaimAskedStep(st, node, stamp, claim)
    case JobAsked(create) => JobAskedStep(st, create)
    case LoopLeft => LoopLeftStep(st)
    case Mirrored(current, outstanding) => MirroredStep(st, current, outstanding)
    case Crash => Restarted(st)
    case JobFinished(i) => st.(jobs := st.jobs[i := st.jobs[i].(done := true)])
    case Edited => st.(crs := st.crs + [Latest(st)])
  }

  // ---------- runs ----------

  /** An event that cannot happen in a state leaves it alone, so every list of events is a run. */
  function Step(st: State, e: Event): State {
    if Enabled(st, e) then Next(st, e) else st
  }

  function Exec(st: State, es: seq<Event>): State {
    if es == [] then st else Step(Exec(st, es[..|es| - 1]), es[|es| - 1])
  }

  /** A CR nobody has worked on yet. */
  function Fresh(name: string, annotated: bool): State {
    State(name, FORGOTTEN, Idle, [Cr(annotated, Absent, Absent, Status(false, false, [], []))], [], [],
          History(None, false, false, 0, false, 0, 0, 0, 0, 0, 0, 0, {}))
  }

  /** `ok` holds of every event of the run in the state where it happens. */
  ghost predicate Always(st: State, es: seq<Event>, ok: (State, Event) -> bool) {
    es == [] || (Always(st, es[..|es| - 1], ok) && ok(Exec(st, es[..|es| - 1]), es[|es| - 1]))
  }

  lemma {:induction false} ExecOne(st: State, es: seq<Event>, e: Event)
    ensures Exec(st, es + [e]) == Step(Exec(st, es), e)
  {
    assert (es + [e])[..|es|] == es;
  }

  /** A premise about reads only. */
  ghost predicate FreeBetweenReads(ok: (State, Event) -> bool) {
    forall s: State, e: Event | !e.Begin? :: ok(s, e)
  }

  lemma {:induction false} AlwaysOneMore(st: State, es: seq<Event>, e: Event, ok: (State, Event) -> bool)
    requires Always(st, es, ok) && ok(Exec(st, es), e)
    ensures Always(st, es + [e], ok)
  {
    assert (es + [e])[..|es|] == es;
  }

  lemma {:induction false} ExecConcat(st: State, es: seq<Event>, fs: seq<Event>)
    ensures Exec(st, es + fs) == Exec(Exec(st, es), fs)
  {
    if fs == [] {
      assert es + fs == es;
    } else {
      var n := |fs| - 1;
      assert (es + fs)[..|es| + n] == es + fs[..n];
      ExecConcat(st, es, fs[..n]);
    }
  }

  lemma {:induction false} LastOfConcat(es: seq<Event>, fs: seq<Event>)
    requires fs != []
    ensures es + fs == es + fs[..|fs| - 1] + [fs[|fs| - 1]]
  {
  }

  /** A run under a premise that goes on under it. */
  lemma {:induction false} AlwaysConcat(start: State, es: seq<Event>, fs: seq<Event>, ok: (State, Event) -> bool)
    requires Always(start, es, ok) && Always(Exec(start, es), fs, ok)
    ensures Always(start, es + fs, ok)
    decreases |fs|
  {
    if fs == [] {
      assert es + fs == es;
    } else {
      var before, e := fs[..|fs| - 1], fs[|fs| - 1];
      AlwaysConcat(start, es, before, ok);
      ExecConcat(start, es, before);
      AlwaysOneMore(start, es + before, e, ok);
      LastOfConcat(es, fs);
    }
  }
}
