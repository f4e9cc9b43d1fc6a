/**
 A process that dies between any two calls of a pass leaves behind what one leaves whose remaining calls all
 fail, and that then dies between two passes. So a program that is only ever killed between passes, but
 whose calls may fail at any point, shows every state a crash can produce, half-written pairs included.
 */
module Crashes {
  import opened Wrappers
  import opened Codec
  import opened Naming
  import opened Protocol
  import opened Phases
  import opened Runs
  import opened Exactness

  /** A call that fails without effect, a step the program takes on its own, or the end of an idle process. */
  ghost predicate OnlyFailures(st: State, e: Event) {
    match e
    case NodesListed(nodes) => nodes.NodeListFailed?
    case JobsListed(jobs) => jobs.JobListFailed?
    case Written(write) => write.Refused?
    case ClaimAsked(_, _, claim) => claim.NoTemplate? || claim.ClaimRefused?
    case JobAsked(create) => create.NotCreated?
    case LoopLeft => true
    case Mirrored(_, _) => true
    case Crash => st.pass.Idle?
    case _ => false
  }

  lemma DiesIdle(st: State, reached: State -> bool) returns (st': State)
    requires Closed(reached, OnlyFailures) && reached(st) && |st.crs| > 0 && st.pass.Idle?
    ensures reached(st') && st' == Restarted(st)
  {
    st' := Go(reached, OnlyFailures, st, Crash);
  }

  lemma DiesAtStatus(st: State, reached: State -> bool) returns (st': State)
    requires Closed(reached, OnlyFailures) && reached(st) && |st.crs| > 0
    requires (st.pass.WritingScheduled? || st.pass.WritingStatus?)
    ensures reached(st') && st' == Restarted(st)
  {
    st' := Go(reached, OnlyFailures, st, Written(Refused));
    st' := DiesIdle(st', reached);
  }

  lemma DiesScheduling(st: State, reached: State -> bool) returns (st': State)
    requires Closed(reached, OnlyFailures) && reached(st) && |st.crs| > 0
    requires (st.pass.ListingNodes? || st.pass.WritingSchedule?)
    ensures reached(st') && st' == Restarted(st)
  {
    if st.pass.ListingNodes? {
      st' := Go(reached, OnlyFailures, st, NodesListed(NodeListFailed));
      st' := DiesIdle(st', reached);
    } else {
      st' := Go(reached, OnlyFailures, st, Written(Refused));
      st' := DiesAtStatus(st', reached);
    }
  }

  lemma DiesAfterLoop(st: State, reached: State -> bool) returns (st': State)
    requires Closed(reached, OnlyFailures) && reached(st) && |st.crs| > 0
    requires (st.pass.WritingQueues? || st.pass.Mirroring?)
    ensures reached(st') && st' == Restarted(st)
  {
    st' := st;
    if st.pass.WritingQueues? {
      st' := Go(reached, OnlyFailures, st, Written(Refused));
    }
    var current := Enumeration(Elements(st'.pass.copy.cr.running.Parsed()));
    var outstanding := Enumeration(Elements(st'.pass.copy.cr.toRun.Parsed()));
    st' := Go(reached, OnlyFailures, st', Mirrored(current, outstanding));
    st' := DiesAtStatus(st', reached);
  }

  lemma LeavesLoop(st: State, reached: State -> bool) returns (st': State)
    requires Closed(reached, OnlyFailures) && reached(st) && |st.crs| > 0
    requires st.pass.Choosing? && (st.pass.todo == {} || st.pass.budget <= |st.pass.started|)
    ensures reached(st') && st' == Restarted(st)
  {
    st' := Go(reached, OnlyFailures, st, LoopLeft);
    if !st'.pass.Idle? { st' := DiesAfterLoop(st', reached); }
  }

  lemma {:induction false} DiesInLoop(st: State, reached: State -> bool) returns (st': State)
    requires Closed(reached, OnlyFailures) && reached(st) && |st.crs| > 0 && st.pass.Choosing?
    ensures reached(st') && st' == Restarted(st)
    decreases |st.pass.todo|
  {
    if st.pass.todo == {} || st.pass.budget <= |st.pass.started| {
      st' := LeavesLoop(st, reached);
    } else {
      var n :| n in st.pass.todo;
      st' := Go(reached, OnlyFailures, st, ClaimAsked(n, SOME_STAMP, NoTemplate));
      if !st'.pass.Idle? { st' := DiesInLoop(st', reached); }
    }
  }

  lemma DiesOnQueue(st: State, reached: State -> bool) returns (st': State)
    requires Closed(reached, OnlyFailures) && reached(st) && |st.crs| > 0
    requires st.pass.ListingJobs? || st.pass.WritingDequeue? || st.pass.CreatingJob?
    ensures reached(st') && st' == Restarted(st)
  {
    var e :=
      if st.pass.ListingJobs? then JobsListed(JobListFailed)
      else if st.pass.WritingDequeue? then Written(Refused)
      else JobAsked(NotCreated);
    st' := Go(reached, OnlyFailures, st, e);
    st' := DiesInLoop(st', reached);
  }

  lemma Dies(st: State, reached: State -> bool) returns (st': State)
    requires Closed(reached, OnlyFailures) && reached(st) && |st.crs| > 0
    ensures reached(st') && st' == Restarted(st)
  {
    match st.pass
    case Idle => st' := DiesIdle(st, reached);
    case ListingNodes(_) => st' := DiesScheduling(st, reached);
    case WritingSchedule(_) => st' := DiesScheduling(st, reached);
    case WritingScheduled(_) => st' := DiesAtStatus(st, reached);
    case WritingStatus(_) => st' := DiesAtStatus(st, reached);
    case WritingQueues(_) => st' := DiesAfterLoop(st, reached);
    case Mirroring(_) => st' := DiesAfterLoop(st, reached);
    case Choosing(_, _, _, _) => st' := DiesInLoop(st, reached);
    case _ => st' := DiesOnQueue(st, reached);
  }

  /** Dying anywhere in a pass is the same as having every further call fail and dying after the pass. */
  lemma {:induction false} DyingIsFailing(st: State) returns (fs: seq<Event>)
    requires |st.crs| > 0
    ensures Exec(st, fs) == Next(st, Crash) && Always(st, fs, OnlyFailures)
  {
    ReachableIsClosed(st, OnlyFailures);
    var dead := Dies(st, Reachable(st, OnlyFailures));
    fs := RunOf(st, OnlyFailures, dead);
  }
}
