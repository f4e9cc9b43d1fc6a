/** The API server as the reconciler meets it: CRs with their versions, Jobs and claims shared by every Sosreport. */
module Cluster {
  import opened Wrappers
  import opened Codec
  import opened Naming
  import opened Protocol
  import opened Tolerations
  import opened Configuration

  type UID = string

  const TO_RUN := "job-to-run-list"
  const RUNNING := "job-running-list"

  type Annotations = Option<map<string, string>>

  datatype StoredCr = StoredCr(annotations: Annotations, status: Status)
  datatype OwnerReference = OwnerReference(controller: bool, kind: string, uid: UID)
  datatype Condition = Condition(kind: string, status: string)
  datatype BatchJob = BatchJob(
    name: string,
    owners: seq<OwnerReference>,
    nodeName: NodeName,
    claimName: string,
    conditions: seq<Condition>)
  datatype Claim = Claim(name: string, owners: seq<OwnerReference>)

  // ---------- owners and conditions ----------

  function ControllerOf(owners: seq<OwnerReference>): Option<OwnerReference> {
    if owners == [] then None
    else if owners[0].controller then Some(owners[0])
    else ControllerOf(owners[1..])
  }

  predicate OwnedBy(owners: seq<OwnerReference>, u: UID) {
    var c := ControllerOf(owners);
    c.Some? && c.value.kind == "Sosreport" && c.value.uid == u
  }

  /** The owner references the operator gives to what it creates for a Sosreport. */
  function OwnersFor(u: UID): seq<OwnerReference> {
    [OwnerReference(true, "Sosreport", u)]
  }

  lemma OwnedByOne(u: UID)
    ensures forall v: UID :: OwnedBy(OwnersFor(u), v) <==> v == u
  {
    assert ControllerOf(OwnersFor(u)) == Some(OwnerReference(true, "Sosreport", u));
  }

  predicate EndsJob(c: Condition) {
    (c.kind == "Complete" || c.kind == "Failed") && c.status == "True"
  }

  predicate Done(conditions: seq<Condition>) {
    exists i | 0 <= i < |conditions| :: EndsJob(conditions[i])
  }

  /** It is the first owner that is a controller that counts. */
  lemma {:induction false} ControllerIsFirst(owners: seq<OwnerReference>, o: OwnerReference)
    ensures ControllerOf(owners) == Some(o) <==>
      exists k | 0 <= k < |owners| :: owners[k] == o && o.controller && forall i | 0 <= i < k :: !owners[i].controller
  {
    if owners != [] && !owners[0].controller {
      ControllerIsFirst(owners[1..], o);
      if k :| 0 <= k < |owners| && owners[k] == o && o.controller && forall i | 0 <= i < k :: !owners[i].controller {
        assert owners[1..][k - 1] == o && forall i | 0 <= i < k - 1 :: owners[1..][i] == owners[i + 1];
      }
      if k :|
        0 <= k < |owners[1..]| && owners[1..][k] == o && o.controller && forall i | 0 <= i < k ::
          !owners[1..][i].controller {
        assert owners[k + 1] == o && forall i | 0 < i < k + 1 :: owners[i] == owners[1..][i - 1];
      }
    }
  }

  lemma {:induction false} NoController(owners: seq<OwnerReference>)
    ensures ControllerOf(owners) == None <==> forall i | 0 <= i < |owners| :: !owners[i].controller
  {
    if owners != [] {
      NoController(owners[1..]);
      assert forall i | 0 < i < |owners| :: owners[i] == owners[1..][i - 1];
    }
  }

  /** Whose a Job is: its first controlling owner is the Sosreport of that UID. */
  lemma OwnedByFirstController(owners: seq<OwnerReference>, u: UID)
    ensures OwnedBy(owners, u) <==>
      exists k | 0 <= k < |owners| ::
        && owners[k] == OwnerReference(true, "Sosreport", u) && forall i | 0 <= i < k :: !owners[i].controller
  {
    ControllerIsFirst(owners, OwnerReference(true, "Sosreport", u));
    var c := ControllerOf(owners);
    if c.Some? {
      ControllerIsFirst(owners, c.value);
    }
  }

  /** A Job is done when it completed and when it failed, and not otherwise. */
  lemma DoneMeansEnded(conditions: seq<Condition>)
    ensures Done(conditions) <==> exists i | 0 <= i < |conditions| ::
      conditions[i].status == "True" && (conditions[i].kind == "Complete" || conditions[i].kind == "Failed")
  {
    if i :| 0 <= i < |conditions| && conditions[i].status == "True"
            && (conditions[i].kind == "Complete" || conditions[i].kind == "Failed") {
      assert EndsJob(conditions[i]);
    }
  }

  // ---------- what one CR sees of the shared store ----------

  /** Indexing a nil or incomplete Go map gives the empty string. */
  function Lookup(a: Annotations, key: string): string {
    if a.Some? && key in a.value then a.value[key] else ""
  }

  predicate Unreadable(a: Annotations, key: string) {
    a.Some? && key in a.value && Parse(a.value[key]).None?
  }

  function AnnotationOf(a: Annotations, key: string): Annotation {
    if a.None? || key !in a.value then Absent
    else
      var text := a.value[key];
      var parsed := Parse(text);
      if parsed.Some? && Print(parsed.value) == text then Printed(parsed.value) else Foreign(parsed)
  }

  function CrOf(cr: StoredCr): Cr {
    Cr(cr.annotations.Some?, AnnotationOf(cr.annotations, TO_RUN), AnnotationOf(cr.annotations, RUNNING), cr.status)
  }

  function CrsOf(crs: seq<StoredCr>): seq<Cr> {
    seq(|crs|, i requires 0 <= i < |crs| => CrOf(crs[i]))
  }

  function JobOf(j: BatchJob): Job {
    Job(j.name, j.claimName, j.nodeName, Done(j.conditions))
  }

  function JobsOf(jobs: seq<BatchJob>, u: UID): seq<Job> {
    if jobs == [] then []
    else
      var n := |jobs| - 1;
      JobsOf(jobs[..n], u) + (if OwnedBy(jobs[n].owners, u) then [JobOf(jobs[n])] else [])
  }

  function ClaimsOf(claims: seq<Claim>, u: UID): seq<string> {
    if claims == [] then []
    else
      var n := |claims| - 1;
      ClaimsOf(claims[..n], u) + (if OwnedBy(claims[n].owners, u) then [claims[n].name] else [])
  }

  /** The write tests compare texts; that is comparing sets. */
  lemma {:induction false} TextsCompareSets(a: Annotations, key: string, m: NodeSet)
    ensures Lookup(a, key) == Print(m) <==> AnnotationOf(a, key) == Printed(m)
  {
    RoundTrip(m);
  }

  /** What an annotation is read back as does not depend on who printed it. */
  lemma ParsedIsParse(a: Annotations, key: string)
    ensures AnnotationOf(a, key) == Absent <==> a.None? || key !in a.value
    ensures AnnotationOf(a, key).Parsed() == if a.None? || key !in a.value then None else Parse(a.value[key])
  {
  }

  /** What the protocol sees of a stored CR and of a stored Job. */
  lemma SeenOfTheStore(cr: StoredCr, j: BatchJob)
    ensures var c := CrOf(cr);
      && (c.annotated <==> cr.annotations.Some?) && c.status == cr.status
      && c.toRun == AnnotationOf(cr.annotations, "job-to-run-list")
      && c.running == AnnotationOf(cr.annotations, "job-running-list")
    ensures JobOf(j).name == j.name && JobOf(j).claim == j.claimName && JobOf(j).node == j.nodeName
    ensures JobOf(j).done <==> exists i | 0 <= i < |j.conditions| ::
      j.conditions[i].status == "True" && (j.conditions[i].kind == "Complete" || j.conditions[i].kind == "Failed")
  {
    DoneMeansEnded(j.conditions);
  }

  lemma {:induction false} AnnotationWritten(a: Annotations, key: string, m: NodeSet)
    requires a.Some?
    ensures AnnotationOf(Some(a.value[key := Print(m)]), key) == Printed(m)
    ensures forall other | other != key :: AnnotationOf(Some(a.value[key := Print(m)]), other) == AnnotationOf(a, other)
  {
    RoundTrip(m);
  }

  lemma NewVersion(crs: seq<StoredCr>, cr: StoredCr)
    ensures CrsOf(crs + [cr]) == CrsOf(crs) + [CrOf(cr)]
  {
  }

  lemma NewJob(jobs: seq<BatchJob>, j: BatchJob, u: UID)
    ensures JobsOf(jobs + [j], u) == JobsOf(jobs, u) + (if OwnedBy(j.owners, u) then [JobOf(j)] else [])
  {
    assert (jobs + [j])[..|jobs|] == jobs;
  }

  lemma NewClaim(claims: seq<Claim>, c: Claim, u: UID)
    ensures ClaimsOf(claims + [c], u) == ClaimsOf(claims, u) + (if OwnedBy(c.owners, u) then [c.name] else [])
  {
    assert (claims + [c])[..|claims|] == claims;
  }

  lemma {:induction false} OwnClaimsAreClaims(claims: seq<Claim>, u: UID, name: string)
    requires name in ClaimsOf(claims, u)
    ensures exists i | 0 <= i < |claims| :: claims[i].name == name
  {
    var n := |claims| - 1;
    if claims[n].name != name {
      OwnClaimsAreClaims(claims[..n], u, name);
      var i :| 0 <= i < n && claims[..n][i].name == name;
      assert claims[i].name == name;
    }
  }

  lemma NewNameIsNew(claims: seq<Claim>, u: UID, name: string)
    requires forall i | 0 <= i < |claims| :: claims[i].name != name
    ensures name !in ClaimsOf(claims, u)
  {
    if name in ClaimsOf(claims, u) {
      OwnClaimsAreClaims(claims, u, name);
      assert false;
    }
  }

  lemma {:induction false} OwnedJobIsListed(jobs: seq<BatchJob>, u: UID, k: nat)
    requires k < |jobs| && OwnedBy(jobs[k].owners, u)
    ensures JobOf(jobs[k]) in JobsOf(jobs, u)
  {
    var n := |jobs| - 1;
    if k < n {
      OwnedJobIsListed(jobs[..n], u, k);
    }
  }

  // ---------- the server ----------

  /** A listed Job may be an old view of a stored one: conditions are only ever added. */
  predicate ViewOf(item: BatchJob, jobs: seq<BatchJob>) {
    exists k | 0 <= k < |jobs| ::
      && jobs[k].owners == item.owners && jobs[k].nodeName == item.nodeName
      && (Done(item.conditions) ==> Done(jobs[k].conditions))
  }

  predicate Snapshot(items: seq<BatchJob>, jobs: seq<BatchJob>) {
    forall i | 0 <= i < |items| :: ViewOf(items[i], jobs)
  }

  /** The listed Jobs that belong to one Sosreport. */
  function OwnJobs(items: seq<BatchJob>, u: UID): seq<BatchJob> {
    if items == [] then []
    else
      var n := |items| - 1;
      OwnJobs(items[..n], u) + (if OwnedBy(items[n].owners, u) then [items[n]] else [])
  }

  lemma {:induction false} OwnJobsAreOwned(items: seq<BatchJob>, jobs: seq<BatchJob>, u: UID)
    requires Snapshot(items, jobs)
    ensures Snapshot(OwnJobs(items, u), jobs)
    ensures forall i | 0 <= i < |OwnJobs(items, u)| :: OwnedBy(OwnJobs(items, u)[i].owners, u)
    ensures forall j :: j in OwnJobs(items, u) <==> j in items && OwnedBy(j.owners, u)
  {
    if items != [] {
      OwnJobsAreOwned(items[..|items| - 1], jobs, u);
      assert ViewOf(items[|items| - 1], jobs);
      assert items == items[..|items| - 1] + [items[|items| - 1]];
    }
  }

  ghost function DoneNodes(items: seq<BatchJob>): set<NodeName> {
    if items == [] then {}
    else
      var n := |items| - 1;
      DoneNodes(items[..n]) + (if Done(items[n].conditions) then {items[n].nodeName} else {})
  }

  lemma {:induction false} DoneNodesAreDone(items: seq<BatchJob>, n: NodeName)
    ensures n in DoneNodes(items) <==> exists i | 0 <= i < |items| ::
      items[i].nodeName == n && Done(items[i].conditions)
  {
    if items != [] {
      var k := |items| - 1;
      DoneNodesAreDone(items[..k], n);
      if i :| 0 <= i < |items| && items[i].nodeName == n && Done(items[i].conditions) {
        if i < k { assert items[..k][i] == items[i]; }
      }
      if n in DoneNodes(items[..k]) {
        var i :| 0 <= i < k && items[..k][i].nodeName == n && Done(items[..k][i].conditions);
        assert items[i] == items[..k][i];
      }
    }
  }

  /** The nodes of Jobs with a true Complete or Failed condition. */
  lemma DoneNodesEnded(items: seq<BatchJob>, n: NodeName)
    ensures n in DoneNodes(items) <==>
      exists i, k | 0 <= i < |items| && 0 <= k < |items[i].conditions| ::
        && items[i].nodeName == n && items[i].conditions[k].status == "True"
        && (items[i].conditions[k].kind == "Complete" || items[i].conditions[k].kind == "Failed")
  {
    DoneNodesAreDone(items, n);
    forall i | 0 <= i < |items|
      ensures Done(items[i].conditions) <==> exists k | 0 <= k < |items[i].conditions| ::
        && items[i].conditions[k].status == "True"
        && (items[i].conditions[k].kind == "Complete" || items[i].conditions[k].kind == "Failed")
    {
      DoneMeansEnded(items[i].conditions);
    }
  }

  /** What the two lists mean to the protocol. */
  lemma AnswersAre(ok: bool, items: seq<BatchJob>, jobs: seq<BatchJob>, u: UID, n: NodeName)
    requires Snapshot(items, jobs)
    ensures JobAnswerOf(ok, items, u).DoneSeen? <==> ok
    ensures ok ==> (n in JobAnswerOf(ok, items, u).nodes <==>
      exists j | j in items :: OwnedBy(j.owners, u) && j.nodeName == n && Done(j.conditions))
  {
    OwnJobsAreOwned(items, jobs, u);
    var own := OwnJobs(items, u);
    DoneNodesAreDone(own, n);
    if n in DoneNodes(own) {
      var i :| 0 <= i < |own| && own[i].nodeName == n && Done(own[i].conditions);
      assert own[i] in own;
    }
    if j :| j in items && OwnedBy(j.owners, u) && j.nodeName == n && Done(j.conditions) {
      assert j in own;
      var i :| 0 <= i < |own| && own[i] == j;
    }
  }

  lemma NodeAnswerIs(ok: bool, nodes: seq<Node>, ts: seq<Toleration>, matches: Match)
    ensures var answer := NodeAnswerOf(ok, nodes, ts, matches);
      && (answer.NodeListFailed? <==> !ok) && (answer.NoNodes? <==> ok && |nodes| == 0)
      && (answer.Eligible? ==> answer.names == EligibleNames(ts, nodes, matches))
  {
  }

  ghost function JobAnswerOf(ok: bool, items: seq<BatchJob>, u: UID): JobAnswer {
    if ok then DoneSeen(DoneNodes(OwnJobs(items, u))) else JobListFailed
  }

  ghost function NodeAnswerOf(ok: bool, nodes: seq<Node>, ts: seq<Toleration>, matches: Match): NodeAnswer {
    if !ok then NodeListFailed else if nodes == [] then NoNodes else Eligible(EligibleNames(ts, nodes, matches))
  }

  /** The events that are answers of the server, without the steps the program takes on its own. */
  function Calls(es: seq<Event>): seq<Event> {
    if es == [] then []
    else
      var n := |es| - 1;
      Calls(es[..n]) + (if es[n].Begin? || es[n].LoopLeft? || es[n].Mirrored? then [] else [es[n]])
  }

  lemma CallsOne(es: seq<Event>, e: Event)
    ensures Calls(es + [e]) == if e.Begin? || e.LoopLeft? || e.Mirrored? then Calls(es) else Calls(es) + [e]
  {
    assert (es + [e])[..|es|] == es;
  }

  lemma {:induction false} CallsConcat(es: seq<Event>, fs: seq<Event>)
    ensures Calls(es + fs) == Calls(es) + Calls(fs)
  {
    if fs == [] {
      assert es + fs == es;
    } else {
      var n := |fs| - 1;
      assert (es + fs)[..|es| + n] == es + fs[..n];
      CallsConcat(es, fs[..n]);
    }
  }

  /** Inside a pass nothing begins, nobody else acts, and nobody kills the process. */
  ghost predicate Inside(es: seq<Event>) {
    es == [] || (Inside(es[..|es| - 1]) && IsInside(es[|es| - 1]))
  }

  predicate IsInside(e: Event) {
    !e.Begin? && !e.Crash? && !e.JobFinished? && !e.Edited?
  }

  lemma InsideOne(es: seq<Event>, e: Event)
    requires Inside(es) && IsInside(e)
    ensures Inside(es + [e])
  {
    assert (es + [e])[..|es|] == es;
  }

  lemma {:induction false} InsideConcat(es: seq<Event>, fs: seq<Event>)
    requires Inside(es) && Inside(fs)
    ensures Inside(es + fs)
    decreases |fs|
  {
    if fs == [] {
      assert es + fs == es;
    } else {
      var n := |fs| - 1;
      InsideConcat(es, fs[..n]);
      InsideOne(es + fs[..n], fs[n]);
      assert es + fs == es + fs[..n] + [fs[n]];
    }
  }

  /** One read of a CR: which version the cache gave, and how many were stored then. */
  datatype Read = Read(uid: UID, version: nat, stored: nat)

  /** Every read of the CR u gave the latest version. */
  ghost predicate CurrentFor(u: UID, gets: seq<Read>) {
    forall i | 0 <= i < |gets| && gets[i].uid == u :: gets[i].version + 1 == gets[i].stored
  }

  /** A Sosreport as the program holds it: a copy of some version of the CR. */
  class Sosreport {
    const uid: UID
    const name: string
    const tolerations: seq<Toleration>
    var annotations: Annotations
    var status: Status
    var version: nat

    constructor (uid: UID, name: string, tolerations: seq<Toleration>, cr: StoredCr, version: nat)
      ensures this.uid == uid && this.name == name
      ensures annotations == cr.annotations && status == cr.status && this.version == version
    {
      this.uid, this.name, this.tolerations := uid, name, tolerations;
      this.annotations, this.status, this.version := cr.annotations, cr.status, version;
    }

    function AsCopy(): Copy
      reads this
    {
      Copy(CrOf(StoredCr(annotations, status)), version)
    }
  }

  class ApiServer {
    const names: UID -> string
    var crs: map<UID, seq<StoredCr>>
    var jobs: seq<BatchJob>
    var claims: seq<Claim>
    // every call that was answered, as the protocol event it is
    ghost var log: seq<Event>
    // every CR and every ConfigMap that was read
    ghost var gets: seq<Read>
    ghost var configs: seq<ConfigAnswer>

    /** The stored part of a protocol state, as this server shows it for one CR. */
    ghost predicate Shows(u: UID, st: State)
      reads this
    {
      && u in crs && |crs[u]| > 0
      && st.name == names(u)
      && st.crs == CrsOf(crs[u])
      && st.jobs == JobsOf(jobs, u)
      && st.claims == ClaimsOf(claims, u)
    }

    /** What every CR but u sees has not changed. */
    twostate predicate OthersKept(u: UID)
      reads this
    {
      forall v: UID | v != u ::
        && (v in crs <==> v in old(crs)) && (v in crs ==> crs[v] == old(crs[v]))
        && JobsOf(jobs, v) == old(JobsOf(jobs, v))
        && ClaimsOf(claims, v) == old(ClaimsOf(claims, v))
    }

    /** Reads some stored version: the cache may lag behind. */
    method Get(u: UID) returns (s: Sosreport?)
      modifies this`gets
      ensures s == null ==> gets == old(gets)
      ensures s != null ==>
        && fresh(s) && s.uid == u && s.name == names(u)
        && u in crs && s.version < |crs[u]|
        && gets == old(gets) + [Read(u, s.version, |crs[u]|)]
        && s.annotations == crs[u][s.version].annotations && s.status == crs[u][s.version].status
    {
      var found: bool := *;
      if !found || u !in crs || |crs[u]| == 0 {
        return null;
      }
      var version: nat :| version < |crs[u]|;
      var tolerations: seq<Toleration> := *;
      s := new Sosreport(u, names(u), tolerations, crs[u][version], version);
      gets := gets + [Read(u, version, |crs[u]|)];
    }

    /** The common part of the two kinds of writes: an old version is rejected, a reply may be lost,
        and an accepted write hands back what is stored. */
    method Write(s: Sosreport, cr: StoredCr) returns (answer: WriteAnswer)
      requires s.uid in crs && |crs[s.uid]| > 0
      modifies this`crs, this`log, s
      ensures log == old(log) + [Written(answer)]
      ensures answer.Refused? ==> crs == old(crs)
      ensures !answer.Refused? ==>
        && old(s.version) == |old(crs[s.uid])| - 1
        && crs == old(crs)[s.uid := old(crs[s.uid]) + [cr]]
      ensures answer.Accepted? ==> s.annotations == cr.annotations && s.status == cr.status
      ensures answer.Accepted? ==> s.version == |old(crs[s.uid])|
      ensures !answer.Accepted? ==> unchanged(s)
    {
      answer := *;
      if s.version != |crs[s.uid]| - 1 {
        answer := Refused;
      }
      log := log + [Written(answer)];
      if !answer.Refused? {
        var n := |crs[s.uid]|;
        crs := crs[s.uid := crs[s.uid] + [cr]];
        if answer.Accepted? {
          s.annotations, s.status, s.version := cr.annotations, cr.status, n;
        }
      }
    }

    /** Writes the annotations; the status sent along is ignored. */
    method Update(s: Sosreport, ghost st: State) returns (ghost answer: WriteAnswer)
      requires Shows(s.uid, st)
      requires (st.pass.WritingSchedule? || st.pass.WritingDequeue? || st.pass.WritingQueues?)
      requires st.pass.copy == s.AsCopy()
      modifies this`crs, this`log, s
      ensures log == old(log) + [Written(answer)]
      ensures Enabled(st, Written(answer))
      ensures var st' := WrittenStep(st, answer);
        && Shows(s.uid, st')
        && s.AsCopy() == if answer.Accepted? then Copy(Stored(st), |st.crs|) else st.pass.copy
      ensures OthersKept(s.uid)
      ensures var was := old(crs[s.uid]);
        crs[s.uid] == if answer.Refused? then was
                      else was + [StoredCr(old(s.annotations), was[|was| - 1].status)]
      ensures s.annotations == old(s.annotations)
    {
      var all := crs[s.uid];
      var cr := StoredCr(s.annotations, all[|all| - 1].status);
      assert CrOf(cr) == Stored(st);
      NewVersion(all, cr);
      var a := Write(s, cr);
      answer := a;
    }

    /** Writes the status; the annotations sent along are ignored. */
    method UpdateStatus(s: Sosreport, ghost st: State) returns (ghost answer: WriteAnswer)
      requires Shows(s.uid, st)
      requires (st.pass.WritingScheduled? || st.pass.WritingStatus?) && st.pass.copy == s.AsCopy()
      modifies this`crs, this`log, s
      ensures log == old(log) + [Written(answer)]
      ensures Enabled(st, Written(answer))
      ensures Shows(s.uid, WrittenStep(st, answer))
      ensures OthersKept(s.uid)
      ensures var was := old(crs[s.uid]);
        crs[s.uid] == if answer.Refused? then was
                      else was + [StoredCr(was[|was| - 1].annotations, old(s.status))]
    {
      var all := crs[s.uid];
      var cr := StoredCr(all[|all| - 1].annotations, s.status);
      assert CrOf(cr) == Stored(st);
      NewVersion(all, cr);
      var a := Write(s, cr);
      answer := a;
    }

    /** The ghost parameters say what the caller will make of the list. */
    method ListNodes(ghost ts: seq<Toleration>, ghost matches: Match) returns (ok: bool, nodes: seq<Node>)
      modifies this`log
      ensures log == old(log) + [NodesListed(NodeAnswerOf(ok, nodes, ts, matches))]
    {
      ok, nodes := *, *;
      log := log + [NodesListed(NodeAnswerOf(ok, nodes, ts, matches))];
    }

    method ListJobs(ghost u: UID) returns (ok: bool, items: seq<BatchJob>)
      modifies this`log
      ensures Snapshot(items, jobs)
      ensures log == old(log) + [JobsListed(JobAnswerOf(ok, items, u))]
    {
      ok, items := *, *;
      if !Snapshot(items, jobs) {
        items := [];
      }
      log := log + [JobsListed(JobAnswerOf(ok, items, u))];
    }

    /** Reads the Job template from disk. */
    method ReadTemplate(ghost node: NodeName, ghost stamp: Stamp) returns (ok: bool)
      modifies this`log
      ensures log == if ok then old(log) else old(log) + [ClaimAsked(node, stamp, NoTemplate)]
    {
      ok := *;
      if !ok {
        log := log + [ClaimAsked(node, stamp, NoTemplate)];
      }
    }

    /** The answer tells the caller only whether there was an error; a claim may exist all the same. */
    method CreateClaim(c: Claim, ghost node: NodeName, ghost stamp: Stamp) returns (ok: bool, ghost answer: ClaimAnswer)
      modifies this`claims, this`log
      ensures log == old(log) + [ClaimAsked(node, stamp, answer)]
      ensures !answer.NoTemplate? && (ok <==> answer.ClaimCreated?)
      ensures claims == if answer.ClaimRefused? then old(claims) else old(claims) + [c]
      ensures !answer.ClaimRefused? ==> forall i | 0 <= i < |old(claims)| :: old(claims)[i].name != c.name
      ensures !answer.ClaimRefused? ==>
        forall v: UID ::
          ClaimsOf(claims, v) == ClaimsOf(old(claims), v) + (if OwnedBy(c.owners, v) then [c.name] else [])
    {
      var stored: bool, replied: bool := *, *;
      if exists i | 0 <= i < |claims| :: claims[i].name == c.name {
        stored := false;
      }
      ok := stored && replied;
      answer := if ok then ClaimCreated else if stored then ClaimReplyLost else ClaimRefused;
      log := log + [ClaimAsked(node, stamp, answer)];
      if stored {
        forall v: UID
          ensures ClaimsOf(claims + [c], v) == ClaimsOf(claims, v) + (if OwnedBy(c.owners, v) then [c.name] else [])
        {
          NewClaim(claims, c, v);
        }
        claims := claims + [c];
      }
    }

    method CreateJob(j: BatchJob) returns (ok: bool, ghost answer: CreateAnswer)
      modifies this`jobs, this`log
      ensures log == old(log) + [JobAsked(answer)]
      ensures ok <==> answer.Created?
      ensures jobs == if answer.NotCreated? then old(jobs) else old(jobs) + [j]
      ensures !answer.NotCreated? ==> forall i | 0 <= i < |old(jobs)| :: old(jobs)[i].name != j.name
      ensures !answer.NotCreated? ==>
        forall v: UID :: JobsOf(jobs, v) == JobsOf(old(jobs), v) + (if OwnedBy(j.owners, v) then [JobOf(j)] else [])
    {
      var stored: bool, replied: bool := *, *;
      if exists i | 0 <= i < |jobs| :: jobs[i].name == j.name {
        stored := false;
      }
      ok := stored && replied;
      answer := if ok then Created else if stored then CreateReplyLost else NotCreated;
      log := log + [JobAsked(answer)];
      if stored {
        forall v: UID
          ensures JobsOf(jobs + [j], v) == JobsOf(jobs, v) + (if OwnedBy(j.owners, v) then [JobOf(j)] else [])
        {
          NewJob(jobs, j, v);
        }
        jobs := jobs + [j];
      }
    }

    method GetConfigMap(name: string) returns (cm: ConfigMap)
      modifies this`configs
      ensures configs == old(configs) + [ConfigAnswer(name, cm)]
    {
      cm := *;
      configs := configs + [ConfigAnswer(name, cm)];
    }
  }
}
