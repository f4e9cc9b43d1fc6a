/** Names of the Jobs and PersistentVolumeClaims the operator creates for a node. */
module Naming {
  import opened Wrappers

  // Layout "20060102150405": every formatted creation time has this many characters.
  const STAMP_LENGTH: nat := 14
  // A name may have at most this many characters in a Kubernetes label or object name part.
  const MAX_NAME: nat := 63
  const CLAIM_SUFFIX := "-pvc"

  type Stamp = s: string | |s| == STAMP_LENGTH witness "20060102150405"

  /** The part of a host name before its first dot. */
  function FirstLabel(node: string): (host: string)
    ensures |host| <= |node| && '.' !in host
    ensures host == node || (|host| < |node| && node[..|host| + 1] == host + ".")
  {
    if node == [] || node[0] == '.' then []
    else [node[0]] + FirstLabel(node[1..])
  }

  /** What is left for the short host name; negative when the CR name is too long. */
  function Room(crName: string): int {
    MAX_NAME - 2 - |crName| - STAMP_LENGTH - |CLAIM_SUFFIX|
  }

  /** The short host name, cut to the room left; None where the program's slice is out of range. */
  function ShortName(crName: string, node: string): Option<string> {
    var host := FirstLabel(node);
    if |host| <= Room(crName) then Some(host)
    else if Room(crName) < 0 then None
    else Some(host[..Room(crName)])
  }

  function JobName(crName: string, node: string, stamp: Stamp): Option<string> {
    match ShortName(crName, node)
    case None => None
    case Some(short) => Some(crName + "-" + short + "-" + stamp)
  }

  function ClaimName(jobName: string): string {
    jobName + CLAIM_SUFFIX
  }

  /** A name can be built for a node exactly when the CR name has at most 43 characters,
      and then job and claim names respect their limits. */
  lemma NamesFit(crName: string, node: string, stamp: Stamp)
    ensures JobName(crName, node, stamp).Some? <==> |crName| <= 43
    ensures |crName| <= 43 ==>
      var job := JobName(crName, node, stamp).value;
      |job| <= 59 && |ClaimName(job)| <= MAX_NAME
  {
    assert |FirstLabel(node)| >= 0;
  }

  /** The names: CR, first label of the node cut to 43 characters less those of the CR name, and time stamp. */
  lemma NamesAre(crName: string, node: string, stamp: Stamp, job: string)
    ensures |crName| <= 43 ==>
      var host, room := FirstLabel(node), 43 - |crName|;
      JobName(crName, node, stamp) ==
        Some(crName + "-" + (if |host| <= room then host else host[..room]) + "-" + stamp)
    ensures ClaimName(job) == job + "-pvc"
  {
  }

  /** For one CR, two job names are equal exactly when the cut host labels and the stamps are. */
  lemma NamesCollideExactly(crName: string, n1: string, t1: Stamp, n2: string, t2: Stamp)
    requires |crName| <= 43
    ensures JobName(crName, n1, t1) == JobName(crName, n2, t2)
       <==> ShortName(crName, n1) == ShortName(crName, n2) && t1 == t2
  {
    var s1, s2 := ShortName(crName, n1).value, ShortName(crName, n2).value;
    var j1, j2 := crName + "-" + s1 + "-" + t1, crName + "-" + s2 + "-" + t2;
    if j1 == j2 {
      assert t1 == j1[|j1| - STAMP_LENGTH..] == j2[|j2| - STAMP_LENGTH..] == t2;
      assert s1 == j1[|crName| + 1..|j1| - STAMP_LENGTH - 1] == j2[|crName| + 1..|j2| - STAMP_LENGTH - 1] == s2;
    }
  }

  /** Distinct jobs get distinct claims. */
  lemma ClaimNameInjective(a: string, b: string)
    requires ClaimName(a) == ClaimName(b)
    ensures a == b
  {
    assert a == ClaimName(a)[..|ClaimName(a)| - |CLAIM_SUFFIX|];
    assert b == ClaimName(b)[..|ClaimName(b)| - |CLAIM_SUFFIX|];
  }
}
