/**
 The annotation values "job-to-run-list" and "job-running-list": a Go map[string]struct{} printed
 as a JSON object with sorted keys and `{}` values, or `null` for a nil map (sections 3, 4 and 7
 of RFC 8259). Names come from host name labels, so no character needs escaping.
 */
module Codec {
  import opened Wrappers

  predicate IsLabelChar(c: char) {
    'a' <= c <= 'z' || 'A' <= c <= 'Z' || '0' <= c <= '9' || c == '-' || c == '_' || c == '.'
  }

  type NodeName = s: string | forall i | 0 <= i < |s| :: IsLabelChar(s[i]) witness ""

  /** A Go set of names, which is a map that may be nil. */
  datatype NodeSet = Nil | Names(names: set<NodeName>) {
    function Elems(): set<NodeName> {
      if Nil? then {} else names
    }
  }

  // ---------- the order of the keys ----------

  predicate Before(a: string, b: string) {
    if b == [] then false
    else if a == [] then true
    else a[0] < b[0] || (a[0] == b[0] && Before(a[1..], b[1..]))
  }

  lemma {:induction false} BeforeIsTotal(a: string, b: string)
    ensures a == b || Before(a, b) || Before(b, a)
    ensures !(Before(a, b) && Before(b, a))
    ensures !Before(a, a)
  {
    if a != [] {
      BeforeIsTotal(a[1..], a[1..]);
      if b != [] {
        BeforeIsTotal(a[1..], b[1..]);
        if a[0] == b[0] && a[1..] == b[1..] {
          assert a == [a[0]] + a[1..] == b;
        }
      }
    }
  }

  lemma {:induction false} BeforeIsTransitive(a: string, b: string, c: string)
    requires Before(a, b) && Before(b, c)
    ensures Before(a, c)
  {
    if a != [] && a[0] == b[0] && b[0] == c[0] {
      BeforeIsTransitive(a[1..], b[1..], c[1..]);
    }
  }

  /** Up to k they are the same; then a ends, or has the smaller character. */
  ghost predicate SmallerFrom(a: string, b: string, k: nat) {
    k <= |a| && k < |b| && a[..k] == b[..k] && (k < |a| ==> a[k] < b[k])
  }

  /** It is the order of dictionaries, which puts a word before its continuations. */
  lemma {:induction false} BeforeIsLexicographic(a: string, b: string)
    ensures Before(a, b) <==> exists k: nat :: SmallerFrom(a, b, k)
  {
    if Before(a, b) {
      if a == [] || a[0] < b[0] {
        assert SmallerFrom(a, b, 0);
      } else {
        BeforeIsLexicographic(a[1..], b[1..]);
        var k: nat :| SmallerFrom(a[1..], b[1..], k);
        assert a[..k + 1] == [a[0]] + a[1..][..k] == b[..k + 1];
        assert SmallerFrom(a, b, k + 1);
      }
    } else if k: nat :| SmallerFrom(a, b, k) {
      if k > 0 {
        assert a[0] == a[..k][0] == b[..k][0] == b[0];
        assert a[1..][..k - 1] == a[..k][1..] == b[1..][..k - 1];
        assert SmallerFrom(a[1..], b[1..], k - 1);
        BeforeIsLexicographic(a[1..], b[1..]);
      }
    }
  }

  predicate IsFirst(m: NodeName, s: set<NodeName>) {
    m in s && forall x | x in s :: x == m || Before(m, x)
  }

  lemma {:induction false} FirstExists(s: set<NodeName>)
    requires s != {}
    ensures exists m :: IsFirst(m, s)
    decreases s
  {
    var x :| x in s;
    if s == {x} {
      assert IsFirst(x, s);
    } else {
      FirstExists(s - {x});
      var y: NodeName :| IsFirst(y, s - {x});
      BeforeIsTotal(x, y);
      if Before(x, y) {
        forall z | z in s ensures z == x || Before(x, z) {
          if z != x && z != y { BeforeIsTransitive(x, y, z); }
        }
        assert IsFirst(x, s);
      } else {
        assert IsFirst(y, s);
      }
    }
  }

  lemma FirstIsUnique(s: set<NodeName>)
    ensures forall m, n | m in s && n in s && IsFirst(m, s) && IsFirst(n, s) :: m == n
  {
    forall m, n | m in s && n in s && IsFirst(m, s) && IsFirst(n, s) ensures m == n {
      BeforeIsTotal(m, n);
    }
  }

  ghost predicate Sorted(q: seq<NodeName>) {
    forall i, j | 0 <= i < j < |q| :: Before(q[i], q[j])
  }

  /** A first key before a sorted rest. */
  lemma SortedFirst(m: NodeName, s: set<NodeName>, q: seq<NodeName>)
    requires m in s && IsFirst(m, s) && Sorted(q) && forall n :: n in q <==> n in s - {m}
    ensures Sorted([m] + q) && forall n :: n in [m] + q <==> n in s
  {
    forall j | 0 <= j < |q| ensures Before(m, q[j]) {
      assert q[j] in q;
    }
  }

  /** The keys in increasing order. */
  function SortedKeys(s: set<NodeName>): (q: seq<NodeName>)
    ensures forall n :: n in q <==> n in s
    ensures Sorted(q)
    ensures |q| == |s|
    decreases s
  {
    if s == {} then []
    else
      FirstExists(s);
      FirstIsUnique(s);
      var m :| m in s && IsFirst(m, s);
      SortedFirst(m, s, SortedKeys(s - {m}));
      [m] + SortedKeys(s - {m})
  }

  /** However the entries of the Go map were visited, sorting them gives one sequence. */
  lemma {:induction false} SortedKeysAreUnique(s: set<NodeName>, q: seq<NodeName>)
    requires Sorted(q) && forall n :: n in q <==> n in s
    ensures q == SortedKeys(s)
    decreases |q|
  {
    if q == [] {
      assert s == {} by { forall n ensures n !in s { assert n in q <==> n in s; } }
    } else {
      assert q[0] in s;
      SameFirst(s, q);
      TailKeys(s, q);
      SortedKeysAreUnique(s - {q[0]}, q[1..]);
      FirstOfSorted(s);
    }
  }

  lemma {:induction false} SameFirst(s: set<NodeName>, q: seq<NodeName>)
    requires q != [] && s != {} && Sorted(q) && forall n :: n in q <==> n in s
    ensures SortedKeys(s) != [] && SortedKeys(s)[0] == q[0]
  {
    var k := SortedKeys(s);
    assert q[0] in k;
    if q[0] != k[0] {
      var i :| 0 <= i < |k| && k[i] == q[0];
      assert k[0] in q;
      var j :| 0 <= j < |q| && q[j] == k[0];
      BeforeIsTotal(q[0], k[0]);
      assert false;
    }
  }

  lemma TailKeys(s: set<NodeName>, q: seq<NodeName>)
    requires q != [] && Sorted(q) && forall n :: n in q <==> n in s
    ensures Sorted(q[1..]) && forall n :: n in q[1..] <==> n in s - {q[0]}
  {
    forall n ensures n in q[1..] <==> n in s - {q[0]} {
      BeforeIsTotal(q[0], q[0]);
      if n in q[1..] {
        var i :| 0 <= i < |q[1..]| && q[1..][i] == n;
        assert q[i + 1] == n && Before(q[0], q[i + 1]);
      }
    }
  }

  lemma FirstOfSorted(s: set<NodeName>)
    requires s != {}
    ensures SortedKeys(s) == [SortedKeys(s)[0]] + SortedKeys(s - {SortedKeys(s)[0]})
  {
    FirstExists(s);
  }

  // ---------- printing ----------

  function Member(key: NodeName): string {
    "\"" + key + "\":{}"
  }

  function Members(keys: seq<NodeName>): string
    requires keys != []
  {
    if |keys| == 1 then Member(keys[0])
    else Member(keys[0]) + "," + Members(keys[1..])
  }

  function Object(keys: seq<NodeName>): string {
    if keys == [] then "{}" else "{" + Members(keys) + "}"
  }

  function Print(m: NodeSet): (text: string)
    ensures text != ""
  {
    match m
    case Nil => "null"
    case Names(s) => Object(SortedKeys(s))
  }

  lemma LeastFirst(s: set<NodeName>) returns (m: NodeName)
    requires s != {}
    ensures m in s && forall x | x in s && x != m :: Before(m, x)
    ensures SortedKeys(s) == [m] + SortedKeys(s - {m})
  {
    var q := SortedKeys(s);
    FirstOfSorted(s);
    m := q[0];
    assert m in q;
    forall x | x in s && x != m ensures Before(m, x) {
      var i :| 0 <= i < |q| && q[i] == x;
    }
  }

  lemma MembersOneMore(m: NodeName, keys: seq<NodeName>)
    ensures Object([m] + keys) == "{\"" + m + "\":{}" + if keys == [] then "}" else "," + Object(keys)[1..]
  {
    if keys != [] {
      assert ([m] + keys)[1..] == keys;
      assert Object(keys)[1..] == Members(keys) + "}";
    }
  }

  /** The texts: `null`, `{}`, or the least name as a quoted key with the value `{}`, and after a comma the other
      names in the same way. */
  lemma PrintedText(s: set<NodeName>) returns (m: NodeName)
    ensures Print(Nil) == "null" && Print(Names({})) == "{}"
    ensures s != {} ==> m in s && forall x | x in s && x != m :: Before(m, x)
    ensures s != {} ==>
      Print(Names(s)) == "{\"" + m + "\":{}" + if s == {m} then "}" else "," + Print(Names(s - {m}))[1..]
  {
    if s == {} {
      m := "";
    } else {
      m := LeastFirst(s);
      MembersOneMore(m, SortedKeys(s - {m}));
      if s != {m} {
        assert s - {m} != {} by { assert exists x :: x in s && x != m; }
      }
    }
  }

  // ---------- parsing ----------

  function LabelLength(t: string): (n: nat)
    ensures n <= |t| && (forall i | 0 <= i < n :: IsLabelChar(t[i]))
    ensures n < |t| ==> !IsLabelChar(t[n])
  {
    if t == [] || !IsLabelChar(t[0]) then 0 else 1 + LabelLength(t[1..])
  }

  /** Reads `"key":{}` members separated by commas up to a closing brace that ends the text. */
  function ParseMembers(t: string): Option<set<NodeName>>
    decreases |t|
  {
    if t == [] || t[0] != '"' then None
    else
      var n := LabelLength(t[1..]);
      var rest := t[1 + n..];
      if |rest| < 5 || rest[..4] != "\":{}" then None
      else if rest[4..] == "}" then Some({t[1..1 + n]})
      else if rest[4] != ',' then None
      else WithKey(t[1..1 + n], ParseMembers(rest[5..]))
  }

  function WithKey(key: NodeName, others: Option<set<NodeName>>): Option<set<NodeName>> {
    match others
    case None => None
    case Some(s) => Some({key} + s)
  }

  function Parse(t: string): Option<NodeSet> {
    if t == "null" then Some(Nil)
    else if t == "{}" then Some(Names({}))
    else if t == [] || t[0] != '{' then None
    else
      match ParseMembers(t[1..])
      case None => None
      case Some(s) => Some(Names(s))
  }

  lemma {:induction false} LabelThenQuote(key: NodeName, rest: string)
    ensures LabelLength(key + "\"" + rest) == |key|
    decreases |key|
  {
    var t := key + "\"" + rest;
    if key != [] {
      var tail: NodeName := key[1..];
      assert t[1..] == tail + "\"" + rest;
      LabelThenQuote(tail, rest);
    }
  }

  lemma PartsOfMember(key: NodeName, rest: string)
    requires rest != []
    ensures var t := Member(key) + rest;
      && t != [] && t[0] == '"' && LabelLength(t[1..]) == |key| && t[1..1 + |key|] == key
      && |t[1 + |key|..]| >= 5 && t[1 + |key|..][..4] == "\":{}" && t[1 + |key|..][4..] == rest
      && t[1 + |key|..][5..] == rest[1..]
  {
    var t := Member(key) + rest;
    assert t[1..] == key + "\"" + (":{}" + rest);
    LabelThenQuote(key, ":{}" + rest);
    assert t[1 + |key|..] == "\":{}" + rest;
  }

  lemma {:induction false} ParseOneMember(key: NodeName, rest: string)
    requires rest == "}" || (rest != [] && rest[0] == ',')
    ensures ParseMembers(Member(key) + rest) ==
      if rest == "}" then Some({key}) else WithKey(key, ParseMembers(rest[1..]))
  {
    PartsOfMember(key, rest);
  }

  lemma {:induction false} ParseThePrinted(keys: seq<NodeName>)
    requires keys != []
    ensures ParseMembers(Members(keys) + "}") == Some(set k | k in keys)
    decreases |keys|
  {
    if |keys| == 1 {
      ParseOneMember(keys[0], "}");
      assert (set k | k in keys) == {keys[0]};
    } else {
      var rest := "," + Members(keys[1..]) + "}";
      assert Members(keys) + "}" == Member(keys[0]) + rest;
      assert rest[1..] == Members(keys[1..]) + "}";
      assert rest != "}";
      ParseThePrinted(keys[1..]);
      ParseOneMember(keys[0], rest);
      assert (set k | k in keys) == {keys[0]} + (set k | k in keys[1..]);
    }
  }

  lemma MembersNotEmpty(keys: seq<NodeName>)
    requires keys != []
    ensures |Members(keys)| > 0
  {
  }

  /** Taking a member apart and putting it together. */
  lemma SplitMember(t: string, n: nat, key: NodeName)
    requires 1 + n <= |t| && t[0] == '"' && key == t[1..1 + n]
    requires |t[1 + n..]| >= 5 && t[1 + n..][..4] == "\":{}"
    ensures t == Member(key) + t[1 + n..][4..]
  {
    var rest := t[1 + n..];
    assert rest == rest[..4] + rest[4..];
    assert t == [t[0]] + t[1..1 + n] + rest;
  }

  lemma MembersWithFirst(key: NodeName, others: seq<NodeName>)
    ensures (set k | k in [key] + others) == {key} + set k | k in others
    ensures Members([key] + others) == if others == [] then Member(key) else Member(key) + "," + Members(others)
  {
    assert ([key] + others)[1..] == others;
  }

  /** What is read begins with a member, and ends there or goes on after a comma. */
  lemma {:induction false} ReadFirstMember(t: string) returns (key: NodeName, u: string)
    requires ParseMembers(t).Some?
    ensures |u| < |t|
    ensures u == "" ==> t == Member(key) + "}" && ParseMembers(t) == Some({key})
    ensures u != "" ==>
      t == Member(key) + ("," + u) && ParseMembers(u).Some? && ParseMembers(t).value == {key} + ParseMembers(u).value
  {
    var n := LabelLength(t[1..]);
    key := t[1..1 + n];
    var rest := t[1 + n..];
    SplitMember(t, n, key);
    if rest[4..] == "}" {
      u := "";
    } else {
      u := rest[5..];
      assert rest[4..] == "," + u;
    }
  }

  lemma JoinTexts(a: string, b: string)
    ensures a + ("," + (b + "}")) == a + "," + b + "}"
  {
  }

  lemma {:induction false} ReadMembers(t: string) returns (keys: seq<NodeName>)
    requires ParseMembers(t).Some?
    ensures keys != [] && t == Members(keys) + "}" && ParseMembers(t) == Some(set k | k in keys)
    decreases |t|
  {
    var key, u := ReadFirstMember(t);
    var others: seq<NodeName> := [];
    if u != "" {
      others := ReadMembers(u);
      JoinTexts(Member(key), Members(others));
    }
    keys := [key] + others;
    MembersWithFirst(key, others);
    assert ParseMembers(t).value == set k | k in keys;
  }

  lemma {:induction false} ParsedIsPrinted(t: string) returns (keys: seq<NodeName>)
    requires Parse(t).Some? && t != "null"
    ensures t == Object(keys) && Parse(t) == Some(Names(set k | k in keys))
  {
    keys := [];
    if t != "{}" {
      keys := ReadMembers(t[1..]);
      assert t == "{" + t[1..];
    } else {
      assert (set k | k in keys) == {};
    }
  }

  lemma {:induction false} PrintedIsParsed(keys: seq<NodeName>)
    ensures Parse(Object(keys)) == Some(Names(set k | k in keys)) && Object(keys) != "null"
  {
    if keys == [] {
      assert (set k | k in keys) == {};
    } else {
      var t := Object(keys);
      assert t[1..] == Members(keys) + "}" && t[0] == '{';
      MembersNotEmpty(keys);
      assert |t| > 2;
      ParseThePrinted(keys);
    }
  }

  /** The texts that are read: `null`, and objects with any keys in any order, repeated or not. */
  lemma {:induction false} ParseExactly(t: string, m: NodeSet)
    ensures Parse(t) == Some(m) <==>
      (t == "null" && m == Nil) || exists keys: seq<NodeName> :: t == Object(keys) && m == Names(set k | k in keys)
  {
    if Parse(t) == Some(m) && t != "null" {
      var keys := ParsedIsPrinted(t);
    }
    if keys: seq<NodeName> :| t == Object(keys) && m == Names(set k | k in keys) {
      PrintedIsParsed(keys);
    }
  }

  /** Reading back a printed set, nil or not, gives that very set. */
  lemma {:induction false} RoundTrip(m: NodeSet)
    ensures Parse(Print(m)) == Some(m)
  {
    match m
    case Nil =>
    case Names(s) =>
      PrintedIsParsed(SortedKeys(s));
      assert (set k | k in SortedKeys(s)) == s;
  }

  /** Comparing texts, as the write tests do, is comparing sets. */
  lemma {:induction false} PrintIsCanonical(a: NodeSet, b: NodeSet)
    ensures Print(a) == Print(b) <==> a == b
  {
    RoundTrip(a);
    RoundTrip(b);
  }
}
