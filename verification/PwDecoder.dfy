/**
 The password obfuscator: cyclic XOR with a key under URL-safe base64 (sections 4 and 5 of RFC 4648).
 Python 2 strings are byte strings.
 */
module PwDecoder {
  import opened Wrappers

  type Byte = bv8
  type Bytes = seq<Byte>

  const PAD: Byte := 61

  // ---------- cyclic XOR ----------

  /** Where item i of a list of n items repeated for ever is found. */
  function Position(i: nat, n: nat): (p: nat)
    requires n > 0
    ensures p < n
  {
    if i < n then i else Position(i - n, n)
  }

  /** The i-th byte of a key repeated for ever. */
  function Cycled(key: Bytes, i: nat): Byte
    requires key != []
  {
    key[Position(i, |key|)]
  }

  lemma {:induction false} PositionIsModulo(i: nat, n: nat)
    requires n > 0
    ensures Position(i, n) == i % n
  {
    if i < n {
      RemainderIs(i, n, 0, i);
    } else {
      PositionIsModulo(i - n, n);
      var q, r := (i - n) / n, (i - n) % n;
      assert (q + 1) * n == q * n + n;
      RemainderIs(i, n, q + 1, r);
    }
  }

  lemma CycledIsModulo(key: Bytes, i: nat)
    requires key != []
    ensures Cycled(key, i) == key[i % |key|]
  {
    PositionIsModulo(i, |key|);
  }

  lemma RemainderIs(a: nat, n: nat, q: nat, r: nat)
    requires n > 0 && r < n && a == q * n + r
    ensures a % n == r
  {
    var d, rest := a / n - q, a % n;
    assert (d + q) * n == d * n + q * n;
    assert d * n == r - rest;
    SmallMultiple(d, n);
  }

  lemma SmallMultiple(d: int, n: int)
    requires 0 < n && -n < d * n < n
    ensures d == 0
  {
  }

  lemma {:induction false} NextPosition(i: nat, n: nat)
    requires n > 0
    ensures Position(i + 1, n) == if Position(i, n) + 1 == n then 0 else Position(i, n) + 1
  {
    if i >= n {
      NextPosition(i - n, n);
    }
  }

  function Xor(salt: Bytes, text: Bytes): (r: Bytes)
    requires salt != []
    ensures |r| == |text| && forall i | 0 <= i < |text| :: r[i] == text[i] ^ Cycled(salt, i)
  {
    seq(|text|, i requires 0 <= i < |text| => text[i] ^ Cycled(salt, i))
  }

  /** Zips the text with the key repeated for ever; without a key there is nothing to zip with. */
  method XorLoop(salt: Bytes, text: Bytes) returns (r: Bytes)
    ensures r == if salt == [] then [] else Xor(salt, text)
  {
    r := [];
    if salt == [] {
      return;
    }
    var next := 0;
    for i := 0 to |text|
      invariant |r| == i && next == Position(i, |salt|)
      invariant forall k | 0 <= k < i :: r[k] == text[k] ^ Cycled(salt, k)
    {
      r := r + [text[i] ^ salt[next]];
      NextPosition(i, |salt|);
      next := if next + 1 == |salt| then 0 else next + 1;
    }
  }

  lemma XorTwice(salt: Bytes, text: Bytes)
    requires salt != []
    ensures Xor(salt, Xor(salt, text)) == text
  {
    var once := Xor(salt, text);
    forall i | 0 <= i < |text| ensures Xor(salt, once)[i] == text[i] {
      CancelXor(text[i], Cycled(salt, i));
    }
  }

  lemma CancelXor(a: Byte, b: Byte)
    ensures (a ^ b) ^ b == a
  {
  }

  lemma CancelLeft(x: Byte, c: Byte)
    ensures x ^ (x ^ c) == c
  {
  }

  lemma CancelBack(a: Byte, b: Byte)
    ensures (a ^ b) ^ a == b
  {
  }

  // ---------- the URL-safe alphabet ----------

  /** The character for six bits, in the low bits of a byte. */
  function CharOf(i: Byte): Byte
    requires i < 64
  {
    if i < 26 then i + 65         // A-Z
    else if i < 52 then i + 71    // a-z
    else if i < 62 then i - 4     // 0-9
    else if i == 62 then 45       // -
    else 95                       // _
  }

  predicate InAlphabet(c: Byte) {
    65 <= c <= 90 || 97 <= c <= 122 || 48 <= c <= 57 || c == 45 || c == 95
  }

  function BitsOf(c: Byte): Byte
    requires InAlphabet(c)
  {
    if c == 95 then 63
    else if c == 45 then 62
    else if c <= 57 then c + 4
    else if c <= 90 then c - 65
    else c - 71
  }

  lemma AlphabetRoundTrip(i: Byte)
    requires i < 64
    ensures InAlphabet(CharOf(i)) && BitsOf(CharOf(i)) == i && CharOf(i) != PAD
  {
  }

  // ---------- groups of three bytes ----------

  function First(a: Byte): (i: Byte) ensures i < 64 { a >> 2 }
  function Second(a: Byte, b: Byte): (i: Byte) ensures i < 64 { ((a & 3) << 4) | (b >> 4) }
  function Third(b: Byte, c: Byte): (i: Byte) ensures i < 64 { ((b & 15) << 2) | (c >> 6) }
  function Fourth(c: Byte): (i: Byte) ensures i < 64 { c & 63 }

  function Byte1(i: Byte, j: Byte): Byte { (i << 2) | (j >> 4) }
  function Byte2(j: Byte, k: Byte): Byte { ((j & 15) << 4) | (k >> 2) }
  function Byte3(k: Byte, l: Byte): Byte { ((k & 3) << 6) | l }

  lemma GroupRoundTrip(a: Byte, b: Byte, c: Byte)
    ensures Byte1(First(a), Second(a, b)) == a
    ensures Byte2(Second(a, b), Third(b, c)) == b
    ensures Byte3(Third(b, c), Fourth(c)) == c
  {
  }

  /** Four characters carry the same 24 bits as three bytes, most significant first. */
  lemma GroupIsTheSameNumber(a: Byte, b: Byte, c: Byte)
    ensures (First(a) as bv24 << 18) | (Second(a, b) as bv24 << 12) | (Third(b, c) as bv24 << 6) | (Fourth(c) as bv24)
         == (a as bv24 << 16) | (b as bv24 << 8) | (c as bv24)
  {
  }

  /** The bits a short last group leaves over are zero. */
  lemma SpareBitsAreZero(a: Byte, b: Byte)
    ensures Second(a, 0) & 15 == 0
    ensures Third(b, 0) & 3 == 0
  {
  }

  function Encode64(p: Bytes): Bytes {
    if p == [] then []
    else if |p| == 1 then [CharOf(First(p[0])), CharOf(Second(p[0], 0)), PAD, PAD]
    else if |p| == 2 then [CharOf(First(p[0])), CharOf(Second(p[0], p[1])), CharOf(Third(p[1], 0)), PAD]
    else
      [CharOf(First(p[0])), CharOf(Second(p[0], p[1])), CharOf(Third(p[1], p[2])), CharOf(Fourth(p[2]))]
      + Encode64(p[3..])
  }

  /** Strict decoding: whole groups, padding only at the end, spare bits zero; anything else is an error. */
  function Decode64(t: Bytes): Option<Bytes> {
    if t == [] then Some([])
    else if |t| < 4 || !InAlphabet(t[0]) || !InAlphabet(t[1]) then None
    else
      var i, j := BitsOf(t[0]), BitsOf(t[1]);
      if t[2] == PAD then
        if |t| == 4 && t[3] == PAD && j & 15 == 0 then Some([Byte1(i, j)]) else None
      else if !InAlphabet(t[2]) then None
      else
        var k := BitsOf(t[2]);
        if t[3] == PAD then
          if |t| == 4 && k & 3 == 0 then Some([Byte1(i, j), Byte2(j, k)]) else None
        else if !InAlphabet(t[3]) then None
        else
          match Decode64(t[4..])
          case None => None
          case Some(rest) => Some([Byte1(i, j), Byte2(j, k), Byte3(k, BitsOf(t[3]))] + rest)
  }

  lemma {:induction false} Base64RoundTrip(p: Bytes)
    ensures Decode64(Encode64(p)) == Some(p)
  {
    if p != [] {
      var b, c := if |p| > 1 then p[1] else 0, if |p| > 2 then p[2] else 0;
      GroupRoundTrip(p[0], b, c);
      SpareBitsAreZero(p[0], b);
      AlphabetRoundTrip(First(p[0]));
      AlphabetRoundTrip(Second(p[0], b));
      AlphabetRoundTrip(Third(b, c));
      AlphabetRoundTrip(Fourth(c));
      if |p| > 2 {
        var t := Encode64(p);
        assert t[4..] == Encode64(p[3..]);
        Base64RoundTrip(p[3..]);
        assert p == [p[0], p[1], p[2]] + p[3..];
      } else if |p| == 2 {
        assert p == [p[0], p[1]];
      } else {
        assert p == [p[0]];
      }
    }
  }

  lemma CharRoundTrip(c: Byte)
    requires InAlphabet(c)
    ensures BitsOf(c) < 64 && CharOf(BitsOf(c)) == c && c != PAD
  {
  }

  lemma SextetsRoundTrip(i: Byte, j: Byte, k: Byte, l: Byte)
    requires i < 64 && j < 64 && k < 64 && l < 64
    ensures First(Byte1(i, j)) == i && Second(Byte1(i, j), Byte2(j, k)) == j
    ensures Third(Byte2(j, k), Byte3(k, l)) == k && Fourth(Byte3(k, l)) == l
    ensures j & 15 == 0 ==> Second(Byte1(i, j), 0) == j
    ensures k & 3 == 0 ==> Third(Byte2(j, k), 0) == k
  {
  }

  /** The texts that decode are the encodings. */
  lemma {:induction false} OnlyEncodingsDecode(t: Bytes)
    ensures Decode64(t).Some? ==> t == Encode64(Decode64(t).value)
  {
    if t != [] && Decode64(t).Some? {
      var k, l: Byte := if t[2] == PAD then 0 else BitsOf(t[2]), if t[3] == PAD then 0 else BitsOf(t[3]);
      CharRoundTrip(t[0]);
      CharRoundTrip(t[1]);
      if t[2] != PAD { CharRoundTrip(t[2]); }
      if t[3] != PAD { CharRoundTrip(t[3]); }
      SextetsRoundTrip(BitsOf(t[0]), BitsOf(t[1]), k, l);
      if t[3] != PAD {
        OnlyEncodingsDecode(t[4..]);
        var p := Decode64(t).value;
        assert p[3..] == Decode64(t[4..]).value;
        assert t == [t[0], t[1], t[2], t[3]] + t[4..];
      }
    }
  }

  lemma {:induction false} Base64Shape(p: Bytes)
    ensures |Encode64(p)| == 4 * ((|p| + 2) / 3)
    ensures forall i | 0 <= i < |Encode64(p)| ::
      InAlphabet(Encode64(p)[i]) || (Encode64(p)[i] == PAD && i >= |Encode64(p)| - 2)
  {
    if p != [] {
      var b, c := if |p| > 1 then p[1] else 0, if |p| > 2 then p[2] else 0;
      AlphabetRoundTrip(First(p[0]));
      AlphabetRoundTrip(Second(p[0], b));
      AlphabetRoundTrip(Third(b, c));
      AlphabetRoundTrip(Fourth(c));
      if |p| > 2 {
        Base64Shape(p[3..]);
      }
    }
  }

  /** Test vectors of section 10 of RFC 4648, and one that reaches the two URL-safe characters. */
  lemma TestVectors()
    ensures Encode64([102]) == [90, 103, PAD, PAD]                                    // f       Zg==
    ensures Encode64([102, 111]) == [90, 109, 56, PAD]                                // fo      Zm8=
    ensures Encode64([102, 111, 111, 98, 97, 114]) == [90, 109, 57, 118, 89, 109, 70, 121]  // foobar  Zm9vYmFy
    ensures Encode64([251, 255]) == [45, 95, 56, PAD]                                 // \xfb\xff  -_8=
  {
    assert [102, 111, 111, 98, 97, 114][3..] == [98, 97, 114];
  }

  // ---------- the two entry points ----------

  /** None stands for Python's None, which both functions return for an empty argument. */
  function PwEncode(password: Bytes, key: Bytes): Option<Bytes> {
    if password != [] && key != [] then Some(Encode64(Xor(key, password))) else None
  }

  datatype Decoded = NoArgument | BadText | Plain(password: Bytes)

  function PwDecode(text: Bytes, key: Bytes): Decoded {
    if text != [] && key != [] then
      match Decode64(text)
      case None => BadText
      case Some(x) => Plain(Xor(key, x))
    else NoArgument
  }

  /** Decoding with the same key undoes encoding, and nothing else does: an encoding fails only for an empty
      argument. */
  lemma PasswordRoundTrip(password: Bytes, key: Bytes)
    ensures PwEncode(password, key).None? <==> password == [] || key == []
    ensures PwEncode(password, key).Some? ==>
      var text := PwEncode(password, key).value;
      && PwDecode(text, key) == Plain(password)
      && |text| == 4 * ((|password| + 2) / 3)
      && forall i | 0 <= i < |text| :: InAlphabet(text[i]) || (text[i] == PAD && i >= |text| - 2)
  {
    if password != [] && key != [] {
      var x := Xor(key, password);
      Base64RoundTrip(x);
      Base64Shape(x);
      XorTwice(key, password);
    }
  }

  predicate AgreeUpTo(key: Bytes, other: Bytes, n: nat)
    requires key != [] && other != []
  {
    forall i | 0 <= i < n :: Cycled(key, i) == Cycled(other, i)
  }

  lemma AgreedByte(key: Bytes, other: Bytes, p: Bytes, i: nat)
    requires key != [] && other != [] && i < |p| && Cycled(key, i) == Cycled(other, i)
    ensures Xor(other, Xor(key, p))[i] == p[i]
  {
    CancelXor(p[i], Cycled(key, i));
  }

  lemma ReturnedByte(key: Bytes, other: Bytes, p: Bytes, i: nat)
    requires key != [] && other != [] && i < |p| && Xor(other, Xor(key, p))[i] == p[i]
    ensures Cycled(key, i) == Cycled(other, i)
  {
    var a, b, c := p[i], Cycled(key, i), Cycled(other, i);
    CancelLeft(a ^ b, c);
    CancelBack(a, b);
  }

  lemma XorWithTwoKeys(key: Bytes, other: Bytes, p: Bytes)
    requires key != [] && other != []
    ensures Xor(other, Xor(key, p)) == p <==> AgreeUpTo(key, other, |p|)
  {
    var y := Xor(other, Xor(key, p));
    if AgreeUpTo(key, other, |p|) {
      forall i | 0 <= i < |p| ensures y[i] == p[i] { AgreedByte(key, other, p, i); }
    }
    if y == p {
      forall i | 0 <= i < |p| ensures Cycled(key, i) == Cycled(other, i) { ReturnedByte(key, other, p, i); }
    }
  }

  /** Another key gives the password back exactly when, repeated over its length, it is the same key. */
  lemma WrongKeysShow(password: Bytes, key: Bytes, other: Bytes)
    requires password != [] && key != [] && other != []
    ensures PwDecode(PwEncode(password, key).value, other) == Plain(password) <==> AgreeUpTo(key, other, |password|)
  {
    Base64RoundTrip(Xor(key, password));
    Base64Shape(Xor(key, password));
    XorWithTwoKeys(key, other, password);
  }

  /** x is p with the key laid over it byte by byte, from its start again at its end. */
  ghost predicate Covers(key: Bytes, p: Bytes, x: Bytes)
    requires key != []
  {
    |x| == |p| && forall i | 0 <= i < |p| :: x[i] == p[i] ^ key[i % |key|]
  }

  lemma XorCovers(key: Bytes, p: Bytes)
    requires key != []
    ensures Covers(key, p, Xor(key, p))
  {
    forall i | 0 <= i < |p| ensures Xor(key, p)[i] == p[i] ^ key[i % |key|] {
      CycledIsModulo(key, i);
    }
  }

  /** The program's entry points, with the loop. */
  method Encode(password: Bytes, key: Bytes) returns (r: Option<Bytes>)
    ensures r == PwEncode(password, key)
    ensures password == [] || key == [] ==> r.None?
    ensures password != [] && key != [] ==> exists x :: Covers(key, password, x) && r == Some(Encode64(x))
  {
    if password == [] || key == [] {
      return None;
    }
    XorCovers(key, password);
    var x := XorLoop(key, password);
    return Some(Encode64(x));
  }

  method Decode(text: Bytes, key: Bytes) returns (r: Decoded)
    ensures r == PwDecode(text, key)
    ensures r.NoArgument? <==> text == [] || key == []
    ensures r.BadText? <==> text != [] && key != [] && forall x :: Encode64(x) != text
    ensures r.Plain? ==> exists x :: Encode64(x) == text && Covers(key, x, r.password)
  {
    if text == [] || key == [] {
      return NoArgument;
    }
    var x := Decode64(text);
    forall p ensures x.None? ==> Encode64(p) != text {
      Base64RoundTrip(p);
    }
    if x.None? {
      return BadText;
    }
    OnlyEncodingsDecode(text);
    XorCovers(key, x.value);
    var p := XorLoop(key, x.value);
    return Plain(p);
  }
}
