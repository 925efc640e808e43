/** UTF-8 as the Unicode Standard defines it (section 3.9), and lossy decoding as the standard library of Rust does it. */
module Utf8 {
  import opened Basics

  const REPLACEMENT: Bytes := [0xEF, 0xBF, 0xBD]

  // ----- the decoder -----

  function At(s: Bytes, i: nat): byte {
    if i < |s| then s[i] else 0
  }

  predicate Continuation(b: byte) {
    0x80 <= b <= 0xBF
  }

  /** The second byte a three-byte sequence may have after its first. */
  predicate SecondOfThree(a: byte, b: byte) {
    if a == 0xE0 then 0xA0 <= b <= 0xBF
    else if a == 0xED then 0x80 <= b <= 0x9F
    else Continuation(b)
  }

  predicate SecondOfFour(a: byte, b: byte) {
    if a == 0xF0 then 0x90 <= b <= 0xBF
    else if a == 0xF4 then 0x80 <= b <= 0x8F
    else Continuation(b)
  }

  /** Length of the next chunk and whether it is a valid character. */
  function NextChunk(s: Bytes): (r: (nat, bool))
    requires s != []
    ensures 1 <= r.0 <= |s|
  {
    var a := s[0];
    if a < 0x80 then (1, true)
    else if 0xC2 <= a <= 0xDF then
      if Continuation(At(s, 1)) then (2, true) else (1, false)
    else if 0xE0 <= a <= 0xEF then
      if !SecondOfThree(a, At(s, 1)) then (1, false)
      else if !Continuation(At(s, 2)) then (2, false)
      else (3, true)
    else if 0xF0 <= a <= 0xF4 then
      if !SecondOfFour(a, At(s, 1)) then (1, false)
      else if !Continuation(At(s, 2)) then (2, false)
      else if !Continuation(At(s, 3)) then (3, false)
      else (4, true)
    else (1, false)
  }

  /** Valid UTF-8 is kept, each invalid stretch becomes U+FFFD. */
  function Lossy(s: Bytes): Bytes
    decreases |s|
  {
    if s == [] then []
    else
      var (n, valid) := NextChunk(s);
      (if valid then s[..n] else REPLACEMENT) + Lossy(s[n..])
  }

  /** Decoding grows a line at most threefold. */
  lemma {:induction false} LossyGrowth(s: Bytes)
    ensures |Lossy(s)| <= 3 * |s|
    decreases |s|
  {
    if s != [] {
      LossyGrowth(s[NextChunk(s).0..]);
    }
  }

  // ----- the encoding, from code points -----

  /** Unicode scalar values: all code points but the surrogates. */
  predicate Scalar(cp: nat) {
    cp < 0xD800 || 0xE000 <= cp <= 0x10FFFF
  }

  function Encode(cp: nat): (r: Bytes)
    requires Scalar(cp)
    ensures 1 <= |r| <= 4
  {
    if cp < 0x80 then [cp]
    else if cp < 0x800 then [0xC0 + cp / 64, 0x80 + cp % 64]
    else if cp < 0x10000 then [0xE0 + cp / 4096, 0x80 + cp / 64 % 64, 0x80 + cp % 64]
    else [0xF0 + cp / 262144, 0x80 + cp / 4096 % 64, 0x80 + cp / 64 % 64, 0x80 + cp % 64]
  }

  predicate Scalars(cps: seq<nat>) {
    forall cp :: cp in cps ==> Scalar(cp)
  }

  function EncodeAll(cps: seq<nat>): Bytes
    requires Scalars(cps)
  {
    if cps == [] then [] else Encode(cps[0]) + EncodeAll(cps[1..])
  }

  /** The encoding of some text. */
  ghost predicate WellFormed(s: Bytes) {
    exists cps :: Scalars(cps) && EncodeAll(cps) == s
  }

  /** The beginning of some character. */
  ghost predicate Begins(s: Bytes) {
    exists cp :: Scalar(cp) && s <= Encode(cp)
  }

  // ----- the decoder recognises exactly the encodings -----

  function Two(a: byte, b: byte): int {
    (a - 0xC0) * 64 + (b - 0x80)
  }

  function Three(a: byte, b: byte, c: byte): int {
    (a - 0xE0) * 4096 + (b - 0x80) * 64 + (c - 0x80)
  }

  function Four(a: byte, b: byte, c: byte, d: byte): int {
    (a - 0xF0) * 262144 + (b - 0x80) * 4096 + (c - 0x80) * 64 + (d - 0x80)
  }

  lemma TwoIs(a: byte, b: byte)
    requires 0xC2 <= a <= 0xDF && Continuation(b)
    ensures var cp := Two(a, b); 0x80 <= cp < 0x800 && Encode(cp) == [a, b]
  {
    var cp := Two(a, b);
    assert cp / 64 == a - 0xC0 && cp % 64 == b - 0x80;
  }

  lemma ThreeIs(a: byte, b: byte, c: byte)
    requires 0xE0 <= a <= 0xEF && SecondOfThree(a, b) && Continuation(c)
    ensures var cp := Three(a, b, c); 0x800 <= cp < 0x10000 && Scalar(cp) && Encode(cp) == [a, b, c]
  {
    var cp := Three(a, b, c);
    assert cp / 64 == (a - 0xE0) * 64 + (b - 0x80) && cp % 64 == c - 0x80;
    assert cp / 4096 == a - 0xE0;
    assert cp / 64 % 64 == b - 0x80;
  }

  lemma FourIs(a: byte, b: byte, c: byte, d: byte)
    requires 0xF0 <= a <= 0xF4 && SecondOfFour(a, b) && Continuation(c) && Continuation(d)
    ensures var cp := Four(a, b, c, d); 0x10000 <= cp <= 0x10FFFF && Encode(cp) == [a, b, c, d]
  {
    var cp := Four(a, b, c, d);
    assert cp / 64 == (a - 0xF0) * 4096 + (b - 0x80) * 64 + (c - 0x80) && cp % 64 == d - 0x80;
    assert cp / 4096 == (a - 0xF0) * 64 + (b - 0x80);
    assert cp / 262144 == a - 0xF0;
    assert cp / 64 % 64 == c - 0x80;
    assert cp / 4096 % 64 == b - 0x80;
  }

  /** The bytes of an encoding pass the decoder's checks. */
  lemma EncodePasses(cp: nat)
    requires Scalar(cp)
    ensures var e := Encode(cp);
            && (|e| == 1 ==> e[0] < 0x80)
            && (|e| == 2 ==> 0xC2 <= e[0] <= 0xDF && Continuation(e[1]))
            && (|e| == 3 ==> 0xE0 <= e[0] <= 0xEF && SecondOfThree(e[0], e[1]) && Continuation(e[2]))
            && (|e| == 4 ==> 0xF0 <= e[0] <= 0xF4 && SecondOfFour(e[0], e[1]) && Continuation(e[2]) && Continuation(e[3]))
  {
  }

  /** A character at the head is taken whole. */
  lemma EncodedIsValid(cp: nat, s: Bytes)
    requires Scalar(cp)
    ensures Encode(cp) <= s ==> NextChunk(s) == (|Encode(cp)|, true)
  {
    EncodePasses(cp);
    assert Encode(cp) <= s ==> forall i :: 0 <= i < |Encode(cp)| ==> s[i] == Encode(cp)[i];
  }

  /** What is taken as valid is a character. */
  lemma ValidIsEncoded(s: Bytes) returns (cp: nat)
    requires s != [] && NextChunk(s).1
    ensures Scalar(cp) && Encode(cp) == s[..NextChunk(s).0]
  {
    var n := NextChunk(s).0;
    if n == 1 {
      cp := s[0];
    } else if n == 2 {
      TwoIs(s[0], s[1]);
      cp := Two(s[0], s[1]);
    } else if n == 3 {
      ThreeIs(s[0], s[1], s[2]);
      cp := Three(s[0], s[1], s[2]);
    } else {
      FourIs(s[0], s[1], s[2], s[3]);
      cp := Four(s[0], s[1], s[2], s[3]);
    }
  }

  /** What is replaced does not begin with a character. It is the longest beginning of one, or a single byte when
      there is none: a maximal subpart, as the Unicode Standard recommends. */
  lemma InvalidIsMaximal(s: Bytes)
    requires s != [] && !NextChunk(s).1
    ensures var n := NextChunk(s).0;
            && (n == 1 || Begins(s[..n]))
            && (forall m :: n < m <= |s| ==> !Begins(s[..m]))
            && (forall cp :: Scalar(cp) ==> !(Encode(cp) <= s))
  {
    var n := NextChunk(s).0;
    forall cp | Scalar(cp)
      ensures !(Encode(cp) <= s)
      ensures forall m :: n < m <= |s| ==> !(s[..m] <= Encode(cp))
    {
      NotEncoded(s, cp);
    }
    if n > 1 {
      PartBegins(s);
    }
  }

  lemma NotEncoded(s: Bytes, cp: nat)
    requires s != [] && !NextChunk(s).1 && Scalar(cp)
    ensures !(Encode(cp) <= s)
    ensures forall m :: NextChunk(s).0 < m <= |s| ==> !(s[..m] <= Encode(cp))
  {
    var e := Encode(cp);
    EncodedIsValid(cp, s);
    EncodePasses(cp);
    forall m | NextChunk(s).0 < m <= |s|
      ensures !(s[..m] <= e)
    {
      if s[..m] <= e {
        assert forall i :: 0 <= i < m ==> s[i] == e[i];
      }
    }
  }

  lemma PartBegins(s: Bytes)
    requires s != [] && !NextChunk(s).1 && NextChunk(s).0 > 1
    ensures Begins(s[..NextChunk(s).0])
  {
    var n := NextChunk(s).0;
    var cp: nat;
    if s[0] <= 0xEF {
      ThreeIs(s[0], s[1], 0x80);
      cp := Three(s[0], s[1], 0x80);
    } else if n == 2 {
      FourIs(s[0], s[1], 0x80, 0x80);
      cp := Four(s[0], s[1], 0x80, 0x80);
    } else {
      FourIs(s[0], s[1], s[2], 0x80);
      cp := Four(s[0], s[1], s[2], 0x80);
    }
    assert s[..n] <= Encode(cp);
  }

  // ----- what decoding does -----

  lemma {:induction false} LossyKeeps(cps: seq<nat>)
    requires Scalars(cps)
    ensures Lossy(EncodeAll(cps)) == EncodeAll(cps)
  {
    if cps != [] {
      var e, rest := Encode(cps[0]), EncodeAll(cps[1..]);
      LossyKeeps(cps[1..]);
      EncodedIsValid(cps[0], e + rest);
      assert (e + rest)[..|e|] == e && (e + rest)[|e|..] == rest;
    }
  }

  lemma {:induction false} LossyIsWellFormed(s: Bytes) returns (cps: seq<nat>)
    ensures Scalars(cps) && EncodeAll(cps) == Lossy(s)
    decreases |s|
  {
    if s == [] {
      cps := [];
    } else {
      var rest := LossyIsWellFormed(s[NextChunk(s).0..]);
      var cp: nat := 0xFFFD;
      if NextChunk(s).1 {
        cp := ValidIsEncoded(s);
      } else {
        assert Encode(0xFFFD) == REPLACEMENT;
      }
      cps := [cp] + rest;
      assert cps[1..] == rest;
    }
  }

  /** Decoding always yields well-formed text, and leaves its input alone exactly when that is well-formed already. */
  lemma LossyMeaning(s: Bytes)
    ensures WellFormed(Lossy(s))
    ensures Lossy(s) == s <==> WellFormed(s)
  {
    var cps := LossyIsWellFormed(s);
    if cps' :| Scalars(cps') && EncodeAll(cps') == s {
      LossyKeeps(cps');
    }
  }

  /** Decoding goes chunk by chunk: a character is kept, and each maximal invalid part becomes one U+FFFD. */
  lemma LossyOfChunk(s: Bytes)
    requires s != []
    ensures var n := NextChunk(s).0;
            && (NextChunk(s).1 <==> exists cp :: Scalar(cp) && Encode(cp) <= s)
            && Lossy(s) == (if NextChunk(s).1 then s[..n] else [0xEF, 0xBF, 0xBD]) + Lossy(s[n..])
  {
    if NextChunk(s).1 {
      var cp := ValidIsEncoded(s);
      assert Encode(cp) <= s;
    } else {
      InvalidIsMaximal(s);
    }
  }
}
