/** Bytes and the numbers they stand for. */
module Bytes {

  lemma ByteValue(x: nat)
    requires x < 256
    ensures (x as bv8) as int == x
  {
  }
}

/** The keyed hash that the monitor's map uses: SipHash-2-4 over a byte string,
    read block by block with a fall-through tail. */
module SipHash {
  import opened Bytes

  datatype State = State(v0: bv64, v1: bv64, v2: bv64, v3: bv64)

  function SipRound(s: State): State {
    var v0 := s.v0 + s.v1;
    var v1 := s.v1.RotateLeft(13) ^ v0;
    var v0 := v0.RotateLeft(32);
    var v2 := s.v2 + s.v3;
    var v3 := s.v3.RotateLeft(16) ^ v2;
    var v0 := v0 + v3;
    var v3 := v3.RotateLeft(21) ^ v0;
    var v2 := v2 + v1;
    var v1 := v1.RotateLeft(17) ^ v2;
    State(v0, v1, v2.RotateLeft(32), v3)
  }

  function Compress(s: State, m: bv64): State {
    var s := SipRound(SipRound(s.(v3 := s.v3 ^ m)));
    s.(v0 := s.v0 ^ m)
  }

  function Start(seed0: bv64, seed1: bv64): State {
    State(0x736f6d6570736575 ^ seed0, 0x646f72616e646f6d ^ seed1,
          0x6c7967656e657261 ^ seed0, 0x7465646279746573 ^ seed1)
  }

  function Finish(s: State): bv64 {
    var s := SipRound(SipRound(SipRound(SipRound(s.(v2 := s.v2 ^ 0xff)))));
    s.v0 ^ s.v1 ^ s.v2 ^ s.v3
  }

  /** The rounds on the two words of the test vector. */
  lemma VectorRounds()
    ensures var m0, m1: bv64 := 0x0706050403020100, 0x0f0e0d0c0b0a0908;
      Finish(Compress(Compress(Start(m0, m1), m0), m1)) == 0xa129ca6149be45e5
  {
  }

  // ---- the specification: compress the little-endian words of the padded message ----

  function Or(a: bv64, b: bv64): bv64 {
    a | b
  }

  /** A byte at place `i` of a word, the lowest place first. */
  function Placed(b: bv8, i: nat): bv64
    requires i < 8
  {
    var x := b as bv64;
    match i
    case 0 => x
    case 1 => x << 8
    case 2 => x << 16
    case 3 => x << 24
    case 4 => x << 32
    case 5 => x << 40
    case 6 => x << 48
    case _ => x << 56
  }

  /** The little-endian word of eight bytes. */
  function Word(p: seq<bv8>): bv64
    requires |p| == 8
  {
    Or(Or(Or(Or(Or(Or(Or(Placed(p[7], 7), Placed(p[6], 6)), Placed(p[5], 5)), Placed(p[4], 4)),
       Placed(p[3], 3)), Placed(p[2], 2)), Placed(p[1], 1)), Placed(p[0], 0))
  }

  /** The last base-256 digit of a number. */
  function Digit(n: nat): bv8 {
    (n % 256) as bv8
  }

  /** The eight bytes of a number in memory, lowest first. */
  function LittleEndian(n: nat): (p: seq<bv8>)
    ensures |p| == 8
  {
    [Digit(n), Digit(n / 0x100), Digit(n / 0x1_0000), Digit(n / 0x100_0000), Digit(n / 0x1_0000_0000),
     Digit(n / 0x100_0000_0000), Digit(n / 0x1_0000_0000_0000), Digit(n / 0x100_0000_0000_0000)]
  }

  /** A number as a 64-bit word. */
  function Bits(n: nat): bv64 {
    Word(LittleEndian(n))
  }

  // ---- the numbers that words and bytes stand for ----

  /** A word with one more byte below it. */
  function Joined(x: bv64, b: bv8): bv64 {
    (x << 8) | (b as bv64)
  }

  ghost function WordNumber(x: bv64): int {
    x as int
  }

  ghost function ByteNumber(b: bv8): int {
    b as int
  }

  ghost predicate Narrow(x: bv64) {
    x < 0x100_0000_0000_0000
  }

  lemma JoinedNumber(x: bv64, b: bv8)
    requires Narrow(x)
    ensures WordNumber(Joined(x, b)) == 0x100 * WordNumber(x) + ByteNumber(b)
  {
  }

  lemma SingleByte(b: bv8)
    ensures WordNumber(b as bv64) == ByteNumber(b)
  {
  }

  /** One place up. */
  function Up(x: bv64): bv64 {
    x << 8
  }

  lemma JoinedUp(x: bv64, b: bv8)
    ensures Joined(x, b) == Or(Up(x), Placed(b, 0))
  {
  }

  lemma OrUp(x: bv64, y: bv64)
    ensures Up(Or(x, y)) == Or(Up(x), Up(y))
  {
  }

  lemma PlacedUp(b: bv8, i: nat)
    requires i < 7
    ensures Up(Placed(b, i)) == Placed(b, i + 1)
  {
  }

  /** The bytes from `lo` on, the lowest of them at place `lift`. */
  function Stack(p: seq<bv8>, lo: nat, lift: nat): bv64
    requires lift <= lo < 8 == |p|
    decreases 8 - lo
  {
    if lo == 7 then Placed(p[7], lift) else Or(Stack(p, lo + 1, lift + 1), Placed(p[lo], lift))
  }

  lemma {:induction false} StackUp(p: seq<bv8>, lo: nat, lift: nat)
    requires lift < lo < 8 == |p|
    ensures Up(Stack(p, lo, lift)) == Stack(p, lo, lift + 1)
    decreases 8 - lo
  {
    hide Or, Placed, Up;
    PlacedUp(p[lo], lift);
    if lo < 7 {
      StackUp(p, lo + 1, lift + 1);
      OrUp(Stack(p, lo + 1, lift + 1), Placed(p[lo], lift));
    }
  }

  lemma StackJoined(p: seq<bv8>, lo: nat)
    requires lo < 7 && |p| == 8
    ensures Joined(Stack(p, lo + 1, 0), p[lo]) == Stack(p, lo, 0)
  {
    hide Or, Placed, Up, Joined;
    JoinedUp(Stack(p, lo + 1, 0), p[lo]);
    StackUp(p, lo + 1, 0);
  }

  lemma WordIsStack(p: seq<bv8>)
    requires |p| == 8
    ensures Word(p) == Stack(p, 0, 0)
  {
    hide Or, Placed;
    assert Stack(p, 6, 6) == Or(Placed(p[7], 7), Placed(p[6], 6));
    assert Stack(p, 4, 4) == Or(Or(Stack(p, 6, 6), Placed(p[5], 5)), Placed(p[4], 4));
    assert Stack(p, 2, 2) == Or(Or(Stack(p, 4, 4), Placed(p[3], 3)), Placed(p[2], 2));
    assert Stack(p, 0, 0) == Or(Or(Stack(p, 2, 2), Placed(p[1], 1)), Placed(p[0], 0));
  }

  /** A word is its bytes joined from the highest down. */
  lemma WordJoined(p: seq<bv8>)
    requires |p| == 8
    ensures Word(p) ==
      Joined(Joined(Joined(Joined(Joined(Joined(Joined(p[7] as bv64, p[6]), p[5]), p[4]), p[3]), p[2]), p[1]), p[0])
  {
    hide Word, Stack, Placed, Joined;
    WordIsStack(p);
    TopOfStack(p);
    StackJoined(p, 6);
    StackJoined(p, 5);
    StackJoined(p, 4);
    StackJoined(p, 3);
    StackJoined(p, 2);
    StackJoined(p, 1);
    StackJoined(p, 0);
  }

  lemma TopOfStack(p: seq<bv8>)
    requires |p| == 8
    ensures Stack(p, 7, 0) == p[7] as bv64
  {
  }

  lemma TopNarrow(p1: bv8, p2: bv8, p3: bv8, p4: bv8, p5: bv8, p6: bv8, p7: bv8)
    ensures var x7 := p7 as bv64;
      var x6 := Joined(x7, p6);
      var x5 := Joined(x6, p5);
      var x4 := Joined(x5, p4);
      var x3 := Joined(x4, p3);
      var x2 := Joined(x3, p2);
      Narrow(x7) && Narrow(x6) && Narrow(x5) && Narrow(x4) && Narrow(x3) && Narrow(x2) && Narrow(Joined(x2, p1))
  {
  }

  lemma JoinedPlaces(p0: bv8, p1: bv8, p2: bv8, p3: bv8, p4: bv8, p5: bv8, p6: bv8, p7: bv8)
    ensures
      WordNumber(Joined(Joined(Joined(Joined(Joined(Joined(Joined(p7 as bv64, p6), p5), p4), p3), p2), p1), p0)) ==
      ByteNumber(p0) + 0x100 * ByteNumber(p1) + 0x1_0000 * ByteNumber(p2) + 0x100_0000 * ByteNumber(p3)
      + 0x1_0000_0000 * ByteNumber(p4) + 0x100_0000_0000 * ByteNumber(p5)
      + 0x1_0000_0000_0000 * ByteNumber(p6) + 0x100_0000_0000_0000 * ByteNumber(p7)
  {
    hide Joined, WordNumber, ByteNumber, Narrow;
    TopNarrow(p1, p2, p3, p4, p5, p6, p7);
    SingleByte(p7);
    var x := p7 as bv64;
    JoinedNumber(x, p6);
    x := Joined(x, p6);
    JoinedNumber(x, p5);
    x := Joined(x, p5);
    JoinedNumber(x, p4);
    x := Joined(x, p4);
    JoinedNumber(x, p3);
    x := Joined(x, p3);
    JoinedNumber(x, p2);
    x := Joined(x, p2);
    JoinedNumber(x, p1);
    JoinedNumber(Joined(x, p1), p0);
  }

  lemma WordPlaces(p: seq<bv8>)
    requires |p| == 8
    ensures WordNumber(Word(p)) ==
      ByteNumber(p[0]) + 0x100 * ByteNumber(p[1]) + 0x1_0000 * ByteNumber(p[2]) + 0x100_0000 * ByteNumber(p[3])
      + 0x1_0000_0000 * ByteNumber(p[4]) + 0x100_0000_0000 * ByteNumber(p[5])
      + 0x1_0000_0000_0000 * ByteNumber(p[6]) + 0x100_0000_0000_0000 * ByteNumber(p[7])
  {
    hide Word, Joined, WordNumber, ByteNumber;
    WordJoined(p);
    JoinedPlaces(p[0], p[1], p[2], p[3], p[4], p[5], p[6], p[7]);
  }

  /** A word is the number that its bytes stand for in base 256, lowest first. */
  lemma WordValue(p: seq<bv8>)
    requires |p| == 8
    ensures Word(p) as int ==
      p[0] as int + 0x100 * (p[1] as int) + 0x1_0000 * (p[2] as int) + 0x100_0000 * (p[3] as int)
      + 0x1_0000_0000 * (p[4] as int) + 0x100_0000_0000 * (p[5] as int)
      + 0x1_0000_0000_0000 * (p[6] as int) + 0x100_0000_0000_0000 * (p[7] as int)
  {
    hide Word;
    WordPlaces(p);
  }

  lemma DigitValue(n: nat)
    ensures Digit(n) as int == n % 256
  {
    ByteValue(n % 256);
  }

  lemma Digits(n: nat)
    ensures n % 0x1_0000_0000_0000_0000 ==
      n % 256 + 0x100 * (n / 0x100 % 256) + 0x1_0000 * (n / 0x1_0000 % 256) + 0x100_0000 * (n / 0x100_0000 % 256)
      + 0x1_0000_0000 * (n / 0x1_0000_0000 % 256) + 0x100_0000_0000 * (n / 0x100_0000_0000 % 256)
      + 0x1_0000_0000_0000 * (n / 0x1_0000_0000_0000 % 256) + 0x100_0000_0000_0000 * (n / 0x100_0000_0000_0000 % 256)
  {
    assert n / 0x1_0000 == n / 0x100 / 256;
    assert n / 0x100_0000 == n / 0x1_0000 / 256;
    assert n / 0x1_0000_0000 == n / 0x100_0000 / 256;
    assert n / 0x100_0000_0000 == n / 0x1_0000_0000 / 256;
    assert n / 0x1_0000_0000_0000 == n / 0x100_0000_0000 / 256;
    assert n / 0x100_0000_0000_0000 == n / 0x1_0000_0000_0000 / 256;
    assert n / 0x1_0000_0000_0000_0000 == n / 0x100_0000_0000_0000 / 256;
  }

  /** The bytes of a number, read back as a word, are that number, modulo 2^64. */
  lemma BitsValue(n: nat)
    ensures Bits(n) as int == n % 0x1_0000_0000_0000_0000
  {
    BitsNumber(n);
  }

  lemma BitsNumber(n: nat)
    ensures WordNumber(Bits(n)) == n % 0x1_0000_0000_0000_0000
  {
    hide Word, WordNumber, ByteNumber, Digit;
    WordPlaces(LittleEndian(n));
    Digits(n);
    forall m: nat {
      DigitNumber(m);
    }
  }

  lemma DigitNumber(n: nat)
    ensures ByteNumber(Digit(n)) == n % 256
  {
    DigitValue(n);
  }

  function Zeros(n: nat): (z: seq<bv8>)
    ensures |z| == n
  {
    seq(n, _ => 0)
  }

  /** The message, zeros up to the last byte of a block, and its length modulo 256. */
  function Padded(msg: seq<bv8>): (p: seq<bv8>)
    ensures |p| == 8 * (|msg| / 8 + 1)
  {
    msg + Zeros(7 - |msg| % 8) + [Digit(|msg|)]
  }

  lemma LengthFromParts(m: nat, n: nat)
    requires m / 8 == n / 8 && m % 256 == n % 256
    ensures m == n
  {
    assert m - n == 256 * (m / 256 - n / 256);
    assert -8 < m - n < 8;
  }

  /** Different messages have different paddings. */
  lemma PaddedInjective(a: seq<bv8>, b: seq<bv8>)
    requires Padded(a) == Padded(b)
    ensures a == b
  {
    hide Digit;
    var p, q := Padded(a), Padded(b);
    assert p[|p| - 1] == Digit(|a|) && q[|q| - 1] == Digit(|b|);
    DigitValue(|a|);
    DigitValue(|b|);
    LengthFromParts(|a|, |b|);
    assert a == p[..|a|] && b == q[..|b|];
  }

  /** The state after compressing the first `n` words of a byte string. */
  function Absorbed(s: State, bytes: seq<bv8>, n: nat): State
    requires 8 * n <= |bytes|
  {
    if n == 0 then s else Compress(Absorbed(s, bytes, n - 1), Word(bytes[8 * (n - 1)..8 * n]))
  }

  function SipHash24(msg: seq<bv8>, seed0: bv64, seed1: bv64): bv64
  {
    var p := Padded(msg);
    Finish(Absorbed(Start(seed0, seed1), p, |p| / 8))
  }

  /** The test vector of appendix A of the SipHash paper: the 15 bytes 00 to 0e
      under the key of the 16 bytes 00 to 0f. */
  lemma PaperVector()
    ensures SipHash24([0, 1, 2, 3, 4, 5, 6, 7, 8, 9, 10, 11, 12, 13, 14],
                      Word([0, 1, 2, 3, 4, 5, 6, 7]), Word([8, 9, 10, 11, 12, 13, 14, 15])) == 0xa129ca6149be45e5
  {
    hide Start, Compress, Finish, Word, Padded, Absorbed;
    VectorPadded();
    VectorWords();
    VectorRounds();
    var p := Padded([0, 1, 2, 3, 4, 5, 6, 7, 8, 9, 10, 11, 12, 13, 14]);
    var s := Start(Word([0, 1, 2, 3, 4, 5, 6, 7]), Word([8, 9, 10, 11, 12, 13, 14, 15]));
    AbsorbTwo(s, p);
  }

  lemma VectorPadded()
    ensures var p := Padded([0, 1, 2, 3, 4, 5, 6, 7, 8, 9, 10, 11, 12, 13, 14]);
      p[0..8] == [0, 1, 2, 3, 4, 5, 6, 7] && p[8..16] == [8, 9, 10, 11, 12, 13, 14, 15]
  {
    hide Digit;
    DigitIs(15);
  }

  lemma AbsorbTwo(s: State, p: seq<bv8>)
    requires |p| == 16
    ensures Absorbed(s, p, 2) == Compress(Compress(s, Word(p[0..8])), Word(p[8..16]))
  {
    hide Compress, Word;
    assert Absorbed(s, p, 0) == s;
    AbsorbNext(s, p, 0);
    AbsorbNext(s, p, 1);
  }

  lemma DigitIs(n: nat)
    requires n < 256
    ensures Digit(n) == n as bv8
  {
  }

  lemma VectorWords()
    ensures Word([0, 1, 2, 3, 4, 5, 6, 7]) == 0x0706050403020100
    ensures Word([8, 9, 10, 11, 12, 13, 14, 15]) == 0x0f0e0d0c0b0a0908
  {
  }

  // ---- the tail ----

  /** Byte `i` of the tail at its place, or nothing past its end. */
  function Part(tail: seq<bv8>, i: nat): bv64
    requires i < 8
  {
    if i < |tail| then Placed(tail[i], i) else 0
  }

  /** The length and the tail bytes, joined from the top byte down. */
  function TailWord(tail: seq<bv8>, len: bv64): bv64 {
    Or(Or(Or(Or(Or(Or(Or(len << 56, Part(tail, 6)), Part(tail, 5)), Part(tail, 4)),
       Part(tail, 3)), Part(tail, 2)), Part(tail, 1)), Part(tail, 0))
  }

  /** Shifted to the top, only the lowest byte of a word is left. */
  lemma TopByte(p: seq<bv8>)
    requires |p| == 8
    ensures Word(p) << 56 == Placed(p[0], 7)
  {
  }

  lemma LengthTop(n: nat)
    ensures Bits(n) << 56 == Placed(Digit(n), 7)
  {
    hide Word, Placed, Digit;
    TopByte(LittleEndian(n));
  }

  lemma PlacedZero(i: nat)
    requires i < 8
    ensures Placed(0, i) == 0
  {
  }

  lemma BlockPart(msg: seq<bv8>, i: nat)
    requires i < 7
    ensures var k := |msg| / 8;
      Placed(Padded(msg)[8 * k..8 * k + 8][i], i) == Part(msg[8 * k..], i)
  {
    hide Digit, Placed;
    var k := |msg| / 8;
    var tail := msg[8 * k..];
    var block := Padded(msg)[8 * k..8 * k + 8];
    assert block[i] == if i < |tail| then tail[i] else 0;
    PlacedZero(i);
  }

  lemma LastByte(msg: seq<bv8>)
    ensures var k := |msg| / 8; Padded(msg)[8 * k..8 * k + 8][7] == Digit(|msg|)
  {
    hide Digit;
  }

  /** The last word that the fall-through builds is the last padded word. */
  lemma LastWord(msg: seq<bv8>)
    ensures var k := |msg| / 8;
      Word(Padded(msg)[8 * k..8 * k + 8]) == TailWord(msg[8 * k..], Bits(|msg|))
  {
    hide Bits, Digit, Padded, Or, Placed, Part;
    forall i: nat | i < 7 {
      BlockPart(msg, i);
    }
    LastByte(msg);
    LengthTop(|msg|);
  }

  // ---- the code ----

  /** The full blocks of the message are the first words of its padding. */
  lemma {:induction false} BlocksArePadded(s: State, msg: seq<bv8>, n: nat)
    requires 8 * n <= |msg|
    ensures 8 * n <= |Padded(msg)| && Absorbed(s, Padded(msg), n) == Absorbed(s, msg, n)
  {
    hide Word, Compress, Digit;
    if n > 0 {
      BlocksArePadded(s, msg, n - 1);
      assert Padded(msg)[8 * (n - 1)..8 * n] == msg[8 * (n - 1)..8 * n];
    }
  }

  /** The tail word, built by falling through the cases of the switch. */
  method FallThrough(tail: seq<bv8>, len: bv64) returns (b: bv64)
    requires |tail| < 8
    ensures b == TailWord(tail, len)
  {
    hide Or, Placed;
    forall x {
      OrNothing(x);
    }
    b := len << 56;
    if |tail| >= 7 { b := Or(b, Placed(tail[6], 6)); }
    if |tail| >= 6 { b := Or(b, Placed(tail[5], 5)); }
    if |tail| >= 5 { b := Or(b, Placed(tail[4], 4)); }
    if |tail| >= 4 { b := Or(b, Placed(tail[3], 3)); }
    if |tail| >= 3 { b := Or(b, Placed(tail[2], 2)); }
    if |tail| >= 2 { b := Or(b, Placed(tail[1], 1)); }
    if |tail| >= 1 { b := Or(b, Placed(tail[0], 0)); }
  }

  lemma OrNothing(b: bv64)
    ensures Or(b, 0) == b
  {
  }

  /** The specification, with the full blocks taken from the message itself and
      the last word from its tail. */
  lemma HashOfBlocksAndTail(msg: seq<bv8>, seed0: bv64, seed1: bv64)
    ensures var k := |msg| / 8;
      SipHash24(msg, seed0, seed1) ==
      Finish(Compress(Absorbed(Start(seed0, seed1), msg, k), TailWord(msg[8 * k..], Bits(|msg|))))
  {
    hide Bits, Start, Compress, Finish, Word, TailWord, Padded, Absorbed;
    var k, p, s := |msg| / 8, Padded(msg), Start(seed0, seed1);
    assert |p| / 8 == k + 1;
    LastWord(msg);
    BlocksArePadded(s, msg, k);
    AbsorbNext(s, p, k);
  }

  lemma AbsorbNext(s: State, bytes: seq<bv8>, n: nat)
    requires 8 * n + 8 <= |bytes|
    ensures Absorbed(s, bytes, n + 1) == Compress(Absorbed(s, bytes, n), Word(bytes[8 * n..8 * n + 8]))
  {
    hide Compress, Word;
    assert 8 * (n + 1) == 8 * n + 8;
  }

  lemma EmptyTail()
    ensures TailWord([], Bits(8)) == 0x0800_0000_0000_0000
  {
    hide Bits, Or;
    forall x {
      OrNothing(x);
    }
    LengthTop(8);
    DigitIs(8);
  }

  /** The hash of an eight-byte number absorbs that number and then the length. */
  lemma HashOfNumber(n: nat, seed0: bv64, seed1: bv64)
    ensures SipHash24(LittleEndian(n), seed0, seed1) ==
      Finish(Compress(Compress(Start(seed0, seed1), Bits(n)), 0x0800_0000_0000_0000))
  {
    hide Start, Compress, Finish, Word, TailWord, Padded, SipHash24, Digit;
    var msg, s := LittleEndian(n), Start(seed0, seed1);
    HashOfBlocksAndTail(msg, seed0, seed1);
    assert msg[8..] == [] && msg[0..8] == msg;
    assert Absorbed(s, msg, 0) == s;
    AbsorbNext(s, msg, 0);
    EmptyTail();
  }

  /** For every message, the hash is SipHash-2-4 of the padded message. */
  method Sip64(msg: seq<bv8>, seed0: bv64, seed1: bv64) returns (out: bv64)
    ensures out == SipHash24(msg, seed0, seed1)
  {
    hide Bits, Start, Compress, Finish, Word, TailWord, SipHash24;
    var s := Start(seed0, seed1);
    var end := |msg| - |msg| % 8;
    var pos := 0;
    ghost var n := 0;
    while pos != end
      invariant 0 <= pos <= end && pos == 8 * n
      invariant s == Absorbed(Start(seed0, seed1), msg, n)
      decreases end - pos
    {
      s := Compress(s, Word(msg[pos..pos + 8]));
      pos := pos + 8;
      n := n + 1;
    }
    assert n == |msg| / 8;
    var b := FallThrough(msg[pos..], Bits(|msg|));
    HashOfBlocksAndTail(msg, seed0, seed1);
    s := Compress(s, b);
    out := Finish(s);
  }
}
