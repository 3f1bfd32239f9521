/** What the Modbus RTU checksum is: a remainder of polynomials over GF(2), by x^16 + x^15 + x^2 + 1, with a preset of
    ones (include/aero/drivers/modbus_rtu_driver.hpp). */
module CrcPolynomial {
  import opened ModbusCrc

  /** A polynomial over GF(2): the exponents of its terms. */
  type Poly = set<nat>

  /** Terms that occur in both cancel. */
  function Add(p: Poly, q: Poly): (r: Poly)
    ensures forall e :: e in r <==> (e in p) != (e in q)
  {
    (p - q) + (q - p)
  }

  /** Times x^k. */
  function Shift(p: Poly, k: nat): (r: Poly)
    ensures forall e: nat {:trigger e in r} :: e in r <==> e >= k && e - k in p
  {
    var r := set e | e in p :: e + k;
    assert forall d :: d in p ==> d + k in r;
    r
  }

  const GENERATOR: Poly := {16, 15, 2, 0}

  /** The generator times x^k, added up over `ks`: every multiple of the generator is such a sum. */
  function Multiple(ks: seq<nat>): Poly {
    if ks == [] then {} else Add(Multiple(ks[..|ks| - 1]), Shift(GENERATOR, ks[|ks| - 1]))
  }

  ghost predicate Congruent(p: Poly, q: Poly) {
    exists ks :: Add(p, q) == Multiple(ks)
  }

  /** `r` is what division of `p` by the generator leaves. */
  ghost predicate Remainder(p: Poly, r: Poly) {
    Congruent(p, r) && forall e :: e in r ==> e < 16
  }

  // ----- bits as polynomials -----

  /** The coefficient of x^e, the first bit being the highest power. */
  predicate Coefficient(bits: seq<bool>, e: nat) {
    e < |bits| && bits[|bits| - 1 - e]
  }

  function PolyOf(bits: seq<bool>): (r: Poly)
    ensures forall e: nat :: e in r <==> Coefficient(bits, e)
  {
    set e: nat | e < |bits| && Coefficient(bits, e)
  }

  predicate Low(c: bv16) {
    c & 1 == 1
  }

  function Half(c: bv16): bv16 {
    c >> 1
  }

  predicate Bit(c: bv16, i: nat)
    decreases i
  {
    if i == 0 then Low(c) else Bit(Half(c), i - 1)
  }

  /** A byte's bits in the order in which they go over the line: lowest first. */
  function ByteBits(b: Byte): (r: seq<bool>)
    ensures |r| == 8
  {
    WordBits(b as bv16)[..8]
  }

  function WordBits(c: bv16): (r: seq<bool>)
    ensures |r| == 16 && forall i :: 0 <= i < 16 ==> r[i] == Bit(c, i)
  {
    seq(16, i requires 0 <= i < 16 => Bit(c, i))
  }

  function MessageBits(data: seq<Byte>): (r: seq<bool>)
    ensures |r| == 8 * |data|
  {
    if data == [] then [] else MessageBits(data[..|data| - 1]) + ByteBits(data[|data| - 1])
  }

  /** Sixteen zeros follow the message, and then the first sixteen bits are complemented. */
  function Dividend(bits: seq<bool>): (r: seq<bool>)
    ensures |r| == |bits| + 16
  {
    seq(|bits| + 16, i requires 0 <= i < |bits| + 16 => (i < |bits| && bits[i]) != (i < 16))
  }

  // ----- congruence -----

  lemma {:induction false} AddLaws(p: Poly, q: Poly, r: Poly)
    ensures Add(p, q) == Add(q, p) && Add(p, p) == {} && Add(p, {}) == p
    ensures Add(Add(p, q), r) == Add(p, Add(q, r))
    ensures Add(Add(p, r), Add(q, r)) == Add(p, q)
  {
  }

  lemma {:induction false} ShiftLaws(p: Poly, q: Poly, j: nat, k: nat)
    ensures Shift(Add(p, q), k) == Add(Shift(p, k), Shift(q, k))
    ensures Shift(Shift(p, j), k) == Shift(p, j + k) && Shift(p, 0) == p && Shift({}, k) == {}
  {
  }

  lemma {:induction false} MultipleLast(ks: seq<nat>, k: nat)
    ensures Multiple(ks + [k]) == Add(Multiple(ks), Shift(GENERATOR, k))
  {
    assert (ks + [k])[..|ks|] == ks;
  }

  lemma {:induction false} MultipleSum(js: seq<nat>, ks: seq<nat>)
    ensures Add(Multiple(js), Multiple(ks)) == Multiple(js + ks)
    decreases |ks|
  {
    if ks == [] {
      assert js + ks == js;
      AddLaws(Multiple(js), {}, {});
    } else {
      var n := |ks| - 1;
      MultipleSum(js, ks[..n]);
      assert js + ks == js + ks[..n] + [ks[n]];
      MultipleLast(js + ks[..n], ks[n]);
      AddLaws(Multiple(js), Multiple(ks[..n]), Shift(GENERATOR, ks[n]));
    }
  }

  lemma {:induction false} MultipleShift(ks: seq<nat>, k: nat) returns (js: seq<nat>)
    ensures Shift(Multiple(ks), k) == Multiple(js)
    decreases |ks|
  {
    if ks == [] {
      js := [];
      ShiftLaws({}, {}, 0, k);
    } else {
      var n := |ks| - 1;
      var front := MultipleShift(ks[..n], k);
      js := front + [ks[n] + k];
      MultipleLast(front, ks[n] + k);
      ShiftLaws(Multiple(ks[..n]), Shift(GENERATOR, ks[n]), 0, k);
      ShiftLaws(GENERATOR, {}, ks[n], k);
    }
  }

  lemma {:induction false} SamePoly(p: Poly)
    ensures Congruent(p, p)
  {
    AddLaws(p, p, p);
    assert Add(p, p) == Multiple([]);
  }

  lemma {:induction false} Chain(p: Poly, q: Poly, r: Poly)
    requires Congruent(p, q) && Congruent(q, r)
    ensures Congruent(p, r)
  {
    hide Add, Multiple;
    var js :| Add(p, q) == Multiple(js);
    var ks :| Add(q, r) == Multiple(ks);
    MultipleSum(js, ks);
    AddLaws(p, r, q);
    AddLaws(q, r, q);
    assert Add(p, r) == Multiple(js + ks);
  }

  lemma {:induction false} CongruentSym(p: Poly, q: Poly)
    ensures Congruent(p, q) ==> Congruent(q, p)
  {
    AddLaws(p, q, q);
  }

  lemma {:induction false} CongruentAdd(p: Poly, q: Poly, r: Poly)
    requires Congruent(p, q)
    ensures Congruent(Add(p, r), Add(q, r))
  {
    AddLaws(p, q, r);
  }

  lemma {:induction false} CongruentShift(p: Poly, q: Poly, k: nat)
    requires Congruent(p, q)
    ensures Congruent(Shift(p, k), Shift(q, k))
  {
    hide Add, Multiple, Shift;
    var ks :| Add(p, q) == Multiple(ks);
    ShiftLaws(p, q, 0, k);
    var js := MultipleShift(ks, k);
  }

  // ----- remainders are unique -----

  /** The powers of x that occur an odd number of times in `ks`. */
  function Odd(ks: seq<nat>): Poly {
    if ks == [] then {} else Add(Odd(ks[..|ks| - 1]), {ks[|ks| - 1]})
  }

  predicate Term(q: Poly, e: int) {
    e >= 0 && e in q
  }

  lemma {:induction false} MultipleTerms(ks: seq<nat>, e: nat)
    ensures e in Multiple(ks) <==>
            (Term(Odd(ks), e) != Term(Odd(ks), e - 2)) != (Term(Odd(ks), e - 15) != Term(Odd(ks), e - 16))
    decreases |ks|
  {
    if ks != [] {
      var n := |ks| - 1;
      MultipleTerms(ks[..n], e);
      assert e in Shift(GENERATOR, ks[n]) <==> e - ks[n] in {16, 15, 2, 0};
    }
  }

  lemma {:induction false} Highest(p: Poly) returns (m: nat)
    requires p != {}
    ensures m in p && forall e :: e in p ==> e <= m
    decreases |p|
  {
    m :| m in p;
    var rest := p - {m};
    if rest != {} {
      var k := Highest(rest);
      forall e | e in p ensures e <= m || e <= k { assert e == m || e in rest; }
      if k > m { m := k; }
    } else {
      forall e | e in p ensures e == m { assert e !in rest; }
    }
  }

  lemma {:induction false} HighestTerm(ks: seq<nat>, m: nat)
    requires m in Odd(ks) && forall e :: e in Odd(ks) ==> e <= m
    ensures m + 16 in Multiple(ks)
  {
    MultipleTerms(ks, m + 16);
  }

  /** A multiple of the generator with no term of degree 16 or more is zero. */
  lemma {:induction false} LowMultipleIsZero(ks: seq<nat>)
    ensures Multiple(ks) == {} || exists e :: e in Multiple(ks) && e >= 16
  {
    if Odd(ks) != {} {
      var m := Highest(Odd(ks));
      HighestTerm(ks, m);
    } else {
      forall e: nat ensures e !in Multiple(ks) { MultipleTerms(ks, e); }
    }
  }

  lemma {:induction false} RemainderUnique(p: Poly, r: Poly, s: Poly)
    requires Remainder(p, r) && Remainder(p, s)
    ensures r == s
  {
    hide Multiple;
    CongruentSym(p, r);
    Chain(r, p, s);
    var ks :| Add(r, s) == Multiple(ks);
    LowMultipleIsZero(ks);
    forall e: nat ensures e in r <==> e in s { assert e !in Add(r, s); }
  }

  // ----- the register -----

  function WordPoly(c: bv16): Poly {
    PolyOf(WordBits(c))
  }

  lemma {:induction false} HalvesOfXor(c: bv16, d: bv16)
    ensures Half(Xor(c, d)) == Xor(Half(c), Half(d)) && Low(Xor(c, d)) == (Low(c) != Low(d))
  {
  }

  lemma {:induction false} BitOfXor(c: bv16, d: bv16, i: nat)
    ensures Bit(Xor(c, d), i) == (Bit(c, i) != Bit(d, i))
    decreases i
  {
    hide Xor, Half, Low;
    HalvesOfXor(c, d);
    if i > 0 { BitOfXor(Half(c), Half(d), i - 1); }
  }

  function DropNibble(c: bv16): bv16 {
    c >> 4
  }

  lemma {:induction false} FourHalves(c: bv16)
    ensures Half(Half(Half(Half(c)))) == DropNibble(c)
  {
  }

  /** Four bits at a time. */
  lemma {:induction false} BitFour(c: bv16, i: nat)
    ensures Bit(c, i + 4) == Bit(DropNibble(c), i)
  {
    hide Half, Low, DropNibble;
    FourHalves(c);
    assert Bit(c, i + 4) == Bit(Half(c), i + 3);
    assert Bit(Half(c), i + 3) == Bit(Half(Half(c)), i + 2);
    assert Bit(Half(Half(c)), i + 2) == Bit(Half(Half(Half(c))), i + 1);
  }

  /** The lowest four bits, written out. */
  lemma {:induction false} Nibble(c: bv16)
    ensures Bit(c, 0) == Low(c) && Bit(c, 1) == Low(Half(c))
    ensures Bit(c, 2) == Low(Half(Half(c))) && Bit(c, 3) == Low(Half(Half(Half(c))))
  {
    hide Half, Low;
    assert Bit(c, 1) == Bit(Half(c), 0);
    assert Bit(c, 2) == Bit(Half(c), 1) == Bit(Half(Half(c)), 0);
    assert Bit(c, 3) == Bit(Half(c), 2) == Bit(Half(Half(c)), 1) == Bit(Half(Half(Half(c))), 0);
  }

  lemma {:induction false} NoBits(i: nat)
    ensures !Bit(0, i)
    decreases i
  {
    if i > 0 { NoBits(i - 1); }
  }

  lemma {:induction false} TopBitEmpty(c: bv16)
    ensures !Low(Half(Half(Half(DropNibble(DropNibble(DropNibble(Half(c))))))))
  {
  }

  lemma {:induction false} TopBit(c: bv16)
    ensures !Bit(Half(c), 15)
  {
    hide Bit, Half, Low, DropNibble;
    var d := Half(c);
    BitFour(d, 11);
    BitFour(DropNibble(d), 7);
    BitFour(DropNibble(DropNibble(d)), 3);
    Nibble(DropNibble(DropNibble(DropNibble(d))));
    TopBitEmpty(c);
  }

  /** A word's bits, nibble by nibble. */
  lemma {:induction false} Nibbles(c: bv16, i: nat)
    requires i < 16
    ensures i < 4 ==> Bit(c, i) == [Low(c), Low(Half(c)), Low(Half(Half(c))), Low(Half(Half(Half(c))))][i]
    ensures i >= 4 ==> Bit(c, i) == Bit(DropNibble(c), i - 4)
  {
    hide Bit, Half, Low, DropNibble;
    Nibble(c);
    if i >= 4 { BitFour(c, i - 4); }
  }

  /** The polynomial's register form has its ones at 0, 13 and 15. */
  lemma {:induction false} TapBits(i: nat)
    requires i < 16
    ensures Bit(0xA001, i) <==> i in {0, 13, 15}
  {
    hide Bit;
    Nibbles(0xA001, i);
    if i >= 4 { Nibbles(0x0A00, i - 4); }
    if i >= 8 { Nibbles(0x00A0, i - 8); }
    if i >= 12 { Nibbles(0x000A, i - 12); }
  }

  lemma {:induction false} ByteIsLow(b: Byte)
    ensures DropNibble(DropNibble(b as bv16)) == 0
  {
  }

  lemma {:induction false} ByteHasEight(b: Byte, i: nat)
    requires i >= 8
    ensures !Bit(b as bv16, i)
  {
    hide Bit, DropNibble;
    BitFour(b as bv16, i - 4);
    BitFour(DropNibble(b as bv16), i - 8);
    ByteIsLow(b);
    NoBits(i - 8);
  }

  lemma {:induction false} ShiftBitIs(c: bv16)
    ensures ShiftBit(c) == if Low(c) then Xor(Half(c), 0xA001) else Half(c)
  {
  }

  /** What one shift does to the bits: the one that falls out comes back at the taps. */
  lemma {:induction false} ShiftBitBits(c: bv16, i: nat)
    requires i < 16
    ensures WordBits(ShiftBit(c))[i] == ((i < 15 && WordBits(c)[i + 1]) != (i in {0, 13, 15} && WordBits(c)[0]))
  {
    hide WordBits, Low, Half, Xor, ShiftBit;
    ShiftBitIs(c);
    BitOfXor(Half(c), 0xA001, i);
    TapBits(i);
    if i == 15 { TopBit(c); }
    assert Bit(c, i + 1) == Bit(Half(c), i);
  }

  /** A shift of the register multiplies by x, up to a multiple of the generator. */
  lemma {:induction false} ShiftBitTimesX(c: bv16)
    ensures Congruent(Shift(WordPoly(c), 1), WordPoly(ShiftBit(c)))
  {
    hide WordBits, ShiftBit;
    var w, v := WordBits(c), WordBits(ShiftBit(c));
    var p, q := Shift(PolyOf(w), 1), PolyOf(v);
    OneGenerator();
    forall e: nat ensures e in Add(p, q) <==> w[0] && e in GENERATOR {
      ShiftedTerm(c, e);
    }
    assert Add(p, q) == Multiple(if w[0] then [0] else []);
  }

  lemma {:induction false} ShiftedTerm(c: bv16, e: nat)
    ensures (e in Shift(WordPoly(c), 1)) != (e in WordPoly(ShiftBit(c))) <==> WordBits(c)[0] && e in GENERATOR
  {
    hide WordBits, ShiftBit;
    var w := WordBits(c);
    if e < 16 { ShiftBitBits(c, 15 - e); }
    assert e in Shift(PolyOf(w), 1) <==> 1 <= e <= 16 && w[16 - e];
  }

  lemma {:induction false} OneGenerator()
    ensures Multiple([0]) == GENERATOR && Multiple([]) == {}
  {
    MultipleLast([], 0);
    assert [] + [0] == [0];
  }

  lemma {:induction false} ShiftBitsTimesX(c: bv16, n: nat)
    ensures Congruent(Shift(WordPoly(c), n), WordPoly(ShiftBits(c, n)))
    decreases n
  {
    hide Congruent, WordPoly, ShiftBit, Shift;
    if n == 0 {
      ShiftLaws(WordPoly(c), {}, 0, 0);
      SamePoly(WordPoly(c));
    } else {
      var d := ShiftBits(c, n - 1);
      ShiftBitsTimesX(c, n - 1);
      CongruentShift(Shift(WordPoly(c), n - 1), WordPoly(d), 1);
      ShiftLaws(WordPoly(c), {}, n - 1, 1);
      ShiftBitTimesX(d);
      Chain(Shift(WordPoly(c), n), Shift(WordPoly(d), 1), WordPoly(ShiftBit(d)));
    }
  }

  lemma {:induction false} WithByteIs(c: bv16, b: Byte)
    ensures WithByte(c, b) == Xor(c, b as bv16)
  {
  }

  lemma {:induction false} WithByteBits(c: bv16, b: Byte, i: nat)
    requires i < 16
    ensures WordBits(WithByte(c, b))[i] == (WordBits(c)[i] != (i < 8 && ByteBits(b)[i]))
  {
    hide Bit, WordBits, WithByte, Xor;
    WithByteIs(c, b);
    BitOfXor(c, b as bv16, i);
    if i >= 8 { ByteHasEight(b, i); }
  }

  /** Folding a byte in adds it at the high end of the register. */
  lemma {:induction false} WithByteAdds(c: bv16, b: Byte)
    ensures WordPoly(WithByte(c, b)) == Add(WordPoly(c), Shift(PolyOf(ByteBits(b)), 8))
  {
    hide WordBits, WithByte, ByteBits;
    var v, w, y := WordBits(WithByte(c, b)), WordBits(c), ByteBits(b);
    forall e: nat ensures e in PolyOf(v) <==> (e in PolyOf(w)) != (e in Shift(PolyOf(y), 8)) {
      if e < 16 { WithByteBits(c, b, 15 - e); }
      assert e in Shift(PolyOf(y), 8) <==> 8 <= e < 16 && y[15 - e];
    }
  }

  lemma {:induction false} UpdateTimesX8(c: bv16, b: Byte)
    ensures Congruent(Add(Shift(WordPoly(c), 8), Shift(PolyOf(ByteBits(b)), 16)), WordPoly(Update(c, b)))
  {
    hide Congruent, WordPoly, Shift, PolyOf, ByteBits, Add, WithByte, ShiftBits;
    ShiftBitsTimesX(WithByte(c, b), 8);
    WithByteAdds(c, b);
    ShiftLaws(WordPoly(c), Shift(PolyOf(ByteBits(b)), 8), 0, 8);
    ShiftLaws(PolyOf(ByteBits(b)), {}, 8, 8);
  }

  // ----- the theorem -----

  /** One more byte: the dividend moves up by eight and the byte comes in above the sixteen zeros. */
  lemma {:induction false} DividendNext(bits: seq<bool>, y: seq<bool>)
    requires |y| == 8
    ensures PolyOf(Dividend(bits + y)) == Add(Shift(PolyOf(Dividend(bits)), 8), Shift(PolyOf(y), 16))
  {
    var n := |bits|;
    var d, d' := Dividend(bits), Dividend(bits + y);
    forall e: nat ensures e in PolyOf(d') <==> (e in Shift(PolyOf(d), 8)) != (e in Shift(PolyOf(y), 16)) {
      if e < n + 24 {
        var i := n + 23 - e;
        assert e in PolyOf(d') <==> d'[i];
        assert e in Shift(PolyOf(d), 8) <==> e >= 8 && d[i];
        assert e in Shift(PolyOf(y), 16) <==> 16 <= e < 24 && y[i - n];
      }
    }
  }

  lemma {:induction false} PresetOnly()
    ensures PolyOf(Dividend([])) == WordPoly(0xFFFF)
  {
    hide WordBits;
    forall i | 0 <= i < 16 ensures WordBits(0xFFFF)[i] { AllOnes(i); }
    assert Dividend([]) == WordBits(0xFFFF);
  }

  lemma {:induction false} AllOnes(i: nat)
    requires i < 16
    ensures Bit(0xFFFF, i)
  {
    hide Bit;
    Nibbles(0xFFFF, i);
    if i >= 4 { Nibbles(0x0FFF, i - 4); }
    if i >= 8 { Nibbles(0x00FF, i - 8); }
    if i >= 12 { Nibbles(0x000F, i - 12); }
  }

  lemma {:induction false} MessageLast(data: seq<Byte>)
    requires data != []
    ensures MessageBits(data) == MessageBits(data[..|data| - 1]) + ByteBits(data[|data| - 1])
  {
  }

  lemma {:induction false} CrcCongruent(data: seq<Byte>)
    ensures Congruent(PolyOf(Dividend(MessageBits(data))), WordPoly(Crc(data)))
    decreases |data|
  {
    hide Congruent, WordPoly, Shift, PolyOf, ByteBits, Add, Update, Dividend;
    if data == [] {
      PresetOnly();
      SamePoly(WordPoly(0xFFFF));
    } else {
      var n := |data| - 1;
      var c, b, front := Crc(data[..n]), data[n], MessageBits(data[..n]);
      CrcCongruent(data[..n]);
      MessageLast(data);
      DividendNext(front, ByteBits(b));
      CongruentShift(PolyOf(Dividend(front)), WordPoly(c), 8);
      CongruentAdd(Shift(PolyOf(Dividend(front)), 8), Shift(WordPoly(c), 8), Shift(PolyOf(ByteBits(b)), 16));
      UpdateTimesX8(c, b);
      Chain(PolyOf(Dividend(MessageBits(data))),
        Add(Shift(WordPoly(c), 8), Shift(PolyOf(ByteBits(b)), 16)), WordPoly(Update(c, b)));
    }
  }

  /** The checksum, lowest bit first, is the remainder of the dividend. */
  lemma {:induction false} CrcIsRemainder(data: seq<Byte>)
    ensures Remainder(PolyOf(Dividend(MessageBits(data))), PolyOf(WordBits(Crc(data))))
  {
    hide Crc, Congruent, WordBits;
    CrcCongruent(data);
  }

  predicate NibbleEmpty(x: bv16) {
    x & 0x000F == 0
  }

  lemma {:induction false} NibbleMasks(x: bv16)
    ensures !Low(x) && !Low(Half(x)) && !Low(Half(Half(x))) && !Low(Half(Half(Half(x)))) ==> NibbleEmpty(x)
  {
  }

  lemma {:induction false} LowNibbleEmpty(x: bv16)
    requires !Bit(x, 0) && !Bit(x, 1) && !Bit(x, 2) && !Bit(x, 3)
    ensures NibbleEmpty(x)
  {
    hide Bit, Low, Half, NibbleEmpty;
    Nibble(x);
    NibbleMasks(x);
  }

  lemma {:induction false} NibblesEmpty(x: bv16)
    requires NibbleEmpty(x) && NibbleEmpty(DropNibble(x)) && NibbleEmpty(DropNibble(DropNibble(x)))
    requires NibbleEmpty(DropNibble(DropNibble(DropNibble(x))))
    ensures x == 0
  {
  }

  lemma {:induction false} NoBitsMeansZero(x: bv16)
    requires forall i: nat :: i < 16 ==> !Bit(x, i)
    ensures x == 0
  {
    hide Bit, DropNibble, NibbleEmpty;
    var y := DropNibble(x);
    var z := DropNibble(y);
    var w := DropNibble(z);
    forall i: nat | i < 12 ensures !Bit(y, i) { BitFour(x, i); }
    forall i: nat | i < 8 ensures !Bit(z, i) { BitFour(y, i); }
    forall i: nat | i < 4 ensures !Bit(w, i) { BitFour(z, i); }
    LowNibbleEmpty(x);
    LowNibbleEmpty(y);
    LowNibbleEmpty(z);
    LowNibbleEmpty(w);
    NibblesEmpty(x);
  }

  lemma {:induction false} XorZero(c: bv16, d: bv16)
    ensures Xor(c, d) == 0 ==> c == d
  {
  }

  lemma {:induction false} SameBits(c: bv16, d: bv16)
    requires WordBits(c) == WordBits(d)
    ensures c == d
  {
    hide Bit, WordBits, Xor;
    forall i: nat | i < 16 ensures !Bit(Xor(c, d), i) {
      assert WordBits(c)[i] == WordBits(d)[i];
      BitOfXor(c, d, i);
    }
    NoBitsMeansZero(Xor(c, d));
    XorZero(c, d);
  }

  lemma {:induction false} SamePolySameBits(w: seq<bool>, v: seq<bool>)
    requires |w| == |v| && PolyOf(w) == PolyOf(v)
    ensures w == v
  {
    forall i | 0 <= i < |w| ensures w[i] == v[i] {
      assert |w| - 1 - i in PolyOf(w) <==> Coefficient(v, |w| - 1 - i);
    }
  }

  /** It is the only one: a word is the checksum exactly if it is that remainder. */
  lemma {:induction false} RemainderIsCrc(data: seq<Byte>, c: bv16)
    ensures c == Crc(data) <==> Remainder(PolyOf(Dividend(MessageBits(data))), PolyOf(WordBits(c)))
  {
    hide Crc, Remainder, WordBits, PolyOf;
    CrcIsRemainder(data);
    if Remainder(PolyOf(Dividend(MessageBits(data))), PolyOf(WordBits(c))) {
      RemainderUnique(PolyOf(Dividend(MessageBits(data))), PolyOf(WordBits(c)), PolyOf(WordBits(Crc(data))));
      SamePolySameBits(WordBits(c), WordBits(Crc(data)));
      SameBits(c, Crc(data));
    }
  }

  /** Two messages have one checksum exactly if their dividends differ by a multiple of the generator: no other
      corruption goes unnoticed. */
  lemma {:induction false} SameCrcExactly(s: seq<Byte>, t: seq<Byte>)
    ensures Crc(s) == Crc(t) <==>
            Congruent(PolyOf(Dividend(MessageBits(s))), PolyOf(Dividend(MessageBits(t))))
  {
    hide Crc, Congruent, WordBits, PolyOf, Dividend, MessageBits;
    var p, q := PolyOf(Dividend(MessageBits(s))), PolyOf(Dividend(MessageBits(t)));
    var r := PolyOf(WordBits(Crc(t)));
    CrcIsRemainder(s);
    CrcIsRemainder(t);
    if Crc(s) == Crc(t) {
      CongruentSym(q, r);
      Chain(p, r, q);
    }
    if Congruent(p, q) {
      Chain(p, q, r);
      RemainderIsCrc(s, Crc(t));
    }
  }

  // ----- the published check value -----

  lemma {:induction false} FoldByte(c: bv16, b: Byte)
    ensures Update(c, b) ==
            ShiftBit(ShiftBit(ShiftBit(ShiftBit(ShiftBit(ShiftBit(ShiftBit(ShiftBit(c ^ (b as bv16)))))))))
  {
    hide ShiftBit;
    ShiftByte(c ^ (b as bv16));
  }

  lemma {:induction false} RegisterNext(data: seq<Byte>, b: Byte)
    ensures Crc(data + [b]) == Update(Crc(data), b)
  {
    hide Update;
    assert (data + [b])[..|data|] == data;
  }

  lemma {:induction false} NoBytes()
    ensures Crc([]) == 0xFFFF
  {
  }

  /** One byte of a message whose front has checksum `c`. */
  predicate Folds(c: bv16, b: bv16, d: bv16) {
    ShiftBit(ShiftBit(ShiftBit(ShiftBit(ShiftBit(ShiftBit(ShiftBit(ShiftBit(c ^ b)))))))) == d
  }

  lemma {:induction false} Fold(data: seq<Byte>, b: Byte, c: bv16, d: bv16)
    requires Crc(data) == c && Folds(c, b as bv16, d)
    ensures Crc(data + [b]) == d
  {
    hide Crc, ShiftBit;
    RegisterNext(data, b);
    FoldByte(c, b);
  }

  /** "123456789" gives 0x4B37. */
  lemma {:induction false} CheckValue()
    ensures Crc([0x31, 0x32, 0x33, 0x34, 0x35, 0x36, 0x37, 0x38, 0x39]) == 0x4B37
  {
    hide Crc, Update;
    NoBytes();
    var d0: seq<Byte> := [];
    Fold(d0, 0x31, 0xFFFF, 0x947E);
    var d1 := d0 + [0x31];
    Fold(d1, 0x32, 0x947E, 0xF595);
    var d2 := d1 + [0x32];
    Fold(d2, 0x33, 0xF595, 0x7A75);
    var d3 := d2 + [0x33];
    Fold(d3, 0x34, 0x7A75, 0x30BA);
    var d4 := d3 + [0x34];
    Fold(d4, 0x35, 0x30BA, 0xA471);
    var d5 := d4 + [0x35];
    Fold(d5, 0x36, 0xA471, 0x32E4);
    var d6 := d5 + [0x36];
    Fold(d6, 0x37, 0x32E4, 0x9D73);
    var d7 := d6 + [0x37];
    Fold(d7, 0x38, 0x9D73, 0x37DD);
    var d8 := d7 + [0x38];
    Fold(d8, 0x39, 0x37DD, 0x4B37);
    var d9 := d8 + [0x39];
    assert d9 == [0x31, 0x32, 0x33, 0x34, 0x35, 0x36, 0x37, 0x38, 0x39];
  }
}
