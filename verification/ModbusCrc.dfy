/** The Modbus RTU checksum and the frames around it (include/aero/drivers/modbus_rtu_driver.hpp). */
module ModbusCrc {
  type Byte = bv8

  /** One bit of the register: shift right, folding the polynomial in when a one falls out. */
  function ShiftBit(c: bv16): bv16 {
    if c & 1 == 1 then (c >> 1) ^ 0xA001 else c >> 1
  }

  function ShiftBits(c: bv16, n: nat): bv16 {
    if n == 0 then c else ShiftBit(ShiftBits(c, n - 1))
  }

  /** Folding one byte into the register. */
  function Update(c: bv16, b: Byte): bv16 {
    ShiftBits(WithByte(c, b), 8)
  }

  function WithByte(c: bv16, b: Byte): bv16 {
    c ^ (b as bv16)
  }

  function Register(c: bv16, data: seq<Byte>): bv16 {
    if data == [] then c else Update(Register(c, data[..|data| - 1]), data[|data| - 1])
  }

  function Crc(data: seq<Byte>): bv16 {
    Register(0xFFFF, data)
  }

  method Crc16(data: array<Byte>, len: nat) returns (crc: bv16)
    requires len <= data.Length
    ensures crc == Crc(data[..len])
  {
    crc := 0xFFFF;
    for i := 0 to len
      invariant crc == Crc(data[..i])
    {
      assert data[..i + 1][..i] == data[..i];
      crc := crc ^ (data[i] as bv16);
      ghost var folded := crc;
      for b := 0 to 8
        invariant crc == ShiftBits(folded, b)
      {
        if crc & 1 == 1 {
          crc := (crc >> 1) ^ 0xA001;
        } else {
          crc := crc >> 1;
        }
      }
    }
  }

  // ----- the register step is linear and loses nothing -----

  lemma {:induction false} ShiftBitInjective(c: bv16, d: bv16)
    ensures ShiftBit(c) == ShiftBit(d) ==> c == d
  {
  }

  lemma {:induction false} ShiftBitsInjective(c: bv16, d: bv16, n: nat)
    requires c != d
    ensures ShiftBits(c, n) != ShiftBits(d, n)
  {
    if n > 0 {
      ShiftBitsInjective(c, d, n - 1);
      ShiftBitInjective(ShiftBits(c, n - 1), ShiftBits(d, n - 1));
    }
  }

  lemma {:induction false} XorFacts(c: bv16, d: bv16)
    ensures (c ^ d) >> 1 == (c >> 1) ^ (d >> 1)
    ensures (c ^ d) & 1 == (c & 1) ^ (d & 1)
    ensures c & 1 == 0 || c & 1 == 1
  {
  }

  lemma {:induction false} XorCancel(x: bv16, y: bv16, p: bv16)
    ensures (x ^ p) ^ (y ^ p) == x ^ y
    ensures (x ^ p) ^ y == (x ^ y) ^ p
    ensures x ^ (y ^ p) == (x ^ y) ^ p
  {
  }

  lemma {:induction false} ShiftBitLinear(c: bv16, d: bv16)
    ensures ShiftBit(c) ^ ShiftBit(d) == ShiftBit(c ^ d)
  {
    XorFacts(c, d);
    XorFacts(d, c);
    XorCancel(c >> 1, d >> 1, 0xA001);
    var x, y := c & 1, d & 1;
    if x == 1 {
      if y == 1 { assert (1 as bv16) ^ 1 == 0; } else { assert (1 as bv16) ^ 0 == 1; }
    } else {
      if y == 1 { assert (0 as bv16) ^ 1 == 1; } else { assert (0 as bv16) ^ 0 == 0; }
    }
  }

  function Xor(c: bv16, d: bv16): bv16 {
    c ^ d
  }

  lemma {:induction false} ShiftBitOfXor(c: bv16, d: bv16)
    ensures Xor(ShiftBit(c), ShiftBit(d)) == ShiftBit(Xor(c, d))
  {
    ShiftBitLinear(c, d);
  }

  lemma {:induction false} ShiftBitsOfXor(c: bv16, d: bv16, n: nat)
    ensures Xor(ShiftBits(c, n), ShiftBits(d, n)) == ShiftBits(Xor(c, d), n)
  {
    hide ShiftBit, Xor;
    if n > 0 {
      ShiftBitsOfXor(c, d, n - 1);
      ShiftBitOfXor(ShiftBits(c, n - 1), ShiftBits(d, n - 1));
    }
  }

  /** The eight shifts written out. */
  lemma {:induction false} ShiftByte(c: bv16)
    ensures ShiftBits(c, 8) ==
            ShiftBit(ShiftBit(ShiftBit(ShiftBit(ShiftBit(ShiftBit(ShiftBit(ShiftBit(c))))))))
  {
    hide ShiftBit;
    assert ShiftBits(c, 0) == c && ShiftBits(c, 1) == ShiftBit(c);
    assert ShiftBits(c, 2) == ShiftBit(ShiftBit(c));
    assert ShiftBits(c, 4) == ShiftBit(ShiftBit(ShiftBits(c, 2)));
    assert ShiftBits(c, 6) == ShiftBit(ShiftBit(ShiftBits(c, 4)));
    assert ShiftBits(c, 8) == ShiftBit(ShiftBit(ShiftBits(c, 6)));
  }

  predicate IsLow(c: bv16) {
    c & 0xFF00 == 0
  }

  /** A one in the low byte always reaches the high byte. */
  lemma {:induction false} LowByteReachesHigh(c: bv16)
    requires IsLow(c) && IsLow(ShiftBits(c, 8))
    ensures c == 0
  {
    ShiftByte(c);
  }

  /** A value in the high byte just moves down. */
  lemma {:induction false} HighByteMovesDown(c: bv16)
    requires c & 0x00FF == 0
    ensures ShiftBits(c, 8) == c >> 8
  {
    ShiftByte(c);
  }

  // ----- registers over byte strings -----

  lemma {:induction false} UpdateInjective(c: bv16, d: bv16, b: Byte)
    requires c != d
    ensures Update(c, b) != Update(d, b)
  {
    assert WithByte(c, b) != WithByte(d, b);
    ShiftBitsInjective(WithByte(c, b), WithByte(d, b), 8);
  }

  lemma {:induction false} RegisterInjective(c: bv16, d: bv16, data: seq<Byte>)
    requires c != d
    ensures Register(c, data) != Register(d, data)
    decreases |data|
  {
    hide Update;
    if data != [] {
      var n := |data| - 1;
      RegisterInjective(c, d, data[..n]);
      UpdateInjective(Register(c, data[..n]), Register(d, data[..n]), data[n]);
    }
  }

  lemma {:induction false} RegisterConcat(c: bv16, a: seq<Byte>, b: seq<Byte>)
    ensures Register(c, a + b) == Register(Register(c, a), b)
    decreases |b|
  {
    hide Update;
    if b == [] {
      assert a + b == a;
    } else {
      var n := |b| - 1;
      assert (a + b)[..|a| + n] == a + b[..n];
      RegisterConcat(c, a, b[..n]);
    }
  }

  lemma {:induction false} RegisterPair(c: bv16, x: Byte, y: Byte)
    ensures Register(c, [x, y]) == Update(Update(c, x), y)
  {
    hide Update;
    assert [x, y][..1] == [x] && [x][..0] == [];
    assert Register(c, []) == c && Register(c, [x]) == Update(c, x);
  }

  /** Two bytes in a row: the register tells every different pair apart. */
  lemma {:induction false} PairsDiffer(c: bv16, x: Byte, y: Byte, x': Byte, y': Byte)
    requires x != x' || y != y'
    ensures Update(Update(c, x), y) != Update(Update(c, x'), y')
  {
    hide ShiftBits, WithByte, Xor, IsLow;
    var u, u' := Update(c, x), Update(c, x');
    if x == x' {
      ByteXorInjective(u, y, y');
    } else {
      var d := Xor(WithByte(c, x), WithByte(c, x'));
      ByteDifference(c, x, x');
      ShiftBitsOfXor(WithByte(c, x), WithByte(c, x'), 8);
      if IsLow(ShiftBits(d, 8)) { LowByteReachesHigh(d); }
      HighBytesKeepApart(u, u', y, y');
    }
    ShiftBitsInjective(WithByte(u, y), WithByte(u', y'), 8);
  }

  lemma {:induction false} ByteXorInjective(u: bv16, y: Byte, y': Byte)
    requires y != y'
    ensures WithByte(u, y) != WithByte(u, y')
  {
  }

  lemma {:induction false} ByteDifference(c: bv16, x: Byte, x': Byte)
    requires x != x'
    ensures var d := Xor(WithByte(c, x), WithByte(c, x')); d != 0 && IsLow(d)
  {
  }

  lemma {:induction false} HighBytesKeepApart(u: bv16, u': bv16, y: Byte, y': Byte)
    requires !IsLow(Xor(u, u'))
    ensures WithByte(u, y) != WithByte(u', y')
  {
  }

  // ----- the theorems -----

  /** Any corruption confined to two adjacent bytes changes the checksum, at every length. */
  lemma {:induction false} AdjacentErrorsChangeCrc(s: seq<Byte>, t: seq<Byte>, k: nat)
    requires |s| == |t| && s != t && k < |s|
    requires forall i :: 0 <= i < |s| && i != k && i != k + 1 ==> s[i] == t[i]
    ensures Crc(s) != Crc(t)
  {
    hide Update, Register;
    var n := |s|;
    if n == 1 {
      RegisterOne(0xFFFF, s[0]);
      RegisterOne(0xFFFF, t[0]);
      assert s == [s[0]] && t == [t[0]];
      UpdateBytesDiffer(0xFFFF, s[0], t[0]);
    } else {
      var a := if k + 1 < n then k else k - 1;
      var pre, post := s[..a], s[a + 2..];
      assert s == pre + ([s[a], s[a + 1]] + post);
      assert t == pre + ([t[a], t[a + 1]] + post);
      var c := Register(0xFFFF, pre);
      RegisterConcat(0xFFFF, pre, [s[a], s[a + 1]] + post);
      RegisterConcat(0xFFFF, pre, [t[a], t[a + 1]] + post);
      RegisterConcat(c, [s[a], s[a + 1]], post);
      RegisterConcat(c, [t[a], t[a + 1]], post);
      RegisterPair(c, s[a], s[a + 1]);
      RegisterPair(c, t[a], t[a + 1]);
      PairsDiffer(c, s[a], s[a + 1], t[a], t[a + 1]);
      RegisterInjective(Register(c, [s[a], s[a + 1]]), Register(c, [t[a], t[a + 1]]), post);
    }
  }

  lemma {:induction false} RegisterOne(c: bv16, x: Byte)
    ensures Register(c, [x]) == Update(c, x)
  {
    hide Update;
    assert [x][..0] == [];
  }

  lemma {:induction false} UpdateBytesDiffer(c: bv16, x: Byte, y: Byte)
    requires x != y
    ensures Update(c, x) != Update(c, y)
  {
    ByteXorInjective(c, x, y);
    ShiftBitsInjective(WithByte(c, x), WithByte(c, y), 8);
  }

  function LowByte(c: bv16): Byte {
    (c & 0x00FF) as Byte
  }

  function HighByte(c: bv16): Byte {
    (c >> 8) as Byte
  }

  /** Folding a register's own two bytes, low byte first, empties it. */
  lemma {:induction false} OwnBytesCancel(c: bv16)
    ensures Register(c, [LowByte(c), HighByte(c)]) == 0
  {
    RegisterPair(c, LowByte(c), HighByte(c));
    var u := WithByte(c, LowByte(c));
    assert u & 0x00FF == 0 && u >> 8 == HighByte(c) as bv16;
    HighByteMovesDown(u);
    assert Update(c, LowByte(c)) == HighByte(c) as bv16;
    var z := WithByte(HighByte(c) as bv16, HighByte(c));
    assert z == 0;
    HighByteMovesDown(z);
  }

  /** A frame is taken when its last two bytes are the checksum of the rest, low byte first. */
  predicate Accepts(frame: seq<Byte>) {
    && |frame| >= 2
    && var n := |frame| - 2;
       LowByte(Crc(frame[..n])) == frame[n] && HighByte(Crc(frame[..n])) == frame[n + 1]
  }

  /** The frame check is exactly "the checksum of the whole frame is zero". */
  lemma {:induction false} AcceptsIffZero(frame: seq<Byte>)
    requires |frame| >= 2
    ensures Accepts(frame) <==> Crc(frame) == 0
  {
    hide Update, Register, LowByte, HighByte;
    var n := |frame| - 2;
    var c := Crc(frame[..n]);
    assert frame == frame[..n] + [frame[n], frame[n + 1]];
    RegisterConcat(0xFFFF, frame[..n], [frame[n], frame[n + 1]]);
    OwnBytesCancel(c);
    if LowByte(c) != frame[n] || HighByte(c) != frame[n + 1] {
      RegisterPair(c, LowByte(c), HighByte(c));
      RegisterPair(c, frame[n], frame[n + 1]);
      PairsDiffer(c, frame[n], frame[n + 1], LowByte(c), HighByte(c));
    }
  }

  /** A body followed by its own checksum is accepted. */
  lemma {:induction false} SealedFrameAccepted(body: seq<Byte>)
    ensures var frame := body + [LowByte(Crc(body)), HighByte(Crc(body))]; Accepts(frame) && Crc(frame) == 0
  {
    var frame := body + [LowByte(Crc(body)), HighByte(Crc(body))];
    assert frame[..|frame| - 2] == body;
    AcceptsIffZero(frame);
  }

  /** No accepted frame can be turned into another accepted one within two adjacent bytes, checksum
      bytes included. */
  lemma {:induction false} AdjacentErrorsRejected(sent: seq<Byte>, got: seq<Byte>, k: nat)
    requires Accepts(sent) && |sent| == |got| && sent != got && k < |sent|
    requires forall i :: 0 <= i < |sent| && i != k && i != k + 1 ==> sent[i] == got[i]
    ensures !Accepts(got)
  {
    AcceptsIffZero(sent);
    AcceptsIffZero(got);
    AdjacentErrorsChangeCrc(sent, got, k);
  }

  /** The read request of `do_transaction`: address, function, start and count (big-endian), checksum. */
  method BuildReadRequest(slave: Byte, fn: Byte, start: bv16, count: bv16) returns (req: array<Byte>)
    ensures fresh(req) && req.Length == 8 && Accepts(req[..])
    ensures req[..6] == [slave, fn, HighByte(start), LowByte(start), HighByte(count), LowByte(count)]
  {
    hide Crc, Accepts;
    req := new Byte[8](_ => 0);
    req[0], req[1] := slave, fn;
    req[2], req[3] := HighByte(start), LowByte(start);
    req[4], req[5] := HighByte(count), LowByte(count);
    var crc := Crc16(req, 6);
    ghost var body := req[..6];
    req[6], req[7] := LowByte(crc), HighByte(crc);
    assert req[..] == body + [LowByte(crc), HighByte(crc)];
    SealedFrameAccepted(body);
  }

  /** The receive side: the bytes already read, then the two checksum bytes read little-endian. */
  method CheckResponse(body: array<Byte>, len: nat, lo: Byte, hi: Byte) returns (ok: bool)
    requires len <= body.Length
    ensures ok <==> Accepts(body[..len] + [lo, hi])
  {
    var crc := Crc16(body, len);
    ok := crc == (lo as bv16) | ((hi as bv16) << 8);
    LittleEndian(crc, lo, hi);
    assert (body[..len] + [lo, hi])[..len] == body[..len];
  }

  lemma {:induction false} LittleEndian(c: bv16, lo: Byte, hi: Byte)
    ensures c == (lo as bv16) | ((hi as bv16) << 8) <==> LowByte(c) == lo && HighByte(c) == hi
  {
  }
}
