/** CRC-16/CCITT-FALSE: generator x^16 + x^12 + x^5 + 1, initial value all ones, no reflection.

    The register is its bits, lowest first. One step is linear in the register and the byte together, and
    the register can be recovered from its successor. So the checksum tells apart any two messages that
    differ only in two neighbouring bytes, however long they are. */
module Crc {
  import opened Words
  import opened Gray

  const WIDTH := 16

  type Register = b: Bits | |b| == WIDTH witness Low(0, WIDTH)

  function Zeros(n: nat): (z: Bits)
    ensures |z| == n && forall i :: 0 <= i < n ==> !z[i]
  {
    seq(n, _ => false)
  }

  /** 0xFFFF. */
  function Init(): (c: Register)
    ensures forall i :: 0 <= i < WIDTH ==> c[i]
  {
    seq(WIDTH, _ => true)
  }

  /** The generator 0x1021: its terms below x^16. */
  function Poly(): (c: Register)
    ensures forall i :: 0 <= i < WIDTH ==> c[i] == (i == 0 || i == 5 || i == 12)
  {
    seq(WIDTH, i => i == 0 || i == 5 || i == 12)
  }

  function Left(c: Register): Register { [false] + c[..WIDTH - 1] }

  /** One shift: the bit that falls out selects the generator. */
  function Shifted(c: Register): Register {
    if c[WIDTH - 1] then Xor(Left(c), Poly()) else Left(c)
  }

  function Shifts(c: Register, k: nat): Register
    decreases |c|, k
  {
    if k == 0 then c else Shifts(Shifted(c), k - 1)
  }

  /** A byte enters at the top of the register. */
  function Entering(byte: Bits): Register
    requires |byte| == 8
  {
    Zeros(8) + byte
  }

  function Absorb(c: Register, byte: Bits): Register
    requires |byte| == 8
  {
    Shifts(Xor(c, Entering(byte)), 8)
  }

  function Update(c: Register, byte: u8): Register { Absorb(c, Low(byte, 8)) }

  function Crc(c: Register, data: seq<u8>): Register
    decreases |data|
  {
    if data == [] then c else Crc(Update(c, data[0]), data[1..])
  }

  function Checksum(data: seq<u8>): u16 { ValueFits(Crc(Init(), data)); Value(Crc(Init(), data)) }

  lemma ValueFits(c: Register)
    ensures Value(c) < TWO16
  {
    assert Pow2(8) == 256;
    assert Pow2(16) == TWO16;
  }

  // ---------- the reference loops and the hardware register ----------

  lemma {:induction false} ShiftsLast(c: Register, k: nat)
    ensures Shifts(c, k + 1) == Shifted(Shifts(c, k))
    decreases k
  {
    if k > 0 {
      ShiftsLast(Shifted(c), k - 1);
    }
  }

  method Crc16Update(crc: Register, byte: u8) returns (r: Register)
    ensures r == Update(crc, byte)
  {
    r := Xor(crc, Entering(Low(byte, 8)));
    ghost var start := r;
    var k := 0;
    while k < 8
      invariant 0 <= k <= 8 && r == Shifts(start, k)
    {
      ShiftsLast(start, k);
      if r[WIDTH - 1] {
        r := Xor(Left(r), Poly());
      } else {
        r := Left(r);
      }
      k := k + 1;
    }
  }

  lemma {:induction false} CrcSplit(c: Register, a: seq<u8>, b: seq<u8>)
    ensures Crc(c, a + b) == Crc(Crc(c, a), b)
    decreases |a|
  {
    if a == [] {
      assert a + b == b;
    } else {
      assert (a + b)[1..] == a[1..] + b;
      CrcSplit(Update(c, a[0]), a[1..], b);
    }
  }

  lemma CrcAppend(c: Register, data: seq<u8>, byte: u8)
    ensures Crc(c, data + [byte]) == Update(Crc(c, data), byte)
  {
    CrcSplit(c, data, [byte]);
    assert [byte][1..] == [];
  }

  lemma CrcOneMore(c: Register, data: seq<u8>, i: nat)
    requires i < |data|
    ensures Crc(c, data[..i + 1]) == Update(Crc(c, data[..i]), data[i])
  {
    assert data[..i + 1] == data[..i] + [data[i]];
    CrcAppend(c, data[..i], data[i]);
  }

  method Crc16(data: seq<u8>, start: Register) returns (crc: Register)
    ensures crc == Crc(start, data)
  {
    crc := start;
    var i := 0;
    while i < |data|
      invariant 0 <= i <= |data| && crc == Crc(start, data[..i])
    {
      CrcOneMore(start, data, i);
      crc := Crc16Update(crc, data[i]);
      i := i + 1;
    }
    assert data[..i] == data;
  }

  // ---------- linearity ----------

  lemma ShiftedIsLinear(a: Register, b: Register)
    ensures Shifted(Xor(a, b)) == Xor(Shifted(a), Shifted(b))
  {
  }

  lemma ShiftsFirst(c: Register, k: nat)
    requires k > 0
    ensures Shifts(c, k) == Shifts(Shifted(c), k - 1)
  {
  }

  lemma {:induction false} ShiftsAreLinear(a: Register, b: Register, k: nat)
    ensures Shifts(Xor(a, b), k) == Xor(Shifts(a, k), Shifts(b, k))
    decreases k
  {
    if k > 0 {
      ShiftsFirst(a, k);
      ShiftsFirst(b, k);
      ShiftsFirst(Xor(a, b), k);
      ShiftedIsLinear(a, b);
      ShiftsAreLinear(Shifted(a), Shifted(b), k - 1);
    }
  }

  lemma Regroup(a: Register, x: Register, b: Register, y: Register)
    ensures Xor(Xor(a, b), Xor(x, y)) == Xor(Xor(a, x), Xor(b, y))
  {
  }

  /** The step is linear in the register and the byte together. */
  lemma AbsorbIsLinear(a: Register, x: Bits, b: Register, y: Bits)
    requires |x| == |y| == 8
    ensures Absorb(Xor(a, b), Xor(x, y)) == Xor(Absorb(a, x), Absorb(b, y))
  {
    assert Entering(Xor(x, y)) == Xor(Entering(x), Entering(y));
    Regroup(a, Entering(x), b, Entering(y));
    ShiftsAreLinear(Xor(a, Entering(x)), Xor(b, Entering(y)), 8);
  }

  // ---------- invertibility ----------

  /** The shift that undoes one: the generator's lowest bit tells whether it was added. */
  function Unshifted(c: Register): Register {
    (if c[0] then Xor(c, Poly()) else c)[1..] + [c[0]]
  }

  lemma ShiftedBits(c: Register)
    ensures forall i :: 0 <= i < WIDTH ==> Shifted(c)[i] == ((i > 0 && c[i - 1]) != (c[WIDTH - 1] && Poly()[i]))
  {
  }

  lemma UnshiftedBits(c: Register)
    ensures forall i :: 0 <= i < WIDTH - 1 ==> Unshifted(c)[i] == (c[i + 1] != (c[0] && Poly()[i + 1]))
    ensures Unshifted(c)[WIDTH - 1] == c[0]
  {
  }

  /** Each undoes the other: no state of the register is lost, and none is unreachable. */
  lemma ShiftedIsInvertible(c: Register)
    ensures Unshifted(Shifted(c)) == c
    ensures Shifted(Unshifted(c)) == c
  {
    ShiftedBits(c);
    UnshiftedBits(c);
    ShiftedBits(Unshifted(c));
    UnshiftedBits(Shifted(c));
    assert Poly()[0];
  }

  lemma {:induction false} ShiftsInjective(a: Register, b: Register, k: nat)
    requires Shifts(a, k) == Shifts(b, k)
    ensures a == b
    decreases k
  {
    if k > 0 {
      ShiftsInjective(Shifted(a), Shifted(b), k - 1);
      ShiftedIsInvertible(a);
      ShiftedIsInvertible(b);
    }
  }

  lemma XorCancels(a: Register, b: Register, x: Register)
    requires Xor(a, x) == Xor(b, x)
    ensures a == b
  {
    assert forall i :: 0 <= i < WIDTH ==> Xor(a, x)[i] == Xor(b, x)[i];
  }

  /** For a given message, different registers stay different. */
  lemma {:induction false} CrcInjective(a: Register, b: Register, data: seq<u8>)
    requires Crc(a, data) == Crc(b, data)
    ensures a == b
    decreases |data|
  {
    if data != [] {
      var x := Entering(Low(data[0], 8));
      CrcInjective(Update(a, data[0]), Update(b, data[0]), data[1..]);
      ShiftsInjective(Xor(a, x), Xor(b, x), 8);
      XorCancels(a, b, x);
    }
  }

  // ---------- detection ----------

  /** A byte at the bottom of the register. */
  function Waiting(byte: Bits): Register
    requires |byte| == 8
  {
    byte + Zeros(8)
  }

  /** Eight shifts carry a low byte to the high one untouched. */
  lemma {:induction false} LowByteRises(byte: Bits, k: nat)
    requires |byte| == 8 && k <= 8
    ensures Shifts(Waiting(byte), k) == Zeros(k) + byte + Zeros(8 - k)
  {
    if k == 0 {
      assert Zeros(0) + byte + Zeros(8) == Waiting(byte);
    } else {
      LowByteRises(byte, k - 1);
      ShiftsLast(Waiting(byte), k - 1);
      assert Left(Zeros(k - 1) + byte + Zeros(9 - k)) == Zeros(k) + byte + Zeros(8 - k);
    }
  }

  /** Absorbing two bytes is sixteen shifts of the register with both of them in it. */
  lemma TwoBytesAtOnce(c: Register, x: Bits, y: Bits)
    requires |x| == |y| == 8
    ensures Absorb(Absorb(c, x), y) == Shifts(Shifts(Xor(Xor(c, Entering(x)), Waiting(y)), 8), 8)
  {
    LowByteRises(y, 8);
    assert Zeros(8) + y + Zeros(0) == Entering(y);
    ShiftsAreLinear(Xor(c, Entering(x)), Waiting(y), 8);
  }

  lemma WordTellsBytes(c: Register, x: Bits, y: Bits, x': Bits, y': Bits)
    requires |x| == |y| == |x'| == |y'| == 8
    requires Xor(Xor(c, Entering(x)), Waiting(y)) == Xor(Xor(c, Entering(x')), Waiting(y'))
    ensures x == x' && y == y'
  {
    var w, w' := Xor(Xor(c, Entering(x)), Waiting(y)), Xor(Xor(c, Entering(x')), Waiting(y'));
    forall i | 0 <= i < 8
      ensures x[i] == x'[i] && y[i] == y'[i]
    {
      assert w[i] == w'[i] && w[8 + i] == w'[8 + i];
      assert w[i] == (c[i] != y[i]) && w'[i] == (c[i] != y'[i]);
      assert w[8 + i] == (c[8 + i] != x[i]) && w'[8 + i] == (c[8 + i] != x'[i]);
    }
  }

  /** Two different pairs of bytes leave the register different. */
  lemma PairIsTold(c: Register, x: u8, y: u8, x': u8, y': u8)
    requires Update(Update(c, x), y) == Update(Update(c, x'), y')
    ensures x == x' && y == y'
  {
    var p, q, p', q' := Low(x, 8), Low(y, 8), Low(x', 8), Low(y', 8);
    TwoBytesAtOnce(c, p, q);
    TwoBytesAtOnce(c, p', q');
    var a, b := Xor(Xor(c, Entering(p)), Waiting(q)), Xor(Xor(c, Entering(p')), Waiting(q'));
    ShiftsInjective(Shifts(a, 8), Shifts(b, 8), 8);
    ShiftsInjective(a, b, 8);
    WordTellsBytes(c, p, q, p', q');
    ByteTold(x, x');
    ByteTold(y, y');
  }

  lemma ByteTold(x: u8, x': u8)
    requires Low(x, 8) == Low(x', 8)
    ensures x == x'
  {
    assert Pow2(8) == 256;
    ValueOfLow(x, 8);
    ValueOfLow(x', 8);
  }

  lemma CrcPair(c: Register, before: seq<u8>, x: u8, y: u8)
    ensures Crc(c, before + [x, y]) == Update(Update(Crc(c, before), x), y)
  {
    assert before + [x, y] == (before + [x]) + [y];
    CrcAppend(c, before + [x], y);
    CrcAppend(c, before, x);
  }

  /** Messages that agree but for two neighbouring bytes have the same checksum exactly when those bytes
      agree too, whatever surrounds them. */
  lemma NeighboursAreTold(before: seq<u8>, x: u8, y: u8, x': u8, y': u8, after: seq<u8>)
    ensures Checksum(before + [x, y] + after) == Checksum(before + [x', y'] + after) <==> x == x' && y == y'
  {
    var a, b := Crc(Init(), before + [x, y]), Crc(Init(), before + [x', y']);
    CrcSplit(Init(), before + [x, y], after);
    CrcSplit(Init(), before + [x', y'], after);
    if Checksum(before + [x, y] + after) == Checksum(before + [x', y'] + after) {
      ValueInjective(Crc(a, after), Crc(b, after));
      CrcInjective(a, b, after);
      CrcPair(Init(), before, x, y);
      CrcPair(Init(), before, x', y');
      PairIsTold(Crc(Init(), before), x, y, x', y');
    }
  }
}
