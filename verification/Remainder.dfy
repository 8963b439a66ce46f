/** The checksum as a remainder: the bytes of a message, each with its highest bit first, are the coefficients of a
    polynomial over two elements, and the register is what is left of it on division by the generator. */
module Remainder {
  import opened Words
  import opened Gray
  import opened Crc

  /** The coefficient of x^i in the product of `q` and x^16 + x^12 + x^5 + 1. */
  predicate TimesGenerator(q: Bits, i: int) { ((At(q, i - 16) != At(q, i - 12)) != At(q, i - 5)) != At(q, i) }

  /** `p` is `q` times the generator, and `r` over. */
  ghost predicate Divides(p: Bits, q: Bits, r: Bits) {
    forall i :: 0 <= i < |p| ==> p[i] == (TimesGenerator(q, i) != At(r, i))
  }

  /** A message and the all-ones register it starts from: byte `k` of `n` has its bit `j` at x^(8(n-1-k)+j+16), and
      the ones are the sixteen highest coefficients of all. */
  ghost predicate IsDividend(p: Bits, data: seq<u8>) {
    && |p| == 8 * |data| + 16
    && forall i :: 0 <= i < |p| ==>
         p[i] == ((i >= 8 * |data|) != (i >= 16 && BitOf(data[|data| - 1 - (i - 16) / 8], (i - 16) % 8)))
  }

  // ---------- one shift, one byte ----------

  /** One shift of the register is one step of the division. */
  lemma ShiftDivides(p: Bits, q: Bits, c: Register)
    requires Divides(p, q, c)
    ensures Divides([false] + p, [c[WIDTH - 1]] + q, Shifted(c))
  {
    var q' := [c[WIDTH - 1]] + q;
    forall i | 0 <= i <= |p|
      ensures ([false] + p)[i] == (TimesGenerator(q', i) != At(Shifted(c), i))
    {
      if i > 0 {
        assert p[i - 1] == (TimesGenerator(q, i - 1) != At(c, i - 1));
        assert forall k: int :: k != 0 ==> At(q', k) == At(q, k - 1);
      }
    }
  }

  lemma {:induction false} ShiftsDivide(p: Bits, q: Bits, c: Register, k: nat) returns (q': Bits)
    requires Divides(p, q, c)
    ensures |q'| == |q| + k && Divides(Zeros(k) + p, q', Shifts(c, k))
    decreases k
  {
    if k == 0 {
      q' := q;
      assert Zeros(0) + p == p;
    } else {
      ShiftDivides(p, q, c);
      q' := ShiftsDivide([false] + p, [c[WIDTH - 1]] + q, Shifted(c), k - 1);
      assert Zeros(k - 1) + ([false] + p) == Zeros(k) + p;
    }
  }

  /** A polynomial with a byte added at x^8. */
  function Added(p: Bits, byte: Bits): (r: Bits)
    requires |byte| == 8
    ensures |r| == |p| && forall i :: 0 <= i < |p| ==> r[i] == (p[i] != (8 <= i < 16 && byte[i - 8]))
  {
    seq(|p|, i requires 0 <= i < |p| => p[i] != (8 <= i < 16 && byte[i - 8]))
  }

  lemma AddedDivides(p: Bits, q: Bits, c: Register, byte: Bits)
    requires Divides(p, q, c) && |byte| == 8
    ensures Divides(Added(p, byte), q, Xor(c, Entering(byte)))
  {
  }

  // ---------- the whole message ----------

  lemma ByteBits(byte: u8)
    ensures forall j :: 0 <= j < 8 ==> Low(byte, 8)[j] == BitOf(byte, j)
  {
    forall j | 0 <= j < 8
      ensures Low(byte, 8)[j] == BitOf(byte, j)
    {
      LowIsBits(byte, 8, j);
    }
  }

  lemma ByteBefore(i: nat)
    requires i >= 24
    ensures (i - 24) / 8 == (i - 16) / 8 - 1 && (i - 24) % 8 == (i - 16) % 8
  {
  }

  lemma DividendGrows(p: Bits, data: seq<u8>, byte: u8)
    requires IsDividend(p, data)
    ensures IsDividend(Zeros(8) + Added(p, Low(byte, 8)), data + [byte])
  {
    var p', data' := Zeros(8) + Added(p, Low(byte, 8)), data + [byte];
    ByteBits(byte);
    forall i | 0 <= i < |p'|
      ensures p'[i] == ((i >= 8 * |data'|) != (i >= 16 && BitOf(data'[|data'| - 1 - (i - 16) / 8], (i - 16) % 8)))
    {
      if i >= 24 {
        ByteBefore(i);
        assert p'[i] == p[i - 8];
      } else if i >= 16 {
        assert (i - 16) / 8 == 0 && (i - 16) % 8 == i - 16;
        assert p'[i] == (p[i - 8] != BitOf(byte, i - 16));
      }
    }
  }

  /** What is left after dividing a message is the register. */
  lemma {:induction false} CrcDivides(data: seq<u8>) returns (p: Bits, q: Bits)
    ensures IsDividend(p, data) && |q| == 8 * |data| && Divides(p, q, Crc.Crc(Init(), data))
    decreases |data|
  {
    if data == [] {
      p, q := Init(), [];
    } else {
      var init, byte := data[..|data| - 1], data[|data| - 1];
      p, q := CrcDivides(init);
      assert data == init + [byte];
      CrcAppend(Init(), init, byte);
      DividendGrows(p, init, byte);
      var c, bits := Crc.Crc(Init(), init), Low(byte, 8);
      AddedDivides(p, q, c, bits);
      q := ShiftsDivide(Added(p, bits), q, Xor(c, Entering(bits)), 8);
      p := Zeros(8) + Added(p, bits);
    }
  }

  // ---------- there is only one remainder ----------

  lemma {:induction false} QuotientsAgree(p: Bits, q: Bits, r: Register, q': Bits, r': Register, k: nat)
    requires Divides(p, q, r) && Divides(p, q', r') && |q| == |q'| == |p| - WIDTH && k <= |q|
    ensures forall j :: k <= j < |q| ==> q[j] == q'[j]
    decreases |q| - k
  {
    if k < |q| {
      QuotientsAgree(p, q, r, q', r', k + 1);
      assert p[k + 16] == TimesGenerator(q, k + 16) == TimesGenerator(q', k + 16);
      assert forall j: int :: j > k ==> At(q, j) == At(q', j);
    }
  }

  lemma RemaindersAgree(p: Bits, q: Bits, r: Register, q': Bits, r': Register)
    requires Divides(p, q, r) && Divides(p, q', r') && |q| == |q'| == |p| - WIDTH
    ensures r == r'
  {
    QuotientsAgree(p, q, r, q', r', 0);
    assert q == q';
    forall i | 0 <= i < WIDTH
      ensures r[i] == r'[i]
    {
      assert p[i] == (TimesGenerator(q, i) != At(r, i)) && p[i] == (TimesGenerator(q, i) != At(r', i));
    }
  }

  lemma SameDividend(p: Bits, p': Bits, data: seq<u8>)
    requires IsDividend(p, data) && IsDividend(p', data)
    ensures p == p'
  {
  }

  /** Sixteen bits are the checksum of a message exactly when they are what is left of it on division by the
      generator. */
  lemma ChecksumIsRemainder(data: seq<u8>, p: Bits, r: Register)
    requires IsDividend(p, data)
    ensures Checksum(data) == Value(r) <==> exists q :: |q| == 8 * |data| && Divides(p, q, r)
  {
    var p', q' := CrcDivides(data);
    SameDividend(p, p', data);
    if Checksum(data) == Value(r) {
      ValueInjective(r, Crc.Crc(Init(), data));
      assert |q'| == 8 * |data| && Divides(p, q', r);
    }
    if q :| |q| == 8 * |data| && Divides(p, q, r) {
      RemaindersAgree(p, q, r, q', Crc.Crc(Init(), data));
    }
  }
}
