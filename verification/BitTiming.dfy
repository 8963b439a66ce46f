/** The serial line clock by clock: which level is on it at each clock of a byte, and at which clocks the receiver
    looks, whatever it finds there. */
module BitTiming {
  import opened Words
  import opened Gray
  import opened Uart

  // ---------- what is sent ----------

  lemma {:induction false} BlockAt(levels: seq<bool>, divisor: nat, j: nat, o: nat)
    requires j < |levels| && o < divisor
    ensures j * divisor + o < |Blocks(levels, divisor)| && Blocks(levels, divisor)[j * divisor + o] == levels[j]
    decreases j
  {
    if j > 0 {
      BlockAt(levels[1..], divisor, j - 1, o);
      OneLess(j - 1, divisor);
    }
  }

  lemma FramedAt(byte: u8, divisor: nat, j: nat, o: nat)
    requires j < 10 && o < divisor
    ensures At(Framed(Low(byte, 8), divisor), j * divisor + o) ==
            if j == 0 then false else if j == 9 then true else BitOf(byte, j - 1)
  {
    var levels := [false] + Low(byte, 8) + [true];
    BlockAt(levels, divisor, j, o);
    if 0 < j < 9 {
      assert levels[j] == Low(byte, 8)[j - 1];
      LowIsBits(byte, 8, j - 1);
    }
  }

  lemma AfterRest(line: seq<bool>, k: nat)
    ensures At([true] + line, 1 + k) == At(line, k)
  {
  }

  /** Clock `o` of bit time `j` of a byte requested at rest: a low start bit, the bits of the byte with the lowest
      first, and a high stop bit. */
  lemma ByteOnLine(t: Tx, divisor: nat, byte: u8, requests: seq<Option<u8>>, j: nat, o: nat)
    requires divisor > 0 && t.state == IDLE && |requests| == 10 * divisor && j < 10 && o < divisor
    ensures var line := Send(t, divisor, [Some(byte)] + requests).line;
      At(line, 1 + (j * divisor + o)) == if j == 0 then false else if j == 9 then true else BitOf(byte, j - 1)
  {
    ByteSent(t, divisor, byte, requests);
    FramedAt(byte, divisor, j, o);
    AfterRest(Framed(Low(byte, 8), divisor), j * divisor + o);
  }

  // ---------- what is received ----------

  /** The levels at the last clock of each of `n` bit times. */
  function Looks(levels: seq<bool>, divisor: nat, n: nat): (s: seq<bool>)
    requires divisor > 0 && |levels| == n * divisor
    ensures |s| == n
    decreases n
  {
    if n == 0 then []
    else
      OneLess(n - 1, divisor);
      [levels[divisor - 1]] + Looks(levels[divisor..], divisor, n - 1)
  }

  lemma {:induction false} LookAt(levels: seq<bool>, divisor: nat, n: nat, j: nat)
    requires divisor > 0 && |levels| == n * divisor && j < n
    ensures 0 < (j + 1) * divisor <= |levels| && Looks(levels, divisor, n)[j] == At(levels, (j + 1) * divisor - 1)
    decreases n
  {
    OneLess(n - 1, divisor);
    OneLess(j, divisor);
    if j > 0 {
      LookAt(levels[divisor..], divisor, n - 1, j - 1);
    }
  }

  lemma StopRead(r: Rx, divisor: nat, levels: seq<bool>)
    requires divisor >= 4 && r.state == STOP && r.counter == divisor - 1 && |levels| == divisor
    ensures var k := Receive(r, divisor, levels);
      k.rx.state == IDLE && k.bytes == if levels[divisor - 1] then [r.shift] else []
  {
    WaitsAndLooks(r, divisor, levels, divisor);
    assert levels[divisor..] == [];
    assert Receive(RxClocked(r.(counter := 0), divisor, levels[divisor - 1]), divisor, []).bytes == [];
  }

  /** The looks at the rest of a byte, and the looks after the first of them. */
  lemma LooksGoOn(levels: seq<bool>, divisor: nat, byte: Bits, k: nat, stop: bool)
    requires divisor > 0 && |byte| == 8 && k < 8 && |levels| == (9 - k) * divisor
    requires Looks(levels, divisor, 9 - k) == byte[k..] + [stop]
    ensures |levels| >= divisor && |levels[divisor..]| == (8 - k) * divisor && levels[divisor - 1] == byte[k]
    ensures Looks(levels[divisor..], divisor, 8 - k) == byte[k + 1..] + [stop]
  {
    OneLess(8 - k, divisor);
    var all := byte[k..] + [stop];
    assert all[0] == byte[k] && all[1..] == byte[k + 1..] + [stop];
    assert Looks(levels[divisor..], divisor, 8 - k) == Looks(levels, divisor, 9 - k)[1..];
  }

  lemma LastLook(levels: seq<bool>, divisor: nat, byte: Bits, stop: bool)
    requires divisor > 0 && |byte| == 8 && |levels| == 1 * divisor && Looks(levels, divisor, 1) == byte[8..] + [stop]
    ensures levels[divisor - 1] == stop
  {
    assert byte[8..] + [stop] == [stop];
    LookAt(levels, divisor, 1, 0);
  }

  lemma {:induction false} BitsRead(r: Rx, divisor: nat, levels: seq<bool>, byte: Bits, stop: bool)
    requires divisor >= 4 && r.state == DATA && r.counter == divisor - 1 && r.bit < 8 && Holds(r.shift, byte, r.bit)
    requires |levels| == (9 - r.bit) * divisor && Looks(levels, divisor, 9 - r.bit) == byte[r.bit..] + [stop]
    ensures var k := Receive(r, divisor, levels); k.rx.state == IDLE && k.bytes == if stop then [byte] else []
    decreases 8 - r.bit
  {
    LooksGoOn(levels, divisor, byte, r.bit, stop);
    var next, rest := RxClocked(r.(counter := 0), divisor, levels[divisor - 1]), levels[divisor..];
    WaitsAndLooks(r, divisor, levels, divisor);
    NothingFirst(Receive(next, divisor, rest).bytes);
    if r.bit == 7 {
      assert next.shift == byte;
      LastLook(rest, divisor, byte, stop);
      StopRead(next, divisor, rest);
    } else {
      BitsRead(next, divisor, rest, byte, stop);
    }
  }

  /** From rest, once the line has fallen: it is looked at half a bit time on, and if it is high again then nothing has
      begun. */
  lemma GlitchIsIgnored(r: Rx, divisor: nat, levels: seq<bool>)
    requires divisor >= 4 && r.state == IDLE && |levels| == divisor / 2 + 1 && !levels[0] && levels[divisor / 2]
    ensures Receive(r, divisor, levels).rx.state == IDLE && Receive(r, divisor, levels).bytes == []
  {
    var half, rest := divisor / 2, levels[1..];
    var r1 := RxClocked(r, divisor, levels[0]);
    WaitsAndLooks(r1, divisor, rest, half);
    assert rest[half..] == [];
    assert Receive(RxClocked(r1.(counter := 0), divisor, rest[half - 1]), divisor, []).bytes == [];
  }

  /** A list of levels, each that at the last clock of its bit time. */
  predicate Marks(s: seq<bool>, levels: seq<bool>, divisor: nat) {
    forall j :: 0 <= j < |s| ==> s[j] == At(levels, (j + 1) * divisor - 1)
  }

  lemma LooksMark(levels: seq<bool>, divisor: nat, n: nat)
    requires divisor > 0 && |levels| == n * divisor
    ensures Marks(Looks(levels, divisor, n), levels, divisor)
  {
    forall j | 0 <= j < n
      ensures Looks(levels, divisor, n)[j] == At(levels, (j + 1) * divisor - 1)
    {
      LookAt(levels, divisor, n, j);
    }
  }

  lemma OneList(s: seq<bool>, t: seq<bool>, levels: seq<bool>, divisor: nat)
    requires |s| == |t| && Marks(s, levels, divisor) && Marks(t, levels, divisor)
    ensures s == t
  {
  }

  lemma StartRead(r: Rx, divisor: nat, levels: seq<bool>)
    requires divisor >= 4 && r.state == IDLE && |levels| > divisor / 2 && !levels[0] && !levels[divisor / 2]
    ensures Receive(r, divisor, levels) ==
            Receive(Rx(DATA, divisor - 1, 0, Low(0, 8)), divisor, levels[divisor / 2 + 1..])
  {
    var half, rest := divisor / 2, levels[1..];
    WaitsAndLooks(RxClocked(r, divisor, levels[0]), divisor, rest, half);
    assert rest[half..] == levels[half + 1..];
    NothingFirst(Receive(Rx(DATA, divisor - 1, 0, Low(0, 8)), divisor, levels[half + 1..]).bytes);
    NothingFirst(Receive(RxClocked(r, divisor, levels[0]), divisor, rest).bytes);
  }

  lemma SameLook(levels: seq<bool>, divisor: nat, n: nat)
    requires 0 < n && |levels| > divisor / 2
    ensures At(levels[divisor / 2 + 1..], n - 1) == At(levels, divisor / 2 + n)
  {
  }

  lemma ByteMarks(levels: seq<bool>, divisor: nat, byte: Bits, stop: bool)
    requires |byte| == 8 && |levels| > divisor / 2 && divisor > 0
    requires forall j :: 0 <= j < 8 ==> byte[j] == At(levels, divisor / 2 + (j + 1) * divisor)
    requires stop == At(levels, divisor / 2 + 9 * divisor)
    ensures Marks(byte + [stop], levels[divisor / 2 + 1..], divisor)
  {
    forall j | 0 <= j < 9
      ensures (byte + [stop])[j] == At(levels[divisor / 2 + 1..], (j + 1) * divisor - 1)
    {
      OneLess(j, divisor);
      SameLook(levels, divisor, (j + 1) * divisor);
    }
  }

  /** If it is still low, it is looked at eight times more, a bit time apart, and each look is a bit of the byte, the
      lowest first; and a ninth time: the byte is delivered exactly when the line is high then. Between looks the line
      may do anything. */
  lemma ByteIsRead(r: Rx, divisor: nat, levels: seq<bool>, byte: Bits)
    requires divisor >= 4 && r.state == IDLE && |levels| == divisor / 2 + 1 + 9 * divisor
    requires !levels[0] && !levels[divisor / 2]
    requires |byte| == 8
    requires forall j :: 0 <= j < 8 ==> byte[j] == At(levels, divisor / 2 + (j + 1) * divisor)
    ensures var k := Receive(r, divisor, levels);
      k.rx.state == IDLE && k.bytes == if levels[divisor / 2 + 9 * divisor] then [byte] else []
  {
    var data, stop := levels[divisor / 2 + 1..], levels[divisor / 2 + 9 * divisor];
    StartRead(r, divisor, levels);
    ByteMarks(levels, divisor, byte, stop);
    LooksMark(data, divisor, 9);
    OneList(Looks(data, divisor, 9), byte + [stop], data, divisor);
    assert byte[0..] == byte;
    ZeroHolds(byte);
    BitsRead(Rx(DATA, divisor - 1, 0, Low(0, 8)), divisor, data, byte, stop);
  }
}
