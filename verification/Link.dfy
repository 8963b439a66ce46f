/** From a list of commands to the words the firmware acts on, when nothing is lost on the way. */
module Link {
  import opened Words
  import opened Framing
  import opened FrameDecoding
  import opened Packing
  import opened Mailbox
  import opened Receiver

  // ---------- the firmware over a stream of words ----------

  datatype Done = Done(cpu: Cpu, commands: seq<Word>)

  function OneWord(w: Option<Word>): seq<Word> { if w.Some? then [w.value] else [] }

  function Consume(c: Cpu, words: seq<u16>): Done
    requires Sane(c)
    decreases |words|
  {
    if words == [] then Done(c, [])
    else
      var rest := Consume(Taken(c, words[0]), words[1..]);
      Done(rest.cpu, OneWord(Given(c, words[0])) + rest.commands)
  }

  lemma {:induction false} ConsumeSplit(c: Cpu, a: seq<u16>, b: seq<u16>)
    requires Sane(c)
    ensures var h := Consume(c, a);
      Sane(h.cpu) && (var k := Consume(h.cpu, b); Consume(c, a + b) == Done(k.cpu, h.commands + k.commands))
    decreases |a|
  {
    if a == [] {
      assert a + b == b;
      assert [] + Consume(c, b).commands == Consume(c, b).commands;
    } else {
      assert (a + b)[1..] == a[1..] + b;
      ConsumeSplit(Taken(c, a[0]), a[1..], b);
      var h := Consume(Taken(c, a[0]), a[1..]);
      var k := Consume(h.cpu, b);
      assert (OneWord(Given(c, a[0])) + h.commands) + k.commands == OneWord(Given(c, a[0])) + (h.commands + k.commands);
    }
  }

  /** Once a body has ended, or before there was one: whatever words come are passed over until one heads a body of
      commands, that is, has the marker and their type. */
  lemma {:induction false} StrayWordsPassedOver(c: Cpu, words: seq<u16>)
    requires Sane(c) && c.index >= c.length
    requires forall i :: 0 <= i < |words| ==> !(words[i] >= 0x8000 && words[i] % 0x100 == 0x01)
    ensures Consume(c, words) == Done(c, [])
    decreases |words|
  {
    if words != [] {
      assert !(words[0] >= 0x8000 && words[0] % 0x100 == 0x01);
      StrayWordsPassedOver(c, words[1..]);
      NothingFirst(Consume(c, words[1..]).commands);
    }
  }

  /** The rest of a command's bytes. */
  lemma {:induction false} CommandConsumed(c: Cpu, part: Bytes, rest: Bytes)
    requires Gathers(c, part) && rest != [] && |part| + |rest| == COMMAND_BYTES && c.index + |rest| <= c.length
    ensures var d := Consume(c, rest);
      d.commands == [WordOf(part + rest)] && Gathers(d.cpu, []) && d.cpu.length == c.length && d.cpu.index == c.index + |rest|
    decreases |rest|
  {
    if |rest| == 1 {
      LastTaken(c, part, rest[0]);
      assert rest == [rest[0]] && rest[1..] == [];
    } else {
      BodyTaken(c, part, rest[0]);
      CommandConsumed(Taken(c, rest[0]), part + [rest[0]], rest[1..]);
      assert part + [rest[0]] + rest[1..] == part + rest;
    }
  }

  function Carried(cs: seq<Command>): (ws: seq<Word>)
    ensures |ws| == |cs|
  {
    if cs == [] then [] else [Carry(cs[0])] + Carried(cs[1..])
  }

  /** The commands a list of words stands for are the ones that were sent. */
  lemma {:induction false} CarriedMeans(cs: seq<Command>, i: nat)
    requires i < |cs|
    ensures Meaning(Carried(cs)[i]) == cs[i]
  {
    CarryMeaning(cs[0], Carry(cs[0]));
    if i > 0 {
      CarriedMeans(cs[1..], i - 1);
    }
  }

  lemma {:induction false} CarriedSplit(a: seq<Command>, b: seq<Command>)
    ensures Carried(a + b) == Carried(a) + Carried(b)
  {
    if a == [] {
      assert a + b == b;
    } else {
      assert (a + b)[1..] == a[1..] + b;
      CarriedSplit(a[1..], b);
    }
  }

  lemma PackedWord(c: Command)
    ensures WordOf(Pack(c)) == Carry(c)
  {
    var w := Carry(c);
    assert Pack(c)[..4] == Split(w.lo) && Pack(c)[4..] == Split(w.hi);
    JoinSplit(w.lo);
    JoinSplit(w.hi);
  }

  lemma {:induction false} BodyConsumed(c: Cpu, cs: seq<Command>)
    requires Gathers(c, []) && c.index + |Packed(cs)| <= c.length
    ensures var d := Consume(c, Packed(cs)); d.commands == Carried(cs) && Sane(d.cpu)
    decreases |cs|
  {
    if cs != [] {
      var first := Pack(cs[0]);
      CommandConsumed(c, [], first);
      assert [] + first == first;
      PackedWord(cs[0]);
      ConsumeSplit(c, first, Packed(cs[1..]));
      BodyConsumed(Consume(c, first).cpu, cs[1..]);
    }
  }

  lemma FrameConsumed(c: Cpu, cs: seq<Command>)
    requires Sane(c) && |CommandPayload(cs)| <= MAX_PAYLOAD
    ensures var d := Consume(c, WordsOf(CommandPayload(cs), PKT_COMMANDS)); d.commands == Carried(cs) && Sane(d.cpu)
  {
    var p := CommandPayload(cs);
    var header := HeaderWord(PKT_COMMANDS, |p|);
    assert p[1..] == Packed(cs);
    HeaderTaken(c, |p|);
    assert ([header] + p[1..])[1..] == p[1..];
    BodyConsumed(Taken(c, header), cs);
    assert [] + Carried(cs) == Carried(cs);
  }

  function AllWords(ps: seq<Bytes>, kind: u8): seq<u16>
    requires forall p :: p in ps ==> 0 < |p| <= MAX_PAYLOAD
  {
    if ps == [] then [] else WordsOf(ps[0], kind) + AllWords(ps[1..], kind)
  }

  /** However a list of commands was split into frames, the firmware puts together the same list. */
  lemma {:induction false} PayloadsConsumed(c: Cpu, cs: seq<Command>)
    requires Sane(c)
    ensures forall p :: p in Payloads(cs) ==> 0 < |p| <= MAX_PAYLOAD
    ensures Consume(c, AllWords(Payloads(cs), PKT_COMMANDS)).commands == Carried(cs)
    decreases |cs|
  {
    forall p | p in Payloads(cs)
      ensures 0 < |p| <= MAX_PAYLOAD
    {
      PayloadsFit(cs, p);
    }
    if cs != [] {
      var end := EndOf(cs, 0);
      var first, rest := CommandPayload(cs[..end]), Payloads(cs[end..]);
      PayloadsUnfold([], cs, 0);
      assert cs[0..] == cs && cs[0..end] == cs[..end] && cs == cs[..end] + cs[end..];
      assert [] + [first] + rest == [first] + rest && [] + Payloads(cs) == Payloads(cs);
      assert Payloads(cs)[0] == first && Payloads(cs)[1..] == rest;
      FrameConsumed(c, cs[..end]);
      var words := WordsOf(first, PKT_COMMANDS);
      PayloadsConsumed(Consume(c, words).cpu, cs[end..]);
      ConsumeSplit(c, words, AllWords(rest, PKT_COMMANDS));
      CarriedSplit(cs[..end], cs[end..]);
    }
  }
}
