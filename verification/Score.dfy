/** A score as the sorted list of cues that plays it.

    Each note has a start and a release, neither naming a voice. They are sorted by sample, releases
    first where they share one, so that as long as every note is at least a sample long no prefix ever
    releases a step more often than it has been started: what `NoStuckNotes` asks for. */
module Score {
  import opened Words
  import opened Placement
  import opened NoStuckNotes
  import Voices

  /** A note's first sample and the sample it ends on, from the start of the piece, and its phase step. */
  datatype Note = Note(start: nat, end: nat, step: u32)

  /** One command, at one absolute sample. */
  datatype Cue = Cue(sample: int, command: Command)

  function On(n: Note, origin: int): Cue { Cue(origin + n.start, Command(OP_NOTE_ON, VOICE_ANY, n.step, 0)) }

  function Off(n: Note, origin: int): Cue { Cue(origin + n.end, Command(OP_NOTE_OFF, VOICE_ANY, n.step, 0)) }

  function Built(notes: seq<Note>, origin: int): seq<Cue> {
    if notes == [] then []
    else Built(notes[..|notes| - 1], origin) + [On(notes[|notes| - 1], origin), Off(notes[|notes| - 1], origin)]
  }

  /** The sort key: the sample, then releases before everything else. */
  predicate NotAfter(a: Cue, b: Cue) {
    a.sample < b.sample || (a.sample == b.sample && (a.command.opcode == OP_NOTE_OFF || b.command.opcode != OP_NOTE_OFF))
  }

  predicate InKeyOrder(cues: seq<Cue>) {
    forall i, j :: 0 <= i < j < |cues| ==> NotAfter(cues[i], cues[j])
  }

  /** A stable sort: each cue goes in after every cue whose key is no greater. */
  function Insert(cues: seq<Cue>, c: Cue): seq<Cue> {
    if cues == [] || NotAfter(cues[|cues| - 1], c) then cues + [c]
    else Insert(cues[..|cues| - 1], c) + [cues[|cues| - 1]]
  }

  function Sort(cues: seq<Cue>): seq<Cue> {
    if cues == [] then [] else Insert(Sort(cues[..|cues| - 1]), cues[|cues| - 1])
  }

  /** The score's cues, sorted. */
  method Cues(notes: seq<Note>, origin: int) returns (cues: seq<Cue>)
    ensures cues == Sort(Built(notes, origin))
  {
    var built := [];
    for i := 0 to |notes|
      invariant built == Built(notes[..i], origin)
    {
      assert notes[..i + 1][..i] == notes[..i];
      built := built + [On(notes[i], origin)];
      built := built + [Off(notes[i], origin)];
    }
    assert notes[..|notes|] == notes;
    cues := Sort(built);
  }

  // ---------- sorting ----------

  /** The cues are only rearranged. */
  lemma {:induction false} InsertIsPermutation(cues: seq<Cue>, c: Cue)
    ensures multiset(Insert(cues, c)) == multiset(cues) + multiset{c}
  {
    if cues != [] && !NotAfter(cues[|cues| - 1], c) {
      InsertIsPermutation(cues[..|cues| - 1], c);
      assert cues == cues[..|cues| - 1] + [cues[|cues| - 1]];
    }
  }

  lemma {:induction false} SortIsPermutation(cues: seq<Cue>)
    ensures multiset(Sort(cues)) == multiset(cues)
  {
    if cues != [] {
      SortIsPermutation(cues[..|cues| - 1]);
      InsertIsPermutation(Sort(cues[..|cues| - 1]), cues[|cues| - 1]);
      assert cues == cues[..|cues| - 1] + [cues[|cues| - 1]];
    }
  }

  lemma {:induction false} InsertKeepsOrder(cues: seq<Cue>, c: Cue)
    requires InKeyOrder(cues)
    ensures InKeyOrder(Insert(cues, c))
  {
    if cues != [] && !NotAfter(cues[|cues| - 1], c) {
      var init, last := cues[..|cues| - 1], cues[|cues| - 1];
      InsertKeepsOrder(init, c);
      InsertIsPermutation(init, c);
      forall i | 0 <= i < |Insert(init, c)|
        ensures NotAfter(Insert(init, c)[i], last)
      {
        assert Insert(init, c)[i] in multiset(Insert(init, c));
      }
    }
  }

  lemma {:induction false} SortSorts(cues: seq<Cue>)
    ensures InKeyOrder(Sort(cues))
  {
    if cues != [] {
      SortSorts(cues[..|cues| - 1]);
      InsertKeepsOrder(Sort(cues[..|cues| - 1]), cues[|cues| - 1]);
    }
  }

  /** The starts of the notes, and their ends. */
  function Starts(notes: seq<Note>, origin: int): seq<Cue> {
    seq(|notes|, i requires 0 <= i < |notes| =>
      Cue(origin + notes[i].start, Command(OP_NOTE_ON, VOICE_ANY, notes[i].step, 0)))
  }

  function Ends(notes: seq<Note>, origin: int): seq<Cue> {
    seq(|notes|, i requires 0 <= i < |notes| =>
      Cue(origin + notes[i].end, Command(OP_NOTE_OFF, VOICE_ANY, notes[i].step, 0)))
  }

  lemma StartsAndEndsGrow(notes: seq<Note>, origin: int)
    requires notes != []
    ensures var init, n := notes[..|notes| - 1], notes[|notes| - 1];
      && Starts(notes, origin) == Starts(init, origin) + [On(n, origin)]
      && Ends(notes, origin) == Ends(init, origin) + [Off(n, origin)]
  {
  }

  lemma PairAdded(built: seq<Cue>, starts: seq<Cue>, ends: seq<Cue>, on: Cue, off: Cue)
    requires multiset(built) == multiset(starts) + multiset(ends)
    ensures multiset(built + [on, off]) == multiset(starts + [on]) + multiset(ends + [off])
  {
  }

  lemma {:induction false} BuiltOfNotes(notes: seq<Note>, origin: int)
    ensures multiset(Built(notes, origin)) == multiset(Starts(notes, origin)) + multiset(Ends(notes, origin))
  {
    if notes != [] {
      var init, n := notes[..|notes| - 1], notes[|notes| - 1];
      BuiltOfNotes(init, origin);
      StartsAndEndsGrow(notes, origin);
      PairAdded(Built(init, origin), Starts(init, origin), Ends(init, origin), On(n, origin), Off(n, origin));
    }
  }

  /** The cues of a score are a start and an end for each note, at the note's own samples from the origin, and nothing
      else. */
  lemma CuesOfNotes(notes: seq<Note>, origin: int)
    ensures multiset(Sort(Built(notes, origin))) == multiset(Starts(notes, origin)) + multiset(Ends(notes, origin))
  {
    SortIsPermutation(Built(notes, origin));
    BuiltOfNotes(notes, origin);
  }

  predicate SameKey(a: Cue, b: Cue) {
    a.sample == b.sample && (a.command.opcode == OP_NOTE_OFF) == (b.command.opcode == OP_NOTE_OFF)
  }

  /** The cues that share a key, in the order they come. */
  function Ties(cues: seq<Cue>, key: Cue): seq<Cue> {
    if cues == [] then []
    else Ties(cues[..|cues| - 1], key) + if SameKey(cues[|cues| - 1], key) then [cues[|cues| - 1]] else []
  }

  lemma {:induction false} InsertIsStable(cues: seq<Cue>, c: Cue, key: Cue)
    ensures Ties(Insert(cues, c), key) == Ties(cues, key) + if SameKey(c, key) then [c] else []
  {
    if cues == [] || NotAfter(cues[|cues| - 1], c) {
      assert (cues + [c])[..|cues|] == cues;
    } else {
      var init := cues[..|cues| - 1];
      InsertIsStable(init, c, key);
      assert Insert(cues, c)[..|Insert(cues, c)| - 1] == Insert(init, c);
    }
  }

  /** The sort is stable: cues that share a key keep the order they were built in. */
  lemma {:induction false} SortIsStable(cues: seq<Cue>, key: Cue)
    ensures Ties(Sort(cues), key) == Ties(cues, key)
  {
    if cues != [] {
      SortIsStable(cues[..|cues| - 1], key);
      InsertIsStable(Sort(cues[..|cues| - 1]), cues[|cues| - 1], key);
    }
  }

  // ---------- counting ----------

  /** The cues of one kind for one step, up to a sample if one is given. */
  datatype Test = Test(opcode: u8, step: u32, upTo: Option<int>)

  predicate Passes(c: Cue, t: Test) {
    c.command.opcode == t.opcode && c.command.value == t.step && (t.upTo.Some? ==> c.sample <= t.upTo.value)
  }

  function Count(cues: seq<Cue>, t: Test): nat {
    if cues == [] then 0 else Count(cues[..|cues| - 1], t) + (if Passes(cues[|cues| - 1], t) then 1 else 0)
  }

  lemma {:induction false} CountAppend(p: seq<Cue>, q: seq<Cue>, t: Test)
    ensures Count(p + q, t) == Count(p, t) + Count(q, t)
  {
    if q == [] {
      assert p + q == p;
    } else {
      assert (p + q)[..|p + q| - 1] == p + q[..|q| - 1];
      CountAppend(p, q[..|q| - 1], t);
    }
  }

  lemma {:induction false} CountInsert(cues: seq<Cue>, c: Cue, t: Test)
    ensures Count(Insert(cues, c), t) == Count(cues, t) + if Passes(c, t) then 1 else 0
  {
    if cues != [] && !NotAfter(cues[|cues| - 1], c) {
      var init := cues[..|cues| - 1];
      CountInsert(init, c, t);
      assert Insert(cues, c)[..|Insert(cues, c)| - 1] == Insert(init, c);
    } else {
      assert (cues + [c])[..|cues|] == cues;
    }
  }

  lemma {:induction false} CountSort(cues: seq<Cue>, t: Test)
    ensures Count(Sort(cues), t) == Count(cues, t)
  {
    if cues != [] {
      CountSort(cues[..|cues| - 1], t);
      CountInsert(Sort(cues[..|cues| - 1]), cues[|cues| - 1], t);
    }
  }

  /** A note that has ended by a sample began before it. */
  lemma {:induction false} EndedHasBegun(notes: seq<Note>, origin: int, step: u32, at: int)
    requires forall n :: n in notes ==> n.start < n.end
    ensures Count(Built(notes, origin), Test(OP_NOTE_OFF, step, Some(at))) <=
            Count(Built(notes, origin), Test(OP_NOTE_ON, step, Some(at - 1)))
  {
    if notes != [] {
      var init, n := notes[..|notes| - 1], notes[|notes| - 1];
      EndedHasBegun(init, origin, step, at);
      CountPair(Built(init, origin), n, origin, Test(OP_NOTE_OFF, step, Some(at)));
      CountPair(Built(init, origin), n, origin, Test(OP_NOTE_ON, step, Some(at - 1)));
    }
  }

  lemma CountPair(cues: seq<Cue>, n: Note, origin: int, t: Test)
    ensures Count(cues + [On(n, origin), Off(n, origin)], t) ==
            Count(cues, t) + (if Passes(On(n, origin), t) then 1 else 0) + if Passes(Off(n, origin), t) then 1 else 0
  {
    CountAppend(cues, [On(n, origin)], t);
    CountAppend(cues + [On(n, origin)], [Off(n, origin)], t);
    CountOne(On(n, origin), t);
    CountOne(Off(n, origin), t);
    assert cues + [On(n, origin), Off(n, origin)] == cues + [On(n, origin)] + [Off(n, origin)];
  }

  lemma CountOne(c: Cue, t: Test)
    ensures Count([c], t) == if Passes(c, t) then 1 else 0
  {
    assert [c][..0] == [];
  }

  lemma {:induction false} EveryNoteEnds(notes: seq<Note>, origin: int, step: u32)
    ensures Count(Built(notes, origin), Test(OP_NOTE_OFF, step, None)) ==
            Count(Built(notes, origin), Test(OP_NOTE_ON, step, None))
  {
    if notes != [] {
      var init, n := notes[..|notes| - 1], notes[|notes| - 1];
      EveryNoteEnds(init, origin, step);
      CountPair(Built(init, origin), n, origin, Test(OP_NOTE_OFF, step, None));
      CountPair(Built(init, origin), n, origin, Test(OP_NOTE_ON, step, None));
    }
  }

  lemma {:induction false} AllEarly(p: seq<Cue>, opcode: u8, step: u32, at: int)
    requires forall c :: c in p && c.command.opcode == opcode ==> c.sample <= at
    ensures Count(p, Test(opcode, step, None)) == Count(p, Test(opcode, step, Some(at)))
  {
    if p != [] { AllEarly(p[..|p| - 1], opcode, step, at); }
  }

  lemma {:induction false} AllLate(p: seq<Cue>, opcode: u8, step: u32, at: int)
    requires forall c :: c in p && c.command.opcode == opcode ==> c.sample > at
    ensures Count(p, Test(opcode, step, Some(at))) == 0
  {
    if p != [] { AllLate(p[..|p| - 1], opcode, step, at); }
  }

  lemma {:induction false} FewerEarly(p: seq<Cue>, opcode: u8, step: u32, at: int)
    ensures Count(p, Test(opcode, step, Some(at))) <= Count(p, Test(opcode, step, None))
  {
    if p != [] { FewerEarly(p[..|p| - 1], opcode, step, at); }
  }

  lemma CountSplit(cues: seq<Cue>, k: nat, t: Test)
    requires k <= |cues|
    ensures Count(cues, t) == Count(cues[..k], t) + Count(cues[k..], t)
  {
    assert cues == cues[..k] + cues[k..];
    CountAppend(cues[..k], cues[k..], t);
  }

  lemma OrderAround(cues: seq<Cue>, k: nat)
    requires InKeyOrder(cues) && 0 < k <= |cues|
    ensures forall c :: c in cues[..k] ==> NotAfter(c, cues[k - 1]) || c == cues[k - 1]
    ensures forall c :: c in cues[k..] ==> NotAfter(cues[k - 1], c)
  {
  }

  /** A prefix releases a step no more often than all the cues do by its last sample ... */
  lemma PrefixReleases(cues: seq<Cue>, k: nat, step: u32)
    requires InKeyOrder(cues) && 0 < k <= |cues|
    ensures Count(cues[..k], Test(OP_NOTE_OFF, step, None)) <= Count(cues, Test(OP_NOTE_OFF, step, Some(cues[k - 1].sample)))
  {
    var p, q, at := cues[..k], cues[k..], cues[k - 1].sample;
    assert cues == p + q;
    OrderAround(cues, k);
    AllEarly(p, OP_NOTE_OFF, step, at);
    CountAppend(p, q, Test(OP_NOTE_OFF, step, Some(at)));
  }

  lemma LaterStarts(cues: seq<Cue>, k: nat, step: u32)
    requires InKeyOrder(cues) && 0 < k <= |cues|
    ensures Count(cues[k..], Test(OP_NOTE_ON, step, Some(cues[k - 1].sample - 1))) == 0
  {
    OrderAround(cues, k);
    AllLate(cues[k..], OP_NOTE_ON, step, cues[k - 1].sample - 1);
  }

  /** ... and starts it no less often than they do before that sample. */
  lemma PrefixStarts(cues: seq<Cue>, k: nat, step: u32)
    requires InKeyOrder(cues) && 0 < k <= |cues|
    ensures Count(cues, Test(OP_NOTE_ON, step, Some(cues[k - 1].sample - 1))) <= Count(cues[..k], Test(OP_NOTE_ON, step, None))
  {
    var at := cues[k - 1].sample;
    LaterStarts(cues, k, step);
    FewerEarly(cues[..k], OP_NOTE_ON, step, at - 1);
    CountSplit(cues, k, Test(OP_NOTE_ON, step, Some(at - 1)));
  }

  /** In key order, no prefix releases a step more often than it has started it. */
  lemma PrefixCovered(notes: seq<Note>, origin: int, k: nat, step: u32)
    requires EndsAfterBeginnings(notes, origin)
    requires k <= |Sort(Built(notes, origin))|
    ensures var p := Sort(Built(notes, origin))[..k];
      Count(p, Test(OP_NOTE_OFF, step, None)) <= Count(p, Test(OP_NOTE_ON, step, None))
  {
    if k > 0 {
      var built := Built(notes, origin);
      var cues := Sort(built);
      var at := cues[k - 1].sample;
      SortSorts(built);
      PrefixReleases(cues, k, step);
      PrefixStarts(cues, k, step);
      CountSort(built, Test(OP_NOTE_OFF, step, Some(at)));
      CountSort(built, Test(OP_NOTE_ON, step, Some(at - 1)));
    }
  }

  // ---------- the commands a score sends ----------

  function Commands(cues: seq<Cue>): (cs: seq<Command>)
    ensures |cs| == |cues| && forall i :: 0 <= i < |cues| ==> cs[i] == cues[i].command
  {
    seq(|cues|, i requires 0 <= i < |cues| => cues[i].command)
  }

  lemma {:induction false} CountIsTally(cues: seq<Cue>, opcode: u8, step: u32)
    ensures Tally(Commands(cues), opcode, step) == Count(cues, Test(opcode, step, None))
  {
    if cues != [] {
      CountIsTally(cues[..|cues| - 1], opcode, step);
      assert Commands(cues)[..|cues| - 1] == Commands(cues[..|cues| - 1]);
    }
  }

  /** Every score releases each step as often as it starts it. */
  lemma EndsEven(notes: seq<Note>, origin: int, step: u32)
    ensures var cs := Commands(Sort(Built(notes, origin))); Ons(cs, step) == Offs(cs, step)
  {
    var cues := Sort(Built(notes, origin));
    CountIsTally(cues, OP_NOTE_OFF, step);
    CountIsTally(cues, OP_NOTE_ON, step);
    CountSort(Built(notes, origin), Test(OP_NOTE_OFF, step, None));
    CountSort(Built(notes, origin), Test(OP_NOTE_ON, step, None));
    EveryNoteEnds(notes, origin, step);
  }

  /** For any score whose notes are at least a sample long, by every sample no more notes of a step have
      ended than had begun. */
  lemma LongNotesEndAfterBeginnings(notes: seq<Note>, origin: int)
    requires forall n :: n in notes ==> n.start < n.end
    ensures EndsAfterBeginnings(notes, origin)
  {
    forall step, at
      ensures Count(Built(notes, origin), Test(OP_NOTE_OFF, step, Some(at))) <=
              Count(Built(notes, origin), Test(OP_NOTE_ON, step, Some(at - 1)))
    {
      EndedHasBegun(notes, origin, step, at);
    }
  }

  /** Such a score's cues are balanced, and end with every note released. */
  lemma ScoreIsBalanced(notes: seq<Note>, origin: int)
    requires EndsAfterBeginnings(notes, origin)
    ensures Balanced(Commands(Sort(Built(notes, origin))))
    ensures forall step :: var cs := Commands(Sort(Built(notes, origin))); Ons(cs, step) == Offs(cs, step)
  {
    var cues := Sort(Built(notes, origin));
    var cs := Commands(cues);
    forall k | 0 <= k <= |cs|
      ensures Covered(cs[..k])
    {
      assert cs[..k] == Commands(cues[..k]);
      forall step
        ensures Offs(cs[..k], step) <= Ons(cs[..k], step)
      {
        PrefixCovered(notes, origin, k, step);
        CountIsTally(cues[..k], OP_NOTE_OFF, step);
        CountIsTally(cues[..k], OP_NOTE_ON, step);
      }
    }
    forall step
      ensures Ons(cs, step) == Offs(cs, step)
    {
      EndsEven(notes, origin, step);
    }
  }

  lemma {:induction false} BuiltIsUnplaced(notes: seq<Note>, origin: int)
    ensures forall c :: c in Built(notes, origin) ==> Unplaced(c.command)
  {
    if notes != [] { BuiltIsUnplaced(notes[..|notes| - 1], origin); }
  }

  lemma CuesAreUnplaced(notes: seq<Note>, origin: int)
    ensures forall c :: c in Commands(Sort(Built(notes, origin))) ==> Unplaced(c)
  {
    var built, cues := Built(notes, origin), Sort(Built(notes, origin));
    BuiltIsUnplaced(notes, origin);
    SortIsPermutation(built);
    forall i | 0 <= i < |cues|
      ensures Unplaced(cues[i].command)
    {
      assert cues[i] in multiset(cues);
      assert cues[i] in multiset(built);
    }
  }

  // ---------- exactly which scores are balanced ----------

  /** By every sample, no more notes of a step have ended than had begun before it. */
  ghost predicate EndsAfterBeginnings(notes: seq<Note>, origin: int) {
    forall step, at ::
      Count(Built(notes, origin), Test(OP_NOTE_OFF, step, Some(at))) <=
      Count(Built(notes, origin), Test(OP_NOTE_ON, step, Some(at - 1)))
  }

  /** The end of the last release at or before a sample. */
  function LastRelease(cues: seq<Cue>, at: int): (k: nat)
    ensures k <= |cues|
    ensures k > 0 ==> cues[k - 1].command.opcode == OP_NOTE_OFF && cues[k - 1].sample <= at
    ensures forall i :: k <= i < |cues| ==> cues[i].command.opcode == OP_NOTE_OFF ==> cues[i].sample > at
  {
    if cues == [] then 0
    else if cues[|cues| - 1].command.opcode == OP_NOTE_OFF && cues[|cues| - 1].sample <= at then |cues|
    else LastRelease(cues[..|cues| - 1], at)
  }

  /** Cut after the last release by `at`: every release by then is before the cut, and every start before
      the cut is before `at`. */
  lemma CutAtRelease(cues: seq<Cue>, step: u32, at: int)
    requires InKeyOrder(cues)
    ensures var p := cues[..LastRelease(cues, at)];
      && Count(cues, Test(OP_NOTE_OFF, step, Some(at))) == Count(p, Test(OP_NOTE_OFF, step, None))
      && Count(p, Test(OP_NOTE_ON, step, None)) <= Count(cues, Test(OP_NOTE_ON, step, Some(at - 1)))
  {
    var k := LastRelease(cues, at);
    var p, q := cues[..k], cues[k..];
    assert cues == p + q;
    forall c | c in p
      ensures c.command.opcode == OP_NOTE_OFF ==> c.sample <= at
      ensures c.command.opcode == OP_NOTE_ON ==> c.sample <= at - 1
    {
      var i :| 0 <= i < k && c == cues[i];
      if i < k - 1 { assert NotAfter(cues[i], cues[k - 1]); }
    }
    AllEarly(p, OP_NOTE_OFF, step, at);
    AllEarly(p, OP_NOTE_ON, step, at - 1);
    AllLate(q, OP_NOTE_OFF, step, at);
    CountAppend(p, q, Test(OP_NOTE_OFF, step, Some(at)));
    CountAppend(p, q, Test(OP_NOTE_ON, step, Some(at - 1)));
  }

  lemma BalancedEndsAfterBeginnings(notes: seq<Note>, origin: int)
    requires Balanced(Commands(Sort(Built(notes, origin))))
    ensures EndsAfterBeginnings(notes, origin)
  {
    var cues := Sort(Built(notes, origin));
    SortSorts(Built(notes, origin));
    forall step, at
      ensures Count(Built(notes, origin), Test(OP_NOTE_OFF, step, Some(at))) <=
              Count(Built(notes, origin), Test(OP_NOTE_ON, step, Some(at - 1)))
    {
      var k := LastRelease(cues, at);
      CutAtRelease(cues, step, at);
      assert Commands(cues)[..k] == Commands(cues[..k]);
      assert Covered(Commands(cues)[..k]) && Offs(Commands(cues[..k]), step) <= Ons(Commands(cues[..k]), step);
      CountIsTally(cues[..k], OP_NOTE_OFF, step);
      CountIsTally(cues[..k], OP_NOTE_ON, step);
      CountSort(Built(notes, origin), Test(OP_NOTE_OFF, step, Some(at)));
      CountSort(Built(notes, origin), Test(OP_NOTE_ON, step, Some(at - 1)));
    }
  }

  /** A score is balanced exactly when, by every sample, no more of its notes of a step have ended than
      had begun. */
  lemma BalancedIff(notes: seq<Note>, origin: int)
    ensures Balanced(Commands(Sort(Built(notes, origin)))) <==> EndsAfterBeginnings(notes, origin)
  {
    if EndsAfterBeginnings(notes, origin) {
      ScoreIsBalanced(notes, origin);
    }
    if Balanced(Commands(Sort(Built(notes, origin)))) {
      BalancedEndsAfterBeginnings(notes, origin);
    }
  }

  // ---------- exactly which scores end in silence ----------

  lemma SilentIsBalanced(notes: seq<Note>, origin: int)
    requires var cs := Commands(Sort(Built(notes, origin)));
      Uncrowded(cs) && Play(Voices.SILENT, cs).Queued? && Play(Voices.SILENT, cs).sounding == []
    ensures Balanced(Commands(Sort(Built(notes, origin))))
  {
    var cues := Sort(Built(notes, origin));
    var cs := Commands(cues);
    CuesAreUnplaced(notes, origin);
    forall step
      ensures Live(cs, step) == 0 && Ons(cs, step) == Offs(cs, step)
    {
      SoundsWhatIsHeld(cs, step);
      EndsEven(notes, origin, step);
    }
    NothingHeldIsBalanced(cs);
  }

  /** A score that never asks for more than eight notes at once ends in silence exactly when, by every
      sample, no more of its notes of a step have ended than had begun. (A score that asks for more may
      have a stuck note silenced by the note that steals its voice.) */
  lemma SilentIff(notes: seq<Note>, origin: int)
    requires Uncrowded(Commands(Sort(Built(notes, origin))))
    ensures var b := Play(Voices.SILENT, Commands(Sort(Built(notes, origin))));
      b.Queued? && (b.sounding == [] <==> EndsAfterBeginnings(notes, origin))
  {
    var cs := Commands(Sort(Built(notes, origin)));
    CuesAreUnplaced(notes, origin);
    SoundsWhatIsHeld(cs, 0);
    if EndsAfterBeginnings(notes, origin) {
      ScoreIsBalanced(notes, origin);
      NothingLeftSounding(cs);
    }
    if Play(Voices.SILENT, cs).sounding == [] {
      SilentIsBalanced(notes, origin);
      BalancedIff(notes, origin);
    }
  }

  const STUB := Note(0, 0, 7)

  lemma StubSortsBackwards()
    ensures !EndsAfterBeginnings([STUB], 0)
    ensures Sort(Built([STUB], 0)) == [Off(STUB, 0), On(STUB, 0)]
  {
    var off, on := Off(STUB, 0), On(STUB, 0);
    assert [STUB][..0] == [];
    assert Built([STUB], 0) == [on, off];
    CountPair([], STUB, 0, Test(OP_NOTE_OFF, 7, Some(0)));
    CountPair([], STUB, 0, Test(OP_NOTE_ON, 7, Some(-1)));
    assert [] + [on, off] == [on, off];
    assert [on, off][..1] == [on] && [on][..0] == [];
    assert Sort([on]) == [on];
    assert Insert([on], off) == Insert([], off) + [on];
  }

  /** A note that rounds to no length shows the condition matters: its release sorts before its start, so
      the firmware finds nothing to release and the note is left sounding. */
  lemma ZeroLengthNoteSticks()
    ensures !EndsAfterBeginnings([STUB], 0)
    ensures var b := Play(Voices.SILENT, Commands(Sort(Built([STUB], 0)))); b.Queued? && Playing(b.sounding, 7) == 1
  {
    StubSortsBackwards();
    var off, on := Off(STUB, 0).command, On(STUB, 0).command;
    var cs := Commands([Off(STUB, 0), On(STUB, 0)]);
    assert cs[..1] == [off] && [off][..0] == [];
    OffTakesOne(Voices.SILENT, off, 7);
    NoteGoesToTarget(Voices.SILENT, off);
    assert Play(Voices.SILENT, cs[..1]) == Voices.SILENT;
    OnAddsOne(Voices.SILENT, on, 7);
  }
}
