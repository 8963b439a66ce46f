/** When nothing is stolen: a score asks for no more voices than there are exactly when no more than
    eight of its notes ever overlap, and then every note sounds for as long as it was written. */
module Polyphony {
  import opened Words
  import opened Voices
  import opened Placement
  import opened NoStuckNotes
  import opened Score
  import Schedule
  import S = Streaming

  function Sign(c: Cue): int {
    if c.command.opcode == OP_NOTE_ON then 1 else -1
  }

  /** What a cue counts for, if it is not after a sample given. */
  function Weight(c: Cue, upTo: Option<int>): int { if upTo.Some? && c.sample > upTo.value then 0 else Sign(c) }

  /** Starts less releases, up to a sample if one is given. */
  function Net(cues: seq<Cue>, upTo: Option<int>): int {
    if cues == [] then 0
    else Net(cues[..|cues| - 1], upTo) + Weight(cues[|cues| - 1], upTo)
  }

  lemma {:induction false} NetAppend(p: seq<Cue>, q: seq<Cue>, upTo: Option<int>)
    ensures Net(p + q, upTo) == Net(p, upTo) + Net(q, upTo)
  {
    if q == [] {
      assert p + q == p;
    } else {
      assert (p + q)[..|p + q| - 1] == p + q[..|q| - 1];
      NetAppend(p, q[..|q| - 1], upTo);
    }
  }

  lemma NetOne(c: Cue, upTo: Option<int>)
    ensures Net([c], upTo) == Weight(c, upTo)
  {
    assert [c][..0] == [];
  }

  lemma {:induction false} NetInsert(cues: seq<Cue>, c: Cue, upTo: Option<int>)
    ensures Net(Insert(cues, c), upTo) == Net(cues, upTo) + Weight(c, upTo)
  {
    if cues != [] && !NotAfter(cues[|cues| - 1], c) {
      var init := cues[..|cues| - 1];
      NetInsert(init, c, upTo);
      assert Insert(cues, c)[..|Insert(cues, c)| - 1] == Insert(init, c);
    } else {
      assert (cues + [c])[..|cues|] == cues;
    }
  }

  lemma {:induction false} NetSort(cues: seq<Cue>, upTo: Option<int>)
    ensures Net(Sort(cues), upTo) == Net(cues, upTo)
  {
    if cues != [] {
      NetSort(cues[..|cues| - 1], upTo);
      NetInsert(Sort(cues[..|cues| - 1]), cues[|cues| - 1], upTo);
    }
  }

  /** How many notes sound at a sample of the piece. */
  function Overlap(notes: seq<Note>, at: int): nat {
    if notes == [] then 0
    else
      var n := notes[|notes| - 1];
      Overlap(notes[..|notes| - 1], at) + if n.start <= at < n.end then 1 else 0
  }

  /** No more than eight notes sound at any sample. */
  ghost predicate FitsVoices(notes: seq<Note>) { forall at: int :: Overlap(notes, at) <= VOICE_COUNT }

  /** Counting starts and releases up to a sample counts the notes that sound there. */
  lemma {:induction false} NetIsOverlap(notes: seq<Note>, origin: int, at: int)
    requires forall n :: n in notes ==> n.start <= n.end
    ensures Net(Built(notes, origin), Some(origin + at)) == Overlap(notes, at)
  {
    if notes != [] {
      var init, n := notes[..|notes| - 1], notes[|notes| - 1];
      NetIsOverlap(init, origin, at);
      var on, off := On(n, origin), Off(n, origin);
      assert [on, off] == [on] + [off];
      NetAppend([on], [off], Some(origin + at));
      NetOne(on, Some(origin + at));
      NetOne(off, Some(origin + at));
      NetAppend(Built(init, origin), [on, off], Some(origin + at));
    }
  }

  lemma {:induction false} NetOfEarly(p: seq<Cue>, at: int)
    requires forall c :: c in p ==> c.sample <= at
    ensures Net(p, None) == Net(p, Some(at))
  {
    if p != [] {
      NetOfEarly(p[..|p| - 1], at);
    }
  }

  /** What comes later and is no release by then only adds. */
  lemma {:induction false} OnlyAdds(q: seq<Cue>, at: int)
    requires forall c :: c in q && c.sample <= at ==> c.command.opcode == OP_NOTE_ON
    ensures Net(q, Some(at)) >= 0
  {
    if q != [] {
      OnlyAdds(q[..|q| - 1], at);
    }
  }

  lemma {:induction false} NetOfLate(q: seq<Cue>, at: int)
    requires forall c :: c in q ==> c.sample > at
    ensures Net(q, Some(at)) == 0
  {
    if q != [] {
      NetOfLate(q[..|q| - 1], at);
    }
  }

  predicate OnlyNotes(cues: seq<Cue>) {
    forall c :: c in cues ==> c.command.opcode == OP_NOTE_ON || c.command.opcode == OP_NOTE_OFF
  }

  lemma {:induction false} BuiltIsNotes(notes: seq<Note>, origin: int)
    ensures OnlyNotes(Built(notes, origin))
  {
    if notes != [] {
      BuiltIsNotes(notes[..|notes| - 1], origin);
    }
  }

  lemma SortedIsNotes(notes: seq<Note>, origin: int)
    ensures OnlyNotes(Sort(Built(notes, origin)))
  {
    var built := Built(notes, origin);
    SortIsPermutation(built);
    BuiltIsNotes(notes, origin);
    forall c | c in Sort(built)
      ensures c.command.opcode == OP_NOTE_ON || c.command.opcode == OP_NOTE_OFF
    {
      assert c in multiset(Sort(built));
    }
  }

  lemma EarlierIsEarlier(cues: seq<Cue>, k: nat, c: Cue)
    requires InKeyOrder(cues) && 0 < k <= |cues| && c in cues[..k]
    ensures c.sample <= cues[k - 1].sample
  {
    var i :| 0 <= i < k && c == cues[i];
    if i < k - 1 {
      assert NotAfter(cues[i], cues[k - 1]);
    }
  }

  /** Of cues in order, those up to a start count for no more than all by its sample. */
  lemma StartSplits(cues: seq<Cue>, k: nat)
    requires InKeyOrder(cues) && 0 < k <= |cues| && cues[k - 1].command.opcode == OP_NOTE_ON
    requires OnlyNotes(cues)
    ensures Net(cues[..k], None) <= Net(cues, Some(cues[k - 1].sample))
  {
    var p, q, last := cues[..k], cues[k..], cues[k - 1];
    assert cues == p + q;
    forall c | c in p
      ensures c.sample <= last.sample
    {
      EarlierIsEarlier(cues, k, c);
    }
    forall c | c in q && c.sample <= last.sample
      ensures c.command.opcode == OP_NOTE_ON
    {
      var i :| k <= i < |cues| && c == cues[i];
      assert NotAfter(last, cues[i]);
    }
    NetOfEarly(p, last.sample);
    OnlyAdds(q, last.sample);
    NetAppend(p, q, Some(last.sample));
  }

  lemma SortedIsOverlap(notes: seq<Note>, origin: int, at: int, sample: int)
    requires (forall n :: n in notes ==> n.start <= n.end) && sample == origin + at
    ensures Net(Sort(Built(notes, origin)), Some(sample)) == Overlap(notes, at)
  {
    NetSort(Built(notes, origin), Some(sample));
    NetIsOverlap(notes, origin, at);
  }

  /** A prefix that ends in a start asks for no more notes than sound at that sample. */
  lemma StartIsOverlap(notes: seq<Note>, origin: int, cues: seq<Cue>, k: nat, at: int)
    requires (forall n :: n in notes ==> n.start <= n.end) && cues == Sort(Built(notes, origin))
    requires 0 < k <= |cues| && cues[k - 1].command.opcode == OP_NOTE_ON && cues[k - 1].sample == origin + at
    ensures Net(cues[..k], None) <= Overlap(notes, at)
  {
    SortSorts(Built(notes, origin));
    SortedIsNotes(notes, origin);
    StartSplits(cues, k);
    SortedIsOverlap(notes, origin, at, cues[k - 1].sample);
  }

  /** The cues up to a sample. */
  function UpTo(cues: seq<Cue>, at: int): (k: nat)
    ensures k <= |cues|
    ensures k > 0 ==> cues[k - 1].sample <= at
    ensures forall i :: k <= i < |cues| ==> cues[i].sample > at
  {
    if cues == [] then 0
    else if cues[|cues| - 1].sample <= at then |cues|
    else UpTo(cues[..|cues| - 1], at)
  }

  lemma UpToSplits(cues: seq<Cue>, at: int)
    requires InKeyOrder(cues)
    ensures Net(cues[..UpTo(cues, at)], None) == Net(cues, Some(at))
  {
    var k := UpTo(cues, at);
    var p, q := cues[..k], cues[k..];
    assert cues == p + q;
    forall c | c in p
      ensures c.sample <= at
    {
      EarlierIsEarlier(cues, k, c);
    }
    NetOfEarly(p, at);
    NetOfLate(q, at);
    NetAppend(p, q, Some(at));
  }

  /** Some prefix asks for exactly the notes that sound at a sample. */
  lemma OverlapIsPrefix(notes: seq<Note>, origin: int, at: int, sample: int)
    requires (forall n :: n in notes ==> n.start <= n.end) && sample == origin + at
    ensures var cues := Sort(Built(notes, origin)); Net(cues[..UpTo(cues, sample)], None) == Overlap(notes, at)
  {
    var cues := Sort(Built(notes, origin));
    SortSorts(Built(notes, origin));
    UpToSplits(cues, sample);
    SortedIsOverlap(notes, origin, at, sample);
  }

  lemma {:induction false} HeldIsNet(cues: seq<Cue>)
    ensures Held(Commands(cues)) == Net(cues, None)
  {
    if cues != [] {
      HeldIsNet(cues[..|cues| - 1]);
      assert Commands(cues)[..|cues| - 1] == Commands(cues[..|cues| - 1]);
    }
  }

  lemma HeldByPrefix(cues: seq<Cue>, k: nat)
    requires k <= |cues|
    ensures Held(Commands(cues)[..k]) == Net(cues[..k], None)
  {
    assert Commands(cues)[..k] == Commands(cues[..k]);
    HeldIsNet(cues[..k]);
  }

  lemma {:induction false} NetStaysDown(notes: seq<Note>, origin: int, k: nat, most: nat)
    requires (forall n :: n in notes ==> n.start <= n.end) && forall at: int :: Overlap(notes, at) <= most
    requires k <= |Sort(Built(notes, origin))|
    ensures Net(Sort(Built(notes, origin))[..k], None) <= most
    decreases k
  {
    if k > 0 {
      var cues := Sort(Built(notes, origin));
      assert cues[..k][..k - 1] == cues[..k - 1];
      if cues[k - 1].command.opcode == OP_NOTE_ON {
        StartIsOverlap(notes, origin, cues, k, cues[k - 1].sample - origin);
      } else {
        NetStaysDown(notes, origin, k - 1, most);
      }
    }
  }

  lemma FewOverlapsAreRoomy(notes: seq<Note>, origin: int)
    requires (forall n :: n in notes ==> n.start <= n.end) && FitsVoices(notes)
    ensures Roomy(Commands(Sort(Built(notes, origin))))
  {
    var cues := Sort(Built(notes, origin));
    var cs := Commands(cues);
    forall n | 0 <= n <= |cs|
      ensures Held(cs[..n]) <= VOICE_COUNT
    {
      HeldByPrefix(cues, n);
      NetStaysDown(notes, origin, n, VOICE_COUNT);
    }
  }

  lemma RoomyHeld(cs: seq<Command>, k: nat)
    requires Roomy(cs) && k <= |cs|
    ensures Held(cs[..k]) <= VOICE_COUNT
  {
  }

  lemma RoomyOverlapsFew(notes: seq<Note>, origin: int, at: int)
    requires (forall n :: n in notes ==> n.start <= n.end) && Roomy(Commands(Sort(Built(notes, origin))))
    ensures Overlap(notes, at) <= VOICE_COUNT
  {
    var cues := Sort(Built(notes, origin));
    var sample := origin + at;
    var k := UpTo(cues, sample);
    OverlapIsPrefix(notes, origin, at, sample);
    HeldByPrefix(cues, k);
    RoomyHeld(Commands(cues), k);
  }

  lemma RoomyMeansFew(notes: seq<Note>, origin: int)
    requires (forall n :: n in notes ==> n.start <= n.end) && Roomy(Commands(Sort(Built(notes, origin))))
    ensures FitsVoices(notes)
  {
    forall at: int
      ensures Overlap(notes, at) <= VOICE_COUNT
    {
      RoomyOverlapsFew(notes, origin, at);
    }
  }

  /** A score asks for no more than eight voices at once exactly when no more than eight of its notes
      overlap at any sample. */
  lemma RoomyIff(notes: seq<Note>, origin: int)
    requires forall n :: n in notes ==> n.start <= n.end
    ensures Roomy(Commands(Sort(Built(notes, origin)))) <==> FitsVoices(notes)
  {
    if Roomy(Commands(Sort(Built(notes, origin)))) {
      RoomyMeansFew(notes, origin);
    }
    if FitsVoices(notes) {
      FewOverlapsAreRoomy(notes, origin);
    }
  }

  // ---------- from the score to the voices ----------

  lemma {:induction false} DelaysDoNotHold(cs: seq<Command>, ds: seq<Command>)
    requires |cs| == |ds| && forall i :: 0 <= i < |cs| ==> cs[i] == ds[i].(delay := cs[i].delay)
    ensures Held(cs) == Held(ds)
  {
    if cs != [] {
      DelaysDoNotHold(cs[..|cs| - 1], ds[..|ds| - 1]);
    }
  }

  lemma PlacedIsRoomy(notes: seq<Note>, origin: int, placed: seq<Command>)
    requires Roomy(Commands(Sort(Built(notes, origin)))) && S.Follows(placed, Sort(Built(notes, origin)))
    ensures Roomy(placed)
  {
    var cs := Commands(Sort(Built(notes, origin)));
    forall n | 0 <= n <= |placed|
      ensures Held(placed[..n]) <= VOICE_COUNT
    {
      DelaysDoNotHold(placed[..n], cs[..n]);
      assert Held(cs[..n]) <= VOICE_COUNT;
    }
  }

  /** For any score in which no release comes before its start and no more than eight notes ever overlap,
      under every interleaving of the player, the link and the firmware's clock: at any moment each step
      sounds on exactly as many voices as the cues played so far ask for, and the voices sounding are as
      many as the notes held. */
  lemma NotesSoundEndToEnd(notes: seq<Note>, origin: u32, now: int, limit: int, lookahead: int, moves: seq<S.Move>, step: u32)
    requires S.Carried(notes, origin) && EndsAfterBeginnings(notes, origin) && forall n :: n in notes ==> n.start <= n.end
    requires FitsVoices(notes)
    requires 0 <= limit <= Schedule.SCHEDULE_ENTRIES && 0 <= lookahead < TWO31
    requires S.Possible(ByQueues(), S.Begin(ByQueues(), notes, origin, now), limit, lookahead, moves)
    ensures var sys := S.Run(ByQueues(), S.Begin(ByQueues(), notes, origin, now), limit, lookahead, moves);
      && sys.fw.bank.Queued?
      && Playing(sys.fw.bank.sounding, step) == Ons(sys.placed, step) - Offs(sys.placed, step)
      && |sys.fw.bank.sounding| == Held(sys.placed)
  {
    var a := ByQueues();
    var begin := S.Begin(a, notes, origin, now);
    S.BeginHolds(a, notes, origin, now, limit, lookahead);
    S.RunKeepsInv(a, begin, limit, lookahead, moves);
    var sys := S.Run(a, begin, limit, lookahead, moves);
    S.PlacedScore(notes, origin, sys.placed);
    S.PlayAllIsPlay(sys.placed);
    RoomyIff(notes, origin);
    PlacedIsRoomy(notes, origin, sys.placed);
    ExactlyAsAsked(sys.placed, step);
  }
}
