/** Scheduler and voices together: from the commands a FIFO gives to the samples they are heard in. */
module Synth {
  import opened Words
  import opened Engine
  import opened Voicing
  import opened VoiceWalk

  /** What the scheduler brings to each strobe from `at` on, `gaps` being the clocks of each walk and the
      rest after it. */
  function Beats(r: Registers, fifo: seq<Supply>, at: nat, gaps: seq<nat>): (bs: seq<Beat>)
    ensures |bs| == |gaps| && forall i :: 0 <= i < |gaps| ==> bs[i].clocks == gaps[i]
    decreases |gaps|
  {
    if gaps == [] then []
    else
      var head := Showing(fifo, at);
      var rest := if Takes(r) && head.Some? then fifo[1..] else fifo;
      [Beat(if r.valid && r.delay == 0 then Some(r.holding) else None, gaps[0])]
      + Beats(Strobe(r, head), rest, at + 1, gaps[1..])
  }

  /** A log of applied commands laid out strobe by strobe. */
  function Timeline(log: seq<Applied>, at: nat, gaps: seq<nat>): seq<Beat>
    decreases |gaps|
  {
    if gaps == [] then []
    else if log != [] && log[0].at == at then [Beat(Some(log[0].command), gaps[0])] + Timeline(log[1..], at + 1, gaps[1..])
    else [Beat(None, gaps[0])] + Timeline(log, at + 1, gaps[1..])
  }

  /** A command is brought to the very strobe the law gives it. */
  lemma {:induction false} BeatsFollowLaw(r: Registers, fifo: seq<Supply>, at: nat, gaps: seq<nat>)
    ensures Beats(r, fifo, at, gaps) == Timeline(Pending(r, fifo, at), at, gaps)
    decreases |gaps|
  {
    if gaps != [] {
      var head := Showing(fifo, at);
      var rest := if Takes(r) && head.Some? then fifo[1..] else fifo;
      var next := Pending(Strobe(r, head), rest, at + 1);
      StrobeFollowsLaw(r, fifo, at);
      BeatsFollowLaw(Strobe(r, head), rest, at + 1, gaps[1..]);
      if r.valid && r.delay == 0 {
        assert Pending(r, fifo, at)[1..] == next;
      } else {
        assert [] + next == next;
      }
    }
  }

  /** From an idle scheduler and a quiet bank: every sample is what the engine means it to be, with each
      command taking effect in the sample the law of delays gives it and in no other. */
  lemma SynthPlaysTheLaw(r: Registers, fifo: seq<Supply>, b: Bank, tables: Tables, gaps: seq<nat>)
    requires !r.valid && Runnable(b) && Quiet(b)
    requires forall k :: k in gaps ==> k >= 2 * |b.engine.voices|
    ensures Performed(b, tables, Beats(r, fifo, 0, gaps)).engine == Meant(b.engine, tables, Timeline(Law(fifo, 0), 0, gaps))
  {
    BeatsFollowLaw(r, fifo, 0, gaps);
    var bs := Beats(r, fifo, 0, gaps);
    forall t | t in bs
      ensures t.clocks >= 2 * |b.engine.voices|
    {
      var i :| 0 <= i < |bs| && bs[i] == t;
      assert gaps[i] in gaps;
    }
    PerformanceIsMeant(b, tables, Beats(r, fifo, 0, gaps));
  }
}
