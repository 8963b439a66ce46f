/** The hardware decoder over a run of clocks: with bytes far enough apart no replay is ever disturbed, and
    what is released is every payload the reference returns, whole and in order. */
module DecoderRun {
  import opened Words
  import opened Framing
  import opened FrameDecoding
  import opened Lossless

  /** Everything a decoder releases over a run. */
  function Strobes(f: Flops, buffer: Bytes, rxs: seq<Option<u8>>, max: nat): seq<Strobe>
    decreases |rxs|
  {
    if rxs == [] then []
    else OneStrobe(Out(f, buffer)) + Strobes(Clocked(f, rxs[0], max), Stored(f, buffer, rxs[0]), rxs[1..], max)
  }

  function NextWait(rx: Option<u8>, gap: nat, wait: nat): nat {
    if rx.Some? then gap else if wait > 0 then wait - 1 else 0
  }

  /** Bytes with at least `gap` clocks between them, `wait` of them still to come before the first. */
  predicate Spaced(rxs: seq<Option<u8>>, gap: nat, wait: nat)
    decreases |rxs|
  {
    rxs == [] || ((rxs[0].Some? ==> wait == 0) && Spaced(rxs[1..], gap, NextWait(rxs[0], gap, wait)))
  }

  /** The clocks a run leaves to wait. */
  function WaitAfter(rxs: seq<Option<u8>>, gap: nat, wait: nat): nat
    decreases |rxs|
  {
    if rxs == [] then wait
    else WaitAfter(rxs[1..], gap, NextWait(rxs[0], gap, wait))
  }

  /** A replay under way ends before the next byte may come. */
  predicate DoneInTime(f: Flops, wait: nat) { f.state == DRAIN && f.index < f.length ==> f.length - f.index <= wait }

  /** Everything that holds along the run. */
  ghost predicate Running(f: Flops, buffer: Bytes, s: Rx, received: seq<Bytes>, strobes: seq<Strobe>, wait: nat) {
    Tracks(f, buffer, s) && Released(f, buffer, received, strobes) && DoneInTime(f, wait)
  }

  lemma ClockInTime(f: Flops, buffer: Bytes, s: Rx, rx: Option<u8>, max: nat, gap: nat, wait: nat)
    requires Tracks(f, buffer, s) && |buffer| == max <= gap && DoneInTime(f, wait)
    requires rx.Some? ==> wait == 0
    ensures Kept(f, rx) == rx
    ensures DoneInTime(Clocked(f, rx, max), NextWait(rx, gap, wait))
  {
  }

  lemma ClockRuns(f: Flops, buffer: Bytes, s: Rx, rx: Option<u8>, max: nat, gap: nat, wait: nat, received: seq<Bytes>, strobes: seq<Strobe>)
    requires Running(f, buffer, s, received, strobes, wait) && |buffer| == max <= gap
    requires (rx.Some? ==> wait == 0) && Allowed(s, rx)
    ensures Running(Clocked(f, rx, max), Stored(f, buffer, rx), After(s, rx, max), received + Returned(s, rx),
                    strobes + OneStrobe(Out(f, buffer)), NextWait(rx, gap, wait))
  {
    ClockInTime(f, buffer, s, rx, max, gap, wait);
    ClockTracks(f, buffer, s, rx, max);
    ClockReleases(f, buffer, s, rx, max, received, strobes);
  }

  /** Nothing the reference will return is empty. */
  predicate NoneEmpty(ps: seq<Bytes>) { forall p :: p in ps ==> p != [] }

  lemma HeededStep(s: Rx, rxs: seq<Option<u8>>, max: nat)
    requires rxs != [] && NoneEmpty(Heeded(s, rxs, max).payloads)
    ensures Allowed(s, rxs[0]) && NoneEmpty(Heeded(After(s, rxs[0], max), rxs[1..], max).payloads)
  {
    var first, rest := Returned(s, rxs[0]), Heeded(After(s, rxs[0], max), rxs[1..], max).payloads;
    assert forall p :: p in first || p in rest ==> p in first + rest;
    if rxs[0].Some? && Yield(s, rxs[0].value).Some? {
      assert Yield(s, rxs[0].value).value in first;
    }
  }

  lemma AtRest(f: Flops, buffer: Bytes, s: Rx, received: seq<Bytes>, strobes: seq<Strobe>)
    requires Running(f, buffer, s, received, strobes, 0)
    ensures strobes == Replays(received)
  {
    assert f.state != DRAIN;
  }

  /** Over any run of spaced bytes that ends with the decoder given time to finish, what is released is what
      had been released before and every payload the reference returns. */
  lemma {:induction false} RunReleases(f: Flops, buffer: Bytes, s: Rx, rxs: seq<Option<u8>>, max: nat, gap: nat, wait: nat,
                                       received: seq<Bytes>, strobes: seq<Strobe>)
    requires Running(f, buffer, s, received, strobes, wait) && |buffer| == max <= gap
    requires Spaced(rxs, gap, wait) && WaitAfter(rxs, gap, wait) == 0 && NoneEmpty(Heeded(s, rxs, max).payloads)
    ensures strobes + Strobes(f, buffer, rxs, max) == Replays(received + Heeded(s, rxs, max).payloads)
    decreases |rxs|
  {
    if rxs == [] {
      AtRest(f, buffer, s, received, strobes);
      assert strobes + [] == strobes && received + [] == received;
    } else {
      var rx, out := rxs[0], OneStrobe(Out(f, buffer));
      var g, stored, t := Clocked(f, rx, max), Stored(f, buffer, rx), After(s, rx, max);
      HeededStep(s, rxs, max);
      ClockRuns(f, buffer, s, rx, max, gap, wait, received, strobes);
      RunReleases(g, stored, t, rxs[1..], max, gap, NextWait(rx, gap, wait), received + Returned(s, rx), strobes + out);
      Associate(received, Returned(s, rx), Heeded(t, rxs[1..], max).payloads);
      Associate(strobes, out, Strobes(g, stored, rxs[1..], max));
    }
  }

  // ---------- from power-on ----------

  lemma {:induction false} SilenceWaits(rxs: seq<Option<u8>>, gap: nat, wait: nat, n: nat)
    requires Spaced(rxs, gap, wait) && gap <= n && wait <= n
    ensures Spaced(rxs + Silence(n), gap, wait) && WaitAfter(rxs + Silence(n), gap, wait) == 0
    decreases |rxs| + n
  {
    if rxs != [] {
      assert (rxs + Silence(n))[1..] == rxs[1..] + Silence(n);
      SilenceWaits(rxs[1..], gap, NextWait(rxs[0], gap, wait), n);
    } else {
      assert rxs + Silence(n) == Silence(n);
      OnlySilence(n, gap, wait);
    }
  }

  lemma {:induction false} OnlySilence(n: nat, gap: nat, wait: nat)
    requires wait <= n
    ensures Spaced(Silence(n), gap, wait) && WaitAfter(Silence(n), gap, wait) == 0
    decreases n
  {
    if n > 0 {
      assert Silence(n)[1..] == Silence(n - 1);
      OnlySilence(n - 1, gap, NextWait(None, gap, wait));
    }
  }

  /** From power-on, whatever bytes come spaced by at least a payload's length, and clocks enough after them:
      every payload of the reference is released, and nothing else. */
  lemma SpacedBytesAreReleased(rxs: seq<Option<u8>>, max: nat, gap: nat, n: nat)
    requires Spaced(rxs, gap, 0) && max <= gap <= n && NoneEmpty(Listen(Idle, BytesOf(rxs), max).payloads)
    ensures Strobes(PowerOn(), seq(max, _ => 0), rxs + Silence(n), max) == Replays(Listen(Idle, BytesOf(rxs), max).payloads)
  {
    var all, buffer: Bytes := rxs + Silence(n), seq(max, _ => 0);
    SilenceWaits(rxs, gap, 0, n);
    SilenceIsSkipped(Idle, all, max);
    BytesOfSilence(rxs, n);
    RunReleases(PowerOn(), buffer, Idle, all, max, gap, 0, [], []);
    var ps := Listen(Idle, BytesOf(rxs), max).payloads;
    assert [] + ps == ps && [] + Strobes(PowerOn(), buffer, all, max) == Strobes(PowerOn(), buffer, all, max);
  }

  lemma {:induction false} BytesOfSilence(rxs: seq<Option<u8>>, n: nat)
    ensures BytesOf(rxs + Silence(n)) == BytesOf(rxs)
    decreases |rxs| + n
  {
    if rxs != [] {
      assert (rxs + Silence(n))[1..] == rxs[1..] + Silence(n);
      BytesOfSilence(rxs[1..], n);
    } else if n > 0 {
      assert (rxs + Silence(n)) == Silence(n) && Silence(n)[1..] == [] + Silence(n - 1);
      BytesOfSilence([], n - 1);
    } else {
      assert rxs + Silence(n) == [];
    }
  }
}
