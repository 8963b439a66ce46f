# Xsynth: the command path, modelled and proved

Xsynth plays a score from a host on an FPGA synthesiser. A note passes through a player that streams
commands, a framed serial link, firmware that gives it a voice and a moment, a queue between two clock
domains, and an engine that works through its voices one at a time. Each stage is a small
state machine. This project models each of them in Dafny, gives each a simple specification, and proves
that the machine meets it and that the stages fit together.

## How it is laid out

Each stage has a specification made of functions and values, and, where the source updates state in
place, a class whose methods are proved against that specification.

| stage | modules | what is established |
|---|---|---|
| words | `Words` | 32-bit counters, the order of wrapped stamps, the 64-bit command and its halves |
| allocator | `Voices`, `Ages`, `Placement`, `FirmwareRefines` | voices chosen by wrapping age stamps are the voices two queues would choose |
| schedule | `Schedule`, `Simulation`, `Conservation`, `Timing` | the ring of timed events as a bounded queue; where every event lands |
| firmware | `Control` | the allocator and the ring over arrays, with the source's scans and loops |
| notes | `Score`, `NoStuckNotes`, `Player`, `Streaming`, `Polyphony`, `Punctual`, `FirmwarePlays` | no note is left sounding, cut short or misplaced, from the score to the firmware's voices |
| engine timing | `Engine`, `FirmwareToEngine`, `EngineRuns` | delays turned back into samples, and set against the firmware's reckoning, over any run |
| voices | `Envelope`, `Mix`, `Voicing`, `VoiceWalk`, `Synth`, `Settings` | the clocked walk is one sample of the intended engine; what each command does to the sound |
| from end to end | `Shadow`, `EveryVoice`, `ScoreToEngine` | the engine's voices are in the phases the firmware has them in; a setting reaches the voices meant; a score is played, each cue in its window |
| clock crossing | `Gray`, `Crossing`, `FifoState`, `Fifo`, `Arrivals`, `Feeding`, `SampleCounting`, `CoProcessor` | the queue, its flags, what goes in and what the scheduler takes out, and the sample count read across domains |
| link | `Crc`, `Remainder`, `Framing`, `FrameDecoding`, `DecoderRun`, `FrameSending`, `Uart`, `BitTiming` | checksum, reference and hardware framing, bit timing |
| mailbox | `Packing`, `Mailbox`, `Receiver`, `Link`, `Lossless`, `SerialLink`, `Loss` | commands as bytes, words and commands again, with and without loss |

The schedule is written over any allocator (`Schedule.Allocator`), so that the stamped allocator of the
firmware and the queues it stands for run the same ring; a whole run of one is then compared with a whole
run of the other. Wrapping counters are modelled at their width, and set against unbounded ghost counts
and times. Hardware registers that a width can overflow are truncated explicitly, and shown not to, all but the sum of
the envelope's attack, which can wrap.

## What the proofs bring out

- **Notes that round to no length stick.** A score may hold a note of zero duration, and releases sort
  before starts at one sample, so such a note's release comes first and finds nothing
  (`Score.ZeroLengthNoteSticks`). A score that never asks for more than eight notes at once ends in silence
  exactly when, by every sample, no more of its notes of a step have ended than had begun
  (`Score.SilentIff`). Notes of at least one sample always meet that condition, and it is enough for any
  score; but one that asks for more may break it and still end in silence, the stuck note silenced by the
  note that steals its voice.
- **Age stamps order notes only within half a wrap.** Of two notes of a step less than a whole wrap apart, a
  release goes to the earlier one exactly when they are less than half a wrap apart, or just half a wrap when
  the later one is on the lower voice (`Ages.EarlierReleasedIff`). Commands alone can take the firmware past
  that: after a note on voice 1 and `n` of the same step on voice 0, less than a wrap of them, the firmware
  releases voice 1 exactly when `n` is at most half a wrap (`FirmwareRefines.RightReleaseIff`).
- **A delay of zero costs a sample**, as a delay of one does, so the engine runs late against the
  firmware's chain by one sample for every zero delay (`Engine.Lateness`).
- **A reset can leave a voice sounding.** The comment beside it promises idle voices whenever it comes. They
  are idle exactly when it does not come while the walk is writing back a voice whose envelope is still
  moving, nor as a note waiting for that slot is applied (`VoiceWalk.ResetSilencesIff`). From power-on, a
  strobe, a note, a clock and a reset leave the voice at its loudest (`VoiceWalk.ResetRevives`). That takes a
  command applied during the walk. The scheduler applies one only on the clock after a strobe, before the walk
  has begun, so with strobes 2N+2 clocks apart (`VoiceWalk.PeriodIsSample`) a reset always silences. It keeps
  each voice's level and phase (`Voicing.Silenced`).
- **An attack can fall.** The accumulator stays or rises in a step of the attack exactly when the sum does
  not wrap and the value is no higher than the note's peak (`Envelope.AttackHoldsIff`). Both causes of a fall
  are reached from silence: raising the attack rate far enough wraps the sum (`Voicing.AttackFallsByRate`),
  and lowering the note's level cuts to the new peak (`Voicing.AttackFallsByLevel`).
- **The mailbox does not drop a frame whole.** It keeps as many of a frame's words as there is room for, so
  a frame is kept whole or dropped whole exactly when it fits or there is no room at all
  (`Mailbox.KeptWholeOrNotAtAll`; `Mailbox.FrameKeptInPart` is a frame of which three words of five are kept).
  That no command mixes two frames comes from the sticky flag and the firmware together
  (`Loss.OnlyWholeCommandsInOrder`).
- **An empty payload is never drained** by the hardware decoder: its replay ends exactly when there is
  something to replay (`FrameDecoding.ReplayEnds`). The reference encoder's own frame of an empty payload,
  sent to a decoder just powered on, keeps it replaying for ever (`FrameDecoding.EmptyFrameJams`), and nothing
  but an empty payload does (`FrameDecoding.FrameDecoder.Clock`).

## Model

| member | source | states |
|---|---|---|
| Words.GapIsDistance | xsynth/sw/control.c:45-47 | the signed difference of two wrapped counts is their true distance if and only if that distance fits a signed word |
| Words.WordArithmetic | xsynth/sw/control.c:45-47 | the counters' sum and difference are the machine's, reduced modulo the word and read as two's complement |
| Words.OlderIsOrder | xsynth/sw/control.c:45-47 | for counts less than a wrap apart, the modular comparison tells the true order if and only if they are less than half a wrap apart |
| Words.CarryMeaning | xsynth/sw/control.c:12-34 | the shifts and masks that build and read a command word are inverse, so no command is lost or confused |
| Words.FieldUpdates | xsynth/sw/control.c:28-34 | replacing the voice or the delay bits changes that field and no other |
| Voices.FindFails | xsynth/sw/control.c:130-160 | by queues, a note-off finds nothing if and only if no voice sounds or releases its step |
| Voices.ScanFails | xsynth/sw/control.c:130-160 | the scan by stamps finds nothing if and only if no voice sounds or releases the step, whatever the stamps |
| Voices.LetGoTwice | xsynth/sw/control.c:76-88 | a repeated note-off moves nothing |
| Ages.OldestIsFirstBorn | xsynth/sw/control.c:104-127 | the scan by wrapped stamps finds the voice that was stamped first, for stamps within half a wrap of each other |
| Ages.ChooseAgrees | xsynth/sw/control.c:90-127 | a note takes the lowest idle voice, else the head of the releasing queue, else the head of the sounding queue: the stamps choose what the queues choose |
| Ages.FindAgrees | xsynth/sw/control.c:129-160 | a note-off takes the first sounding entry of its step, else the first releasing one, by stamps as by queues |
| Ages.ChosenIs | xsynth/sw/control.c:90-127 | by the true ticks at which voices changed: a note is given the lowest idle voice; with none idle, the one that has been letting go longest; with all sounding, the one that has sounded longest |
| Ages.FoundIs | xsynth/sw/control.c:129-160 | a release goes to the voice that has sounded its step longest; when none sounds it, to the one that has been letting it go longest; and to none only when no voice plays it |
| Ages.EarlierReleasedIff | xsynth/sw/control.c:129-160 | of two notes of a step less than a wrap apart, a release goes to the earlier if and only if they are less than half a wrap apart, or just half a wrap with the later on the lower voice |
| Ages.TakeRepresents | xsynth/sw/control.c:66-74 | starting a note, whatever its voice was doing, keeps the stamped voices a picture of the two queues, tick wrap included |
| Ages.LetGoRepresents | xsynth/sw/control.c:76-88 | letting go moves the voice to the end of the releasing queue in both pictures |
| Ages.WindowIsNeeded | xsynth/sw/control.c:129-160 | a bank, one tick beyond half a wrap, in which stamps and queues release different voices |
| Placement.NoteMovesOneVoice | xsynth/sw/control.c:162-227 | without a target a note changes nothing and pushes nothing; with one it is pushed once under that voice's number, and every other voice keeps its phase, step, stamp and order |
| Placement.ApplyFits | xsynth/sw/control.c:162-227 | one command pushes at most eight words |
| Placement.ApplyGoesOut | xsynth/sw/control.c:36-227 | opcode by opcode: a pitch, wave or level for any voice goes out as exactly eight words, the i-th for voice i with the same opcode and value and only the first with the delay; for an existing voice it goes out alone, for a missing one not at all; a global command goes out once, unchanged |
| FirmwareRefines.ApplyAgrees | xsynth/sw/control.c:162-227 | one command is placed on the same voice with the same words by stamps and by queues, and the two stay related |
| FirmwareRefines.RunAgrees | xsynth/sw/control.c:66-328 | over any run whose live stamps stay in the window, the stamped firmware pushes exactly the words the queue machine pushes |
| FirmwareRefines.FewCommandsStayInWindow | xsynth/sw/control.c:66-328 | the tick moves only for a command of the host: a run with fewer than some 2^31 of them stays in the window, with any number of dispatch calls |
| FirmwareRefines.FreshRunAgrees | xsynth/sw/control.c:49-328 | so from power-on the firmware is the queue machine outright until that many commands have come |
| FirmwareRefines.RightReleaseIff | xsynth/sw/control.c:66-160 | from a blank bank by commands alone: after a note on voice 1 and n of its step on voice 0, less than a wrap of them, the release goes to voice 1, as by queues, if and only if n is at most half a wrap |
| FirmwareRefines.SkewedIsReached | xsynth/sw/control.c:66-160 | so the bank in which stamps and queues differ is reached, in both pictures, by the same commands |
| Simulation.StepSimulates | xsynth/sw/control.c:250-328 | two allocators that agree on every single command agree on every host command and every dispatch call, through the same ring |
| Control.ControlState.Allocate | xsynth/sw/control.c:90-127 | the source's two scans over the voice array return the voice the specification chooses |
| Control.ControlState.Search | xsynth/sw/control.c:129-160 | the source's scan for a note-off returns the voice the specification finds |
| Control.ControlState.Place | xsynth/sw/control.c:162-227 | applying a command to the arrays changes the bank and fills the output buffer as the specification says; and the buffer holds, opcode by opcode, what such a command must become |
| Control.ControlState.Append | xsynth/sw/control.c:229-248 | appending to the ring array is appending to the event queue, or refusing when it is full or the time goes back |
| Control.ControlState.Command | xsynth/sw/control.c:250-283 | a host command changes the whole state and the words handed back as the specification says, within eight words |
| Control.ControlState.Dispatch | xsynth/sw/control.c:285-328 | the draining loop over the ring array leaves the state and the words the specification gives |
| Schedule.DispatchFits | xsynth/sw/control.c:285-328 | a dispatch hands back at most sixteen words, and returns only with fewer than eight slots left, with nothing held, or with the next event more than 64 samples away |
| Schedule.DispatchConserves | xsynth/sw/control.c:285-328 | a dispatch takes a prefix of the schedule: nothing lost, repeated or reordered |
| Schedule.SentWereDue | xsynth/sw/control.c:285-300 | every event a dispatch takes has been reached or is within 64 samples |
| Conservation.RunConserves | xsynth/sw/control.c:229-328 | over any run, what was held and what was accepted is what left and what is still held, in order |
| Conservation.RunKeepsInvariant | xsynth/sw/control.c:229-328 | every reachable ring is within its 256 entries, holds no reset, anchor or clear, and is in modular order |
| Conservation.AnchorIgnoresQueue | xsynth/sw/control.c:250-283 | a refused event shifts no later time: the anchor depends on the host's commands alone |
| Conservation.LastMarkDecides | xsynth/sw/control.c:250-283 | over any run there is an anchor if and only if the last of the host's anchors, clears and resets was an anchor, and it is the sample that one named and every delay since, modulo the word |
| Conservation.HeldOrPlaced | xsynth/sw/control.c:250-283 | from power-on, after any run: with no anchor in force by that rule a command is placed in the call that brings it; with one it places nothing and is held for its own sample or refused |
| Conservation.ResetForgets | xsynth/sw/control.c:49-64 | after a reset the firmware is the firmware at power-on, whatever it held: voices, events, anchor and chain |
| Timing.HeadLands | xsynth/sw/control.c:301-325 | the delay sent lands an event on the latest of its own sample, now and the landing before it, at most 64 samples ahead; the 16-bit clamp never acts |
| Timing.RunLands | xsynth/sw/control.c:250-328 | across any run of host commands and dispatches at nondecreasing times every event lands so, chained to the one before while events emit |
| Timing.LandingIs | xsynth/sw/control.c:301-325 | while everything taken emits, each landing is never early and never before the one in front of it |
| Timing.OnTime | xsynth/sw/control.c:301-325 | sorted events that are not late land on exactly their own sample, however many calls send them |
| Score.Cues | xsynth/host/player.py:66-89 | the built list is the stable sort of every note's start and end, releases first at one sample |
| Score.SortSorts | xsynth/host/player.py:87-88 | the order is that of the sort key |
| Score.SortIsPermutation | xsynth/host/player.py:66-89 | no cue is lost or added by sorting |
| Score.SortIsStable | xsynth/host/player.py:66-89 | cues that share a key keep the order in which they were built |
| Score.CuesOfNotes | xsynth/host/player.py:66-89 | the cues are a start and an end for each note, at the note's own samples from the origin and for any voice, and nothing else |
| Score.BalancedIff | xsynth/host/player.py:66-89 | every prefix of a score's cues has no more releases than starts of each step if and only if, by every sample, no more notes of a step have ended than had begun |
| Score.ScoreIsBalanced | xsynth/host/player.py:66-89 | such a score's cues start and release every step equally often |
| Score.LongNotesEndAfterBeginnings | xsynth/host/player.py:66-89 | a score whose notes all last at least one sample meets that condition |
| Score.ZeroLengthNoteSticks | xsynth/host/score.py:127-136 | a note of no length, which the parser admits, is left sounding |
| Score.SilentIff | xsynth/host/player.py:66-89 | a score that never asks for more than eight notes at once ends with nothing sounding if and only if it meets that condition |
| NoStuckNotes.NeverMoreThanAsked | xsynth/sw/control.c:90-218 | for any balanced commands, whatever is stolen, no step sounds on more voices than its starts less its releases |
| NoStuckNotes.NothingLeftSounding | xsynth/sw/control.c:90-218 | once every start has had its release nothing is sounding |
| NoStuckNotes.ExactlyAsAsked | xsynth/sw/control.c:90-218 | while at most eight notes overlap, each step sounds on exactly the voices asked for, and no note is cut short |
| NoStuckNotes.SoundsWhatIsHeld | xsynth/sw/control.c:90-218 | balanced or not: while no more than eight notes are held at once, each step sounds on exactly as many voices as it has notes held, a release of nothing not counting |
| Player.Player.NextBatch | xsynth/host/player.py:143-162 | the loop sends what the specification sends: every cue sent lies within the lookahead, and it stops only when all are sent, the batch is as long as there was room for, or the next cue lies beyond the lookahead |
| Streaming.BatchEncodes | xsynth/host/player.py:143-162 | after a batch, read by the firmware's rule, the whole of what is on the wire takes its anchor to each cue's own sample in turn and ends at the player's accumulator |
| Player.BatchFitsRing | xsynth/host/player.py:125-162 | the player never has more outstanding than its limit, and never sends past its horizon |
| Player.NeverStalls | xsynth/host/player.py:143-162 | whenever the next cue's sample has been reached, the batch is not empty |
| Player.BatchStops | xsynth/host/player.py:143-162 | a batch stops only when every cue is sent, when it is as long as the limit less what is outstanding, or when the next cue lies beyond now and the lookahead; and it holds no cue that does |
| Player.AnchorsWhereNeeded | xsynth/host/player.py:156-160 | a batch is one command for each cue, and an anchor before exactly those further from the one before than 16 bits can say |
| Streaming.RunKeepsInv | xsynth/host/player.py:99-178 | over any interleaving of polls, deliveries and dispatches the player's accumulator is the firmware's anchor after the same commands, and every cue is in the ring at exactly its own sample |
| Streaming.DeliveredIsAccepted | xsynth/sw/control.c:229-248 | no cue delivered to a drained ring is refused, for want of room or of order |
| Streaming.AttendedIsPossible | xsynth/sw/main.c:74-102 | a main loop that dispatches before it takes a command, leaving nothing due by the count last polled, keeps the ring drained at every delivery, whenever the host polls |
| Streaming.NoStuckNotesEndToEnd | xsynth/host/player.py:66-178 | from any score in which no release comes before its start to the voices, over any such interleaving: no step sounds more often than asked, and nothing sounds once everything has been played |
| Polyphony.RoomyIff | xsynth/host/player.py:66-89 | a score asks for no more than eight voices at once if and only if no more than eight of its notes overlap at any sample |
| Polyphony.NotesSoundEndToEnd | xsynth/host/player.py:66-178 | for such a score, over any such interleaving, each step sounds on exactly the voices asked for |
| Punctual.EveryCueOnItsSample | xsynth/host/player.py:99-178 | and if no cue held is overdue at a dispatch, every cue is sent to one voice and lands on exactly its own sample, however many calls send them |
| FirmwarePlays.RunKeepsTwin | xsynth/sw/control.c:66-328 | player, link and stamped firmware stay the twin of player, link and queue machine, move for move, over any run, for scores of fewer cues than it takes to age a stamp by half a wrap |
| FirmwarePlays.FirmwareNeverSticks | xsynth/sw/control.c:66-328 | the same end to end of the firmware's own stamped voices, for scores of up to some 2^30 notes and runs of any length: no step sounds on more voices than asked, and no voice sounds once everything has been played |
| FirmwarePlays.FirmwarePlaysEveryNote | xsynth/sw/control.c:66-328 | and with at most eight notes overlapping, each step sounds on exactly the voices asked for |
| FirmwarePlays.FirmwareIsPunctual | xsynth/sw/control.c:66-328 | and if no cue held is overdue at a dispatch, the firmware sends each to one of its voices and lands it on exactly its own sample |
| Engine.CommandScheduler.Clock | xsynth/hdl/voice.py:419-456 | one clock of the scheduler's registers, its apply pulse and its pop |
| Engine.RunFollowsLaw | xsynth/hdl/voice.py:428-456 | whatever the arrivals, a command is applied its cost, at least one sample, after the later of the moment it could be seen and the moment the one before it was applied |
| Engine.SuppliedBatch | xsynth/hdl/voice.py:428-456 | a batch first fetched at a sample and kept supplied is applied at that sample plus the running sums of its costs |
| Engine.Lateness | xsynth/hdl/voice.py:428-434 | so each command is late by one sample for every zero delay so far, and never early |
| FirmwareToEngine.FirmwareMeetsEngine | xsynth/sw/control.c:285-328 | an event of a dispatch batch is applied at the sample the firmware reckoned, plus the start of the batch over now, plus the zero delays so far |
| FirmwareToEngine.CallsMeetEngine | xsynth/sw/control.c:285-328 | and so for that call and all those after it, while the chain lives |
| FirmwareToEngine.FirmwareCallsMeetEngine | xsynth/sw/control.c:162-328 | the same of the firmware's own allocator, under which only the first word of a command carries its delay |
| EngineRuns.RunMeetsEngine | xsynth/sw/control.c:250-328 | over any run of host commands and dispatches between resets, drained chains and silent events included, with every word shown between lo and hi strobes after its call: each event is applied at its landing, plus its slip (what the words before it overrun, and a sample for a zero delay), plus lo to hi |
| EngineRuns.FirmwareRunMeetsEngine | xsynth/sw/control.c:162-328 | the same of the firmware's own allocator |
| Envelope.StepIs | xsynth/hdl/voice.py:219-259 | the envelope step computed through 25-bit signed sums and 24-bit registers, without them: only the attack can wrap; the attack goes to the note's own level, the decay to the lower of that and the panel's sustain level |
| Envelope.StepStaysBelowSummit | xsynth/hdl/voice.py:219-259 | the accumulator never exceeds the highest level, so the level read from it is never negative |
| Envelope.AttackHoldsIff | xsynth/hdl/voice.py:228-242 | a step of the attack leaves the accumulator no lower if and only if the sum does not wrap and the value is within the note's peak |
| Voicing.AttackFallsByRate | xsynth/hdl/voice.py:228-242 | from silence: a note, one sample of its attack, then the highest rate, and the accumulator falls |
| Voicing.AttackFallsByLevel | xsynth/hdl/voice.py:228-242 | from silence: a note, one sample of its attack, then a lower level, and the accumulator falls |
| Envelope.AttackEnds | xsynth/hdl/voice.py:228-242 | from silence at a constant rate the attack reaches the note's peak in exactly max(1, ceil(peak / rate)) samples |
| Envelope.AttackMeanwhile | xsynth/hdl/voice.py:228-242 | and before that is the rate times the samples passed |
| Envelope.AttackStalls | xsynth/hdl/voice.py:228-242 | an attack at rate zero never ends, if and only if the note has a level to reach |
| Envelope.DecayEnds | xsynth/hdl/voice.py:243-248 | the decay comes to rest at the lower of the panel's sustain level and the note's own, in exactly max(1, ceil(distance / rate)) samples |
| Envelope.DecayMeanwhile | xsynth/hdl/voice.py:243-248 | and before that has fallen by the rate times the samples passed |
| Envelope.ReleaseEnds | xsynth/hdl/voice.py:251-256 | the release is silent and idle after exactly max(1, ceil(level / rate)) samples |
| Envelope.ReleaseMeanwhile | xsynth/hdl/voice.py:251-256 | and before that has fallen by the rate times the samples passed |
| Envelope.NoteReachesFloor | xsynth/hdl/voice.py:235-250 | a held note comes to rest, after attack and decay, at exactly the panel's sustain level, or at its own peak when that is lower, and stays |
| Mix.ScaledIsExact | xsynth/hdl/voice.py:273-278 | the shared multiplier's registers lose nothing for any table within the peak and any reachable level |
| Mix.ClippedIsExact | xsynth/hdl/voice.py:280-294 | total, master gain and clamp through their registers are the clamp of the true product |
| Voicing.PerSampleFits | xsynth/hdl/voice.py:296-395 | every reachable engine state fits its registers |
| Voicing.OthersUntouched | xsynth/hdl/voice.py:296-395 | a command moves no voice but the one it names: every other plays on under the panel as it stands |
| VoiceWalk.VoiceBank.Clock | xsynth/hdl/voice.py:296-395 | one clock of the walk, register by register, as the specification says |
| VoiceWalk.ClockKeepsRunnable | xsynth/hdl/voice.py:296-395 | at any clock, with strobes and commands at any moment, every register stays within its width |
| VoiceWalk.PeriodIsSample | xsynth/hdl/voice.py:296-395 | for any number of voices, strobes at least 2N+2 clocks apart and a command on the clock after a strobe, one walk is one sample: settings and reset first, every voice sounded as it stood, the command once to the voice it names, every voice moved on |
| VoiceWalk.ResetSilencesIff | xsynth/hdl/voice.py:310-333 | at any clock, a reset leaves every voice idle if and only if the walk is not at that clock writing back a moving envelope or applying a note that waited |
| VoiceWalk.ResetRevives | xsynth/hdl/voice.py:310-395 | the failing input: from power-on a strobe, a note, a clock and a reset, and the voice is at its loudest |
| VoiceWalk.PerformanceIsMeant | xsynth/hdl/voice.py:296-395 | sample for sample over any performance |
| Settings.AttackIsSet | xsynth/hdl/voice.py:228-319 | of the bank as it is built: the attack rate is turned, then a note is started, and after n samples its envelope stands at n times the rate, until it reaches the note's peak |
| Settings.DecayIsSet | xsynth/hdl/voice.py:222-321 | after a decay rate is set, a note past its peak stands n samples later n rates lower, down to the lower of the sustain level and its own peak; the other four settings are as they were |
| Settings.SustainIsSet | xsynth/hdl/voice.py:222-327 | after a sustain level is set, capped at the peak, a held note rests at the lower of it and its own peak, and a decaying one falls there; the other four settings are as they were |
| Settings.ReleaseIsSet | xsynth/hdl/voice.py:251-323 | the release rate is turned, then a note is let go: after n samples it has fallen by n rates, and it is idle if and only if that covers what it stood at |
| Settings.AttackTurned | xsynth/hdl/voice.py:318-319 | an attack rate sets that setting to its low 24 bits and no other |
| Settings.ReleaseTurned | xsynth/hdl/voice.py:322-323 | and a release rate |
| Settings.MasterTurned | xsynth/hdl/voice.py:328-331 | and a master level, capped at the peak |
| Settings.NoteBegins | xsynth/hdl/voice.py:358-363 | a note-on to a voice: its phase runs on from where it was at the new step, its envelope from silence at the attack rate to its own peak, and its wave and level are kept |
| Settings.NoteEnds | xsynth/hdl/voice.py:364-365 | a note-off: whatever the envelope was doing it falls at the release rate to idle, and the voice runs on at its step |
| Settings.VoiceIsSet | xsynth/hdl/voice.py:366-374 | a pitch, a wave or a level changes that register of the voice it names and no other, and the phase runs on at the step in force |
| Settings.SampleHeard | xsynth/hdl/voice.py:260-294 | the sample a strobe brings: of every voice as it stood when the strobe came, the entry of its own wave under the top eleven bits of its phase at the level of its envelope, rounded down; their sum at the master level in force, and of all 16-bit values the one nearest to that |
| Settings.ResetHeard | xsynth/hdl/voice.py:332-339 | a reset: nothing is heard, every voice is idle at step zero on the first wave, and phases, levels and settings are kept |
| Synth.SynthPlaysTheLaw | xsynth/hdl/voice.py:296-456 | scheduler and voices together: each command takes effect in the sample the law of delays gives it and in no other |
| Shadow.RunIsTold | xsynth/sw/control.c:66-328 | over any run, resets included, the phases and steps the firmware keeps are those its own pushed words say |
| Shadow.PoweredOnMirrors | xsynth/hdl/voice.py:130-200 | at power-on the engine is as a firmware just started pictures it |
| Shadow.ShadowIsTrue | xsynth/hdl/voice.py:296-395 | once the engine has been given the words of any run in order, however they are spread over samples, each voice the firmware has sounding is in attack, decay or sustain, each releasing one in release or idle, and each idle one silent |
| EveryVoice.SettingArrives | xsynth/sw/control.c:162-227 | with no anchor, once the engine has been given the words the firmware pushed for a pitch, wave or level: for any voice, all eight have it; for one voice, that one has it; and no other step, wave or level has changed |
| ScoreToEngine.EngineNeverSticks | xsynth/hdl/voice.py:296-395 | the engine's own voices, end to end: no step is held on more of them than the cues played ask for, and none is held once everything has been played |
| ScoreToEngine.EnginePlaysEveryNote | xsynth/hdl/voice.py:296-395 | and with at most eight notes overlapping, each step is held on exactly the voices asked for |
| ScoreToEngine.EveryCueIsApplied | xsynth/hdl/voice.py:428-456 | with no cue overdue at a dispatch and a FIFO that shows each word lo to hi strobes after it is pushed, the engine applies every cue in order, at least lo samples after its own and at most hi and one more for every zero delay so far |
| ScoreToEngine.ScoreIsPlayed | xsynth/hdl/voice.py:296-456 | and so of scheduler and voices as they are built, clock by clock: from a score to exactly the voices asked for |
| Gray.DecodeEncode | xsynth/hdl/designs/control.py:104-109 | the shift-doubling decode inverts the Gray code for every width up to 32 bits |
| Gray.CodeStepsByOneBit | xsynth/hdl/fifo.py:71-74 | successive codes, wrap included, differ in exactly one bit |
| Gray.CaughtIsOneOfTwo | xsynth/hdl/fifo.py:20-27 | a capture that takes each bit old or new is one of the two true codes |
| Crossing.FullFlag | xsynth/hdl/fifo.py:95-98 | full is raised if and only if the writer sees the reader a whole memory behind |
| Crossing.EmptyFlag | xsynth/hdl/fifo.py:99-101 | empty is raised if and only if the reader has read all it can see |
| Crossing.FlagsAreSafe | xsynth/hdl/fifo.py:95-101 | both flags err only on the safe side: not full means room, not empty means an entry |
| Fifo.AsyncFifo.Edge | xsynth/hdl/fifo.py:62-119 | at any instant with edges on either clock or both, whatever the flops catch: entries are written once, in order, what the reader takes is the oldest unread entry, once, and every invariant is kept |
| Fifo.AsyncFifo.HeadIsOldest | xsynth/hdl/fifo.py:76-93 | whenever empty is low the read port shows the oldest unread entry |
| Fifo.AsyncFifo.LevelIsSafe | xsynth/hdl/fifo.py:103-109 | the level reported is exactly the entries written less those the writer has seen read, hence at least the true occupancy and at most the depth |
| FifoState.EdgeKeepsSound | xsynth/hdl/fifo.py:62-119 | one instant keeps registers, counts and memory in step, and each side's own edge brings its view of the other up to date |
| FifoState.TwoEdgesSettle | xsynth/hdl/fifo.py:62-119 | after two edges of its own clock with the other side at rest, a side sees the other exactly |
| Feeding.EngineSide.Edge | xsynth/hdl/voice.py:428-456 | the scheduler at the FIFO's read port, at any instant of either clock: what it fetches and applies is what it would of a list of the entries seen so far |
| Feeding.EngineSide.AppliesTheLaw | xsynth/hdl/designs/control.py:450-450 | under any interleaving of the two clocks the scheduler has applied exactly what the law of delays says of the entries written, in order, each seen within two edges of the reader's clock |
| SampleCounting.SampleCounter.Edge | xsynth/hdl/designs/control.py:92-109 | the count seen across domains is one really held, never goes back, and is no older than the sink's last edge but one |
| SampleCounting.SampleCounter.SyncedWasHeld | xsynth/hdl/designs/control.py:92-109 | what is read is a count really held, modulo the width |
| CoProcessor.InstructionsAreRecognised | xsynth/hdl/pcpi.py:37-51 | push and level instructions are taken for what they are, whatever registers they name |
| CoProcessor.Pusher.Edge | xsynth/hdl/pcpi.py:89-101 | whatever instructions come and with any idle clocks between: the words in the FIFO are exactly the pushes answered, in order; a push waits for room and is neither dropped nor repeated, and nothing else waits |
| CoProcessor.Pusher.ReadArePushes | xsynth/hdl/pcpi.py:89-101 | what has been read on the other side is the first of the pushes answered |
| Crc.Crc16Update | xsynth/hdl/crc.py:22-30 | the eight-shift loop is the specified step |
| Crc.Crc16 | xsynth/hdl/crc.py:33-37 | the loop over bytes is the specified checksum |
| Crc.AbsorbIsLinear | xsynth/hdl/crc.py:22-30 | the step is linear in the register and the byte together |
| Crc.ShiftedIsInvertible | xsynth/hdl/crc.py:22-30 | each shift can be undone, and every state is reached |
| Crc.NeighboursAreTold | xsynth/hdl/crc.py:22-37 | messages of any length that differ at most in two neighbouring bytes have equal checksums if and only if they are equal |
| Remainder.ChecksumIsRemainder | xsynth/hdl/crc.py:22-37 | sixteen bits are the checksum of a message if and only if they are the remainder, on division by x^16+x^12+x^5+1 over two elements, of the message's bits, each byte's highest first, with sixteen zeros after them and sixteen ones added in front |
| Framing.ReferenceDecoder.Feed | xsynth/protocol.py:291-325 | the streaming decoder's fields take the specified step and return the specified payload |
| Framing.FrameHeard | xsynth/protocol.py:207-325 | of any frame, right checksum or wrong, the decoder returns the payload if and only if the checksum is right, and is idle at its end |
| Framing.FrameBytes | xsynth/protocol.py:207-215 | a frame byte by byte, for exactly the payloads of up to 32 bytes: 0xAA, 0x55, the length, the payload and the checksum of length and payload, low half first |
| Framing.TooLongIsDropped | xsynth/protocol.py:291-325 | a length beyond the limit ends a frame there and then, and the next byte may start another |
| Framing.WireIsHeard | xsynth/protocol.py:207-325 | any payloads framed, with any noise free of a start of frame between them, are returned in order |
| Framing.DamageIsRejected | xsynth/protocol.py:303-325 | a frame changed in one payload byte or two neighbouring ones is rejected, and the next frame is returned |
| FrameDecoding.FrameDecoder.Clock | xsynth/hdl/framing.py:76-144 | whatever bytes come, those during a replay being dropped: the hardware decoder with its registered checksum strobes, buffer and replay releases exactly the payloads the reference returns, byte by byte and in order, until the reference returns an empty one; from then on, and only then, it is jammed, strobing on every clock |
| FrameDecoding.ClockTracks | xsynth/hdl/framing.py:76-144 | after every clock the registers and buffer stand for the reference's state |
| FrameDecoding.ReplayEnds | xsynth/hdl/framing.py:129-133 | a replay ends if and only if the payload is not empty |
| FrameDecoding.EmptyFrameJams | xsynth/hdl/framing.py:76-144 | the reference encoder's frame of an empty payload, sent to a decoder just powered on, keeps it replaying at every later clock |
| DecoderRun.SpacedBytesAreReleased | xsynth/hdl/framing.py:76-144 | for bytes spaced by at least a payload, none is dropped: from power-on the decoder releases every payload of the reference over all of them, and nothing else |
| FrameSending.FrameTx.Take | xsynth/hdl/framing.py:149-236 | the hardware transmitter hands out exactly the reference encoder's frame |
| Uart.ByteSent | xsynth/hdl/uart.py:145-188 | a byte requested at rest occupies the line for exactly ten bit times, start, data and stop, whatever is requested meanwhile |
| Uart.FrameHeard | xsynth/hdl/uart.py:69-122 | with divisors close enough, a framed byte followed by a clock of rest is received and the receiver is idle in time for the next |
| Uart.BytesArrive | xsynth/hdl/uart.py:69-188 | any bytes at any spacing, down to the one clock the transmitter needs, are received unchanged through the two flops |
| Uart.EqualIsClose | xsynth/hdl/uart.py:69-188 | equal divisors are close enough |
| BitTiming.ByteOnLine | xsynth/hdl/uart.py:145-188 | which level is on the line at each clock of a byte's ten bit times: low, then the byte's bits with the lowest first, then high |
| BitTiming.ByteIsRead | xsynth/hdl/uart.py:69-122 | whatever the line does: once it has fallen and is still low half a bit time on, the levels at eight clocks a bit time apart are the byte's bits, and it is delivered if and only if the line is high at the ninth |
| BitTiming.GlitchIsIgnored | xsynth/hdl/uart.py:89-96 | and if the line is high again after half a bit time, nothing is received and the receiver is idle |
| Packing.PackUnpack | xsynth/protocol.py:184-204 | a command survives packing, and every eight bytes are some command's packing |
| Packing.PackedNumber | xsynth/protocol.py:184-191 | the packed bytes, lowest first, are the 64-bit number with the opcode in the top eight bits, then voice, value and delay |
| Packing.PayloadsOfThree | xsynth/host/client.py:209-224 | n commands go out in ceil(n / 3) payloads, all holding three commands but perhaps the last |
| Packing.SynthClient.SendCommands | xsynth/host/client.py:209-224 | the commands written are split into frames of three, each command in exactly one, every frame within the encoder's limit |
| Mailbox.FrameMailbox.Clock | xsynth/hdl/mailbox.py:61-117 | one clock of the queue, the latch and the sticky flag; a flush clears all three |
| Mailbox.HeaderFields | xsynth/hdl/mailbox.py:78-95 | the header word: the marker at the top, then the length of the body, then the type |
| Mailbox.KeptWholeOrNotAtAll | xsynth/hdl/mailbox.py:61-117 | offered a frame with nothing taken, the mailbox keeps all of it or none of it if and only if it fits or there is no room at all |
| Mailbox.FrameKeptInPart | xsynth/hdl/mailbox.py:61-117 | a frame of five words and room for three: three are kept and the flag is raised |
| Mailbox.FlushStartsAfresh | xsynth/hdl/mailbox.py:61-117 | after a flush, whatever it found: the rest of the frame it cut leaves no trace, and the next frame that fits is kept whole with the flag down |
| Receiver.MainLoop.Take | xsynth/sw/main.c:102-134 | one word through the firmware's loop |
| Receiver.BodyTaken | xsynth/sw/main.c:114-127 | a body word adds its byte to the command in hand and completes nothing |
| Link.StrayWordsPassedOver | xsynth/sw/main.c:102-134 | once a body has ended, or before there was one, any words without the marker and the type of commands are passed over, all of them, and complete nothing |
| Link.PayloadsConsumed | xsynth/sw/main.c:102-134 | however a list of commands was split into frames, the firmware puts the same list together |
| Link.CarriedMeans | xsynth/sw/main.c:102-134 | the words put together mean the commands that were sent |
| Lossless.CommandsGetThrough | xsynth/host/client.py:209-224 | without loss, any commands, framed, with quiet noise, decoded, mailed at any pace and reassembled, come out as the same list, or a beginning of it while words are still queued |
| Lossless.SilenceIsSkipped | xsynth/hdl/framing.py:76-144 | a run of decoder clocks is the run of the reference over the bytes on them |
| SerialLink.DeliveriesAreSpaced | xsynth/hdl/uart.py:69-122 | a receiver never delivers two bytes closer than nine bit times and a half, whatever the line does |
| SerialLink.FramesAreReleased | xsynth/hdl/framing.py:76-144 | so behind the receiver no byte comes during a replay: payloads framed and sent come out of the hardware decoder, all of them and nothing else |
| SerialLink.CommandsCrossTheWire | xsynth/host/client.py:209-224 | and the same through the serial line and the hardware decoder: sent at one divisor, received at another, with the bytes at any spacing |
| SerialLink.EveryCommandCanCross | xsynth/host/client.py:209-224 | at any close divisors any commands can be framed and sent so that all of them are acted on |
| Loss.TickIsBoxed | xsynth/hdl/mailbox.py:61-117 | the mailbox of the loss analysis is the mailbox |
| Loss.TakenBeforeLoss | xsynth/sw/main.c:85-102 | every word taken was pushed before any word was lost, and follows the word taken before it |
| Loss.OnlyWholeCommandsInOrder | xsynth/sw/main.c:74-134 | with a mailbox of any depth, any validated frames and any timing: the commands acted on are whole, aligned commands of single validated frames, in the order sent, none twice |

## Left out

- The HDMI output, video, clocks and power-on, board support, the command line: not part of the command path.
- The processor itself: the firmware is modelled at source level, and the co-processor port as whatever request is on it at each clock. `emit` and the status registers only pass words on.
- Floating point: `phase_step`, `envelope_rate`, wave tables, seconds and score text. Steps, rates, table entries and sample positions are integers within their ranges.
- The FIFO's resets: a flush of the mailbox clears its queue, latch and flag in one clock, whatever the synchronisers hold.
- Metastability beyond each sampled bit being the old or the new one.
- Widths and sizes are the source's defaults (16-bit samples, 24-bit envelopes, 32-bit phases, eight data bits, four tables, 256 ring entries, 32-byte payloads on the wire); the number of engine voices, the FIFO's depth, the counter's width, the line's divisors and the decoder's payload limit are arbitrary.
- Status replies, the loader, `PacketHandler`, `SineDDS` and the register map: they add easier members only.
- The mailbox's and the client's counters (`frames`, `pushed`, `popped`), which only status reports show.
- A claim that the decoder resynchronises within a number of frames: a payload that holds a start of frame can keep a misaligned decoder misaligned.
- The patch a player sends first (wave, levels, envelope): `Score` models the cues that start and end notes.
- Score.Cues: Python's built-in stable sort is modelled by a stable insertion sort.
- Control.ControlState.Dispatch: the loop's body is split into two methods, `Next` and `Send`, with the same statements.
- Control.ControlState.Append: its two refusals are a method of their own, `Refuses`.
- Framing.ReferenceDecoder.Feed: what it does before the payload, in it and at the last byte are methods of their own, `Begin`, `Gather` and `Finish`.
- VoiceWalk.PeriodIsSample: the table port holds four tables of 2048 entries and the voices number fewer than 65536, so that the 32-bit accumulator holds their sum; strobes closer than 2N+2 clocks are not considered.
- FrameDecoding.FrameDecoder.Clock: a jammed replay's index goes round at the payload limit, as the source's register does when the limit is a power of two; what its memory shows beyond another limit is not modelled.
- Streaming.RunKeepsInv: a command is delivered only when the ring is drained to the count last polled. A main loop that dispatches before each command and leaves nothing due by that count keeps to it (`Streaming.AttendedIsPossible`); of one that takes commands faster nothing is claimed.
- FirmwareToEngine.CallsMeetEngine: an equality, which asks for a chain that lives and an engine kept supplied; `EngineRuns.RunMeetsEngine` asks neither and gives a window.
- EngineRuns.RunMeetsEngine: the window in which the FIFO shows a word is in strobes; that the FIFO takes two edges of the reader's clock is `Feeding.EngineSide.AppliesTheLaw`.
- FirmwarePlays.RunKeepsTwin: a score of more cues than half a wrap of the tick needs the window itself (`FirmwareRefines.RunAgrees`).
- Uart.BytesArrive: the condition on the divisors is sufficient; which divisors just outside it still work for some spacings is not characterised.
- Gray.CaughtIsOneOfTwo: a capture sees the count before or after one step, so the source clock may tick at most once between a sink edge and its setup.
