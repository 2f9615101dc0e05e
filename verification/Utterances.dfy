/**
 * Finding utterances in the microphone stream, up to handing them to transcription. The
 * stream is cut into 20 ms windows of 640 bytes; five loud ones in a row start an
 * utterance, with up to 15 windows from before, and 35 quiet ones or 30 s end it.
 */
module Utterances {
  import opened Wrappers

  type Byte = b: int | 0 <= b < 256
  type Frame = seq<Byte>

  const WINDOW_BYTES := 640
  const WINDOW_MS := 20
  const START_WINDOWS := 5
  const END_WINDOWS := 35
  const PREROLL_WINDOWS := 15
  const MIN_SPEECH_WINDOWS := 15
  const MAX_UTTERANCE_WINDOWS := 1500 // 30 s of samples
  const GAP_MS := 1000

  /** A little-endian 16-bit sample. */
  function Sample(low: Byte, high: Byte): int {
    var v := low + 256 * high;
    if v >= 32768 then v - 65536 else v
  }

  function SumOfSquares(frame: Frame): nat {
    if |frame| < 2 then 0
    else
      var v := Sample(frame[0], frame[1]);
      assert v * v >= 0;
      v * v + SumOfSquares(frame[2..])
  }

  /** Root mean square of the samples, as fractions of 32768, at least 0.012. */
  predicate Loud(frame: Frame) {
    SumOfSquares(frame) * 1_000_000 >= 144 * (|frame| / 2) * 32768 * 32768
  }

  /** Two's complement, the low byte first. */
  lemma SampleIsTwosComplement(v: int)
    requires -32768 <= v < 32768
    ensures Sample(v % 256, (v % 65536) / 256) == v
  {
  }

  /** The samples of a frame, as fractions of full scale. */
  function Level(frame: Frame, k: nat): real
    requires 2 * k + 1 < |frame|
  {
    Sample(frame[2 * k], frame[2 * k + 1]) as real / 32768.0
  }

  /** The squares of all samples from the k-th on. */
  function Energy(frame: Frame, k: nat): real
    decreases |frame| - k
  {
    if 2 * k + 1 >= |frame| then 0.0 else Level(frame, k) * Level(frame, k) + Energy(frame, k + 1)
  }

  lemma {:induction false} EnergyIsSum(frame: Frame, k: nat)
    requires 2 * k <= |frame|
    ensures Energy(frame, k) * 32768.0 * 32768.0 == SumOfSquares(frame[2 * k..]) as real
    decreases |frame| - k
  {
    if 2 * k + 1 < |frame| {
      EnergyIsSum(frame, k + 1);
      assert frame[2 * k..][2..] == frame[2 * (k + 1)..];
      var v := Sample(frame[2 * k], frame[2 * k + 1]);
      LevelSquared(v);
    }
  }

  lemma LevelSquared(v: int)
    ensures (v as real / 32768.0) * (v as real / 32768.0) * 32768.0 * 32768.0 == (v * v) as real
  {
    var x := v as real;
    assert (x / 32768.0) * 32768.0 == x;
    assert (x / 32768.0) * (x / 32768.0) * 32768.0 * 32768.0 == ((x / 32768.0) * 32768.0) * ((x / 32768.0) * 32768.0);
  }

  /** A window is loud exactly when the mean square of its samples is at least 0.012 squared. */
  lemma LoudMeans(frame: Frame)
    requires |frame| >= 2
    ensures Loud(frame) <==> Energy(frame, 0) / (|frame| / 2) as real >= 0.012 * 0.012
  {
    EnergyIsSum(frame, 0);
    assert frame[0..] == frame;
    var e, n, sum := Energy(frame, 0), (|frame| / 2) as real, SumOfSquares(frame) as real;
    AtLeast(e, n, sum);
    assert Loud(frame) <==> sum * 1000000.0 >= 144.0 * n * 32768.0 * 32768.0;
  }

  lemma AtLeast(e: real, n: real, sum: real)
    requires n > 0.0 && e * 32768.0 * 32768.0 == sum
    ensures e / n >= 0.012 * 0.012 <==> sum * 1000000.0 >= 144.0 * n * 32768.0 * 32768.0
  {
    assert e / n >= 0.000144 <==> e >= 0.000144 * n;
  }

  function CountLoud(frames: seq<Frame>): nat {
    if frames == [] then 0
    else CountLoud(frames[..|frames| - 1]) + if Loud(frames[|frames| - 1]) then 1 else 0
  }

  lemma CountLoudAppend(frames: seq<Frame>, f: Frame)
    ensures CountLoud(frames + [f]) == CountLoud(frames) + if Loud(f) then 1 else 0
  {
    assert (frames + [f])[..|frames|] == frames;
  }

  /** How many windows at the end are not loud. */
  function TrailingQuiet(frames: seq<Frame>): nat {
    if frames == [] || Loud(frames[|frames| - 1]) then 0
    else 1 + TrailingQuiet(frames[..|frames| - 1])
  }

  lemma TrailingQuietAppend(frames: seq<Frame>, f: Frame)
    ensures TrailingQuiet(frames + [f]) == if Loud(f) then 0 else TrailingQuiet(frames) + 1
  {
    assert (frames + [f])[..|frames|] == frames;
  }

  /** The last `n` frames are all loud, so at least n are. */
  lemma {:induction false} LoudTail(frames: seq<Frame>, n: nat)
    requires n <= |frames| && forall i | |frames| - n <= i < |frames| :: Loud(frames[i])
    ensures CountLoud(frames) >= n
  {
    if n > 0 { LoudTail(frames[..|frames| - 1], n - 1); }
  }

  /** The window at position i of a byte stream. */
  function WindowAt(bytes: seq<Byte>, i: nat): Frame
    requires WINDOW_BYTES * (i + 1) <= |bytes|
  {
    bytes[WINDOW_BYTES * i..WINDOW_BYTES * (i + 1)]
  }

  /** The windows of a byte stream, however it was delivered. */
  function Windows(bytes: seq<Byte>): seq<Frame> {
    seq(|bytes| / WINDOW_BYTES, i requires 0 <= i < |bytes| / WINDOW_BYTES => WindowAt(bytes, i))
  }

  /** More bytes never change the windows already cut. */
  lemma WindowsGrow(bytes: seq<Byte>, more: seq<Byte>)
    ensures |Windows(bytes)| <= |Windows(bytes + more)|
    ensures Windows(bytes + more)[..|Windows(bytes)|] == Windows(bytes)
  {
    var grown := bytes + more;
    forall i | 0 <= i < |Windows(bytes)| ensures Windows(grown)[i] == Windows(bytes)[i] {
      assert WindowAt(grown, i) == WindowAt(bytes, i);
    }
  }

  /** Cutting what follows the first `first` windows at an offset of whole windows cuts the next window. */
  lemma NextWindow(bytes: seq<Byte>, first: nat, k: nat, offset: nat)
    requires first <= k && offset == WINDOW_BYTES * (k - first)
    requires WINDOW_BYTES * (k + 1) <= |bytes|
    ensures k < |Windows(bytes)|
    ensures bytes[WINDOW_BYTES * first..][offset..offset + WINDOW_BYTES] == Windows(bytes)[k]
  {
    assert bytes[WINDOW_BYTES * first..][offset..offset + WINDOW_BYTES] == WindowAt(bytes, k);
  }

  /** Cutting: the windows before, those cut from the data so far, and how far that is. */
  ghost predicate AtCut(bytes: seq<Byte>, before: seq<Frame>, cut: seq<Frame>, data: seq<Byte>, offset: nat) {
    && WINDOW_BYTES * |before| <= |bytes| && data == bytes[WINDOW_BYTES * |before|..]
    && offset == WINDOW_BYTES * |cut| <= |data|
    && before + cut <= Windows(bytes)
  }

  lemma CutBegins(bytes: seq<Byte>, before: seq<Frame>)
    requires before <= Windows(bytes)
    ensures WINDOW_BYTES * |before| <= |bytes|
    ensures AtCut(bytes, before, [], bytes[WINDOW_BYTES * |before|..], 0)
  {
    WindowCount(bytes);
    assert before + [] == before;
  }

  lemma CutGoesOn(bytes: seq<Byte>, before: seq<Frame>, cut: seq<Frame>, data: seq<Byte>, offset: nat)
    requires AtCut(bytes, before, cut, data, offset) && offset + WINDOW_BYTES <= |data|
    ensures AtCut(bytes, before, cut + [data[offset..offset + WINDOW_BYTES]], data, offset + WINDOW_BYTES)
  {
    var k, all := |before + cut|, Windows(bytes);
    NextWindow(bytes, |before|, k, offset);
    assert before + cut == all[..k];
    assert before + (cut + [all[k]]) == all[..k + 1];
  }

  lemma CutEnds(bytes: seq<Byte>, before: seq<Frame>, cut: seq<Frame>, data: seq<Byte>, offset: nat)
    requires AtCut(bytes, before, cut, data, offset) && offset + WINDOW_BYTES > |data|
    ensures before + cut == Windows(bytes) && offset <= |data|
    ensures WINDOW_BYTES * |Windows(bytes)| <= |bytes| && data[offset..] == bytes[WINDOW_BYTES * |Windows(bytes)|..]
  {
    WindowCount(bytes);
  }

  /** Audio handed to transcription, with the times stored for it. */
  datatype Utterance = Utterance(frames: seq<Frame>, startMs: int, endMs: int)

  /** A stretch of the window sequence, from window lo up to hi. */
  datatype Slice = Slice(lo: nat, hi: nat)

  /** The last windows heard are what the segmenter holds. */
  ghost predicate Holds(frames: seq<Frame>, held: seq<Frame>) {
    |held| <= |frames| && frames[|frames| - |held|..] == held
  }

  lemma HoldsAppend(frames: seq<Frame>, held: seq<Frame>, f: Frame)
    requires Holds(frames, held)
    ensures Holds(frames + [f], held + [f])
    ensures Holds(frames + [f], (held + [f])[1..])
  {
    var all, grown := frames + [f], held + [f];
    assert all[|all| - |grown|..] == grown;
    assert all[|all| - |grown[1..]|..] == grown[1..];
  }

  /** While nobody is heard: the pre-roll, and how many windows in a row were loud. */
  ghost predicate Quiescent(preroll: seq<Frame>, loud: nat) {
    && |preroll| <= PREROLL_WINDOWS
    && loud < START_WINDOWS
    && AllLoud(preroll, loud)
  }

  /** The last n are loud. */
  ghost predicate AllLoud(frames: seq<Frame>, n: nat) {
    n <= |frames| && forall i | |frames| - n <= i < |frames| :: Loud(frames[i])
  }

  /** While somebody is: the counters against the windows of the utterance. */
  ghost predicate Speaking(speech: seq<Frame>, quiet: nat, spoken: nat) {
    && |speech| < MAX_UTTERANCE_WINDOWS
    && quiet == TrailingQuiet(speech) < END_WINDOWS
    && START_WINDOWS <= spoken <= CountLoud(speech)
  }

  /** The segmenter's state against all windows so far; `settled` is where the last utterance ended. */
  ghost predicate Tracks(frames: seq<Frame>, preroll: seq<Frame>, speech: seq<Frame>,
                         loud: nat, quiet: nat, spoken: nat, settled: nat) {
    && Holds(frames, preroll + speech)
    && settled + |preroll| + |speech| <= |frames|
    && if speech == [] then Quiescent(preroll, loud) else preroll == [] && Speaking(speech, quiet, spoken)
  }

  /** Handed over as the windows of its slice: loud and long enough, not too long, ending 20 ms per window after it began. */
  ghost predicate Handed(frames: seq<Frame>, u: Utterance, s: Slice) {
    && s.lo <= s.hi <= |frames|
    && u.frames == frames[s.lo..s.hi]
    && CountLoud(u.frames) >= MIN_SPEECH_WINDOWS
    && |u.frames| <= MAX_UTTERANCE_WINDOWS
    && u.endMs == u.startMs + 20 * |u.frames|
  }

  /** All that was handed over: slices of the window sequence, in order and apart. */
  ghost predicate HandedSlices(frames: seq<Frame>, handed: seq<Utterance>, slices: seq<Slice>, settled: nat) {
    && |handed| == |slices|
    && settled <= |frames|
    && (forall k | 0 <= k < |slices| :: slices[k].hi <= settled && Handed(frames, handed[k], slices[k]))
    && (forall j, k | 0 <= j < k < |slices| :: slices[j].hi <= slices[k].lo)
  }

  lemma MoreFramesKeepSlices(frames: seq<Frame>, handed: seq<Utterance>, slices: seq<Slice>, settled: nat, f: Frame)
    requires HandedSlices(frames, handed, slices, settled)
    ensures HandedSlices(frames + [f], handed, slices, settled)
  {
    forall k | 0 <= k < |slices| ensures Handed(frames + [f], handed[k], slices[k]) {
      assert Handed(frames, handed[k], slices[k]);
      assert (frames + [f])[slices[k].lo..slices[k].hi] == frames[slices[k].lo..slices[k].hi];
    }
  }

  /** Handing over what is held, all of it after the last utterance, keeps them apart. */
  lemma HandOverKeeps(frames: seq<Frame>, handed: seq<Utterance>, slices: seq<Slice>, settled: nat, u: Utterance)
    requires HandedSlices(frames, handed, slices, settled)
    requires Holds(frames, u.frames) && settled + |u.frames| <= |frames|
    requires MIN_SPEECH_WINDOWS <= CountLoud(u.frames) && |u.frames| <= MAX_UTTERANCE_WINDOWS
    requires u.endMs == u.startMs + WINDOW_MS * |u.frames|
    ensures HandedSlices(frames, handed + [u], slices + [Slice(|frames| - |u.frames|, |frames|)], |frames|)
  {
    var after := slices + [Slice(|frames| - |u.frames|, |frames|)];
    assert Handed(frames, u, after[|slices|]);
    forall j, k | 0 <= j < k < |after| ensures after[j].hi <= after[k].lo {
      assert after[j] == slices[j];
    }
  }

  // The segmenter as a function of the windows it hears, without times.

  datatype Segmenter = Segmenter(preroll: seq<Frame>, speech: seq<Frame>, loud: nat, quiet: nat, spoken: nat,
                                 done: seq<seq<Frame>>)

  const SILENT := Segmenter([], [], 0, 0, 0, [])

  /** The pre-roll after a window, at most the last 15. */
  function Rolled(before: seq<Frame>, frame: Frame): seq<Frame> {
    if |before| + 1 > PREROLL_WINDOWS then (before + [frame])[1..] else before + [frame]
  }

  /** The utterance held, if any, is over: handed over unless too short, or nobody is there to take it. */
  function Closed(s: Segmenter, ready: bool): Segmenter {
    Segmenter(s.preroll, [], 0, 0, 0,
              if s.speech == [] || s.spoken < MIN_SPEECH_WINDOWS || !ready then s.done else s.done + [s.speech])
  }

  function Heard(s: Segmenter, frame: Frame, ready: bool): Segmenter {
    if s.speech == [] then
      var (rolled, run) := (Rolled(s.preroll, frame), if Loud(frame) then s.loud + 1 else 0);
      if run >= START_WINDOWS then Segmenter([], rolled, run, 0, run, s.done)
      else s.(preroll := rolled, loud := run)
    else
      var next := s.(speech := s.speech + [frame],
                     quiet := if Loud(frame) then 0 else s.quiet + 1,
                     spoken := if Loud(frame) then s.spoken + 1 else s.spoken);
      if next.quiet >= END_WINDOWS || |next.speech| >= MAX_UTTERANCE_WINDOWS then Closed(next, ready) else next
  }

  function HeardAll(s: Segmenter, frames: seq<Frame>, ready: bool): Segmenter {
    if frames == [] then s else Heard(HeardAll(s, frames[..|frames| - 1], ready), frames[|frames| - 1], ready)
  }

  lemma HeardAllAppend(s: Segmenter, frames: seq<Frame>, frame: Frame, ready: bool)
    ensures HeardAll(s, frames + [frame], ready) == Heard(HeardAll(s, frames, ready), frame, ready)
  {
    assert (frames + [frame])[..|frames|] == frames;
  }

  lemma {:induction false} HeardAllJoin(s: Segmenter, a: seq<Frame>, b: seq<Frame>, ready: bool)
    ensures HeardAll(s, a + b, ready) == HeardAll(HeardAll(s, a, ready), b, ready)
    decreases |b|
  {
    hide Heard;
    if b == [] {
      assert a + b == a;
    } else {
      var front := b[..|b| - 1];
      HeardAllJoin(s, a, front, ready);
      HeardAllAppend(s, a + front, b[|b| - 1], ready);
      HeardAllAppend(HeardAll(s, a, ready), front, b[|b| - 1], ready);
      assert a + b == a + front + [b[|b| - 1]] && b == front + [b[|b| - 1]];
    }
  }

  /** An utterance goes on until its last 35 windows were not loud, or it has 1500; only then is it over. */
  lemma UtterancesEndExactly(s: Segmenter, frame: Frame, ready: bool)
    requires s.speech != [] && Speaking(s.speech, s.quiet, s.spoken)
    ensures var (held, after) := (s.speech + [frame], Heard(s, frame, ready));
            if TrailingQuiet(held) >= 35 || |held| >= 1500
            then && after.speech == []
                 && after.done == s.done + if ready && s.spoken + CountLoud([frame]) >= 15 then [held] else []
            else after.speech == held && after.done == s.done
  {
    TrailingQuietAppend(s.speech, frame);
    CountLoudAppend([], frame);
    assert [] + [frame] == [frame];
  }

  /** One begins exactly at the fifth loud window in a row, with up to 15 windows, the last five of them loud. */
  lemma UtterancesBeginExactly(s: Segmenter, frame: Frame, ready: bool)
    requires s.speech == [] && Quiescent(s.preroll, s.loud)
    ensures var after := Heard(s, frame, ready);
            && (after.speech != [] <==> Loud(frame) && s.loud == 4)
            && (after.speech != [] ==>
                  && after.speech == (if |s.preroll| == 15 then s.preroll[1..] else s.preroll) + [frame]
                  && |after.speech| <= 15 && AllLoud(after.speech, 5))
            && after.done == s.done
  {
    LoudRun(s.preroll, s.loud, frame);
  }

  /** No audio for more than a second, by the time given. */
  predicate Gap(last: int, now: int) {
    last != 0 && now - last > 1_000
  }

  function FramesOf(handed: seq<Utterance>): seq<seq<Frame>> {
    seq(|handed|, k requires 0 <= k < |handed| => handed[k].frames)
  }

  lemma FramesOfAppend(handed: seq<Utterance>, u: Utterance)
    ensures FramesOf(handed + [u]) == FramesOf(handed) + [u.frames]
  {
  }

  class UtteranceTranscriber {
    /** Pre-roll while quiet, and the utterance being heard. */
    var preroll: seq<Frame>
    var speech: seq<Frame>
    var loud: nat
    var quiet: nat
    var spoken: nat
    var startedAtMs: int
    var lastFrameAtMs: int
    var partial: seq<Byte>
    /** Whether a recognizer takes utterances at the moment. */
    var recognizerReady: bool
    var handed: seq<Utterance>
    /** Every byte fed, every window cut from them, and where the handed utterances lie. */
    ghost var heard: seq<Byte>
    ghost var frames: seq<Frame>
    ghost var slices: seq<Slice>
    ghost var settled: nat

    constructor ()
      ensures Valid() && heard == [] && handed == [] && Now() == SILENT && lastFrameAtMs == 0
    {
      preroll, speech, loud, quiet, spoken := [], [], 0, 0, 0;
      startedAtMs, lastFrameAtMs, partial, handed, recognizerReady := 0, 0, [], [], true;
      heard, frames, slices, settled := [], [], [], 0;
    }

    ghost predicate Segmented()
      reads this`frames, this`preroll, this`speech, this`loud, this`quiet, this`spoken, this`settled, this`handed, this`slices
    {
      Tracks(frames, preroll, speech, loud, quiet, spoken, settled) && HandedSlices(frames, handed, slices, settled)
    }

    ghost predicate Valid()
      reads this
    {
      && Segmented()
      && frames == Windows(heard)
      && partial == heard[WINDOW_BYTES * |frames|..]
    }

    ghost function Now(): Segmenter
      reads this`preroll, this`speech, this`loud, this`quiet, this`spoken, this`handed
    {
      Segmenter(preroll, speech, loud, quiet, spoken, FramesOf(handed))
    }

    /** What finishing the utterance held hands over, with its times. */
    ghost function Finished(held: seq<Frame>, words: nat, before: seq<Utterance>): seq<Utterance>
      reads this`recognizerReady, this`startedAtMs
    {
      if held == [] || words < MIN_SPEECH_WINDOWS || !recognizerReady then before
      else before + [Utterance(held, startedAtMs, startedAtMs + WINDOW_MS * |held|)]
    }

    /** The utterance is over: hand it over unless it was too short, or no recognizer is there for it. */
    method Finish()
      requires HandedSlices(frames, handed, slices, settled)
      requires Holds(frames, preroll + speech) && settled + |preroll| + |speech| <= |frames|
      requires if speech == [] then |preroll| <= PREROLL_WINDOWS
               else preroll == [] && |speech| <= MAX_UTTERANCE_WINDOWS && spoken <= CountLoud(speech)
      modifies this`speech, this`loud, this`quiet, this`spoken, this`handed, this`slices, this`settled
      ensures Segmented() && Now() == Closed(old(Now()), recognizerReady)
      ensures settled == if old(speech) == [] then old(settled) else |frames|
      ensures handed == Finished(old(speech), old(spoken), old(handed)) && old(slices) <= slices
    {
      hide HandedSlices, CountLoud, Loud, Holds, AllLoud, Tracks, Speaking, FramesOf;
      var utterance, said := speech, spoken;
      speech, loud, quiet, spoken := [], 0, 0, 0;
      assert preroll + [] == preroll && [] + utterance == utterance;
      if utterance == [] {
        NobodyHeard(frames, preroll, settled);
        return;
      }
      NobodyHeard(frames, [], |frames|);
      if said >= MIN_SPEECH_WINDOWS && recognizerReady {
        ghost var u := Utterance(utterance, startedAtMs, startedAtMs + WINDOW_MS * |utterance|);
        HandOverKeeps(frames, handed, slices, settled, u);
        FramesOfAppend(handed, u);
        handed := handed + [Utterance(utterance, startedAtMs, startedAtMs + WINDOW_MS * |utterance|)];
        slices := slices + [Slice(|frames| - |utterance|, |frames|)];
      } else {
        SettleLater(frames, handed, slices, settled);
      }
      settled := |frames|;
    }

    /** One 20 ms window. */
    method Window(frame: Frame, capturedAtMs: int)
      requires Segmented()
      modifies this`preroll, this`speech, this`loud, this`quiet, this`spoken, this`startedAtMs,
               this`frames, this`handed, this`slices, this`settled
      ensures Segmented() && frames == old(frames) + [frame]
      ensures old(handed) <= handed && old(slices) <= slices
      ensures Now() == Heard(old(Now()), frame, recognizerReady)
      ensures old(speech) == [] && speech != [] ==> startedAtMs == capturedAtMs - WINDOW_MS * |speech|
      ensures !(old(speech) == [] && speech != []) ==> startedAtMs == old(startedAtMs)
      ensures handed == old(handed) || handed == old(handed) +
                [Utterance(old(speech) + [frame], startedAtMs, startedAtMs + WINDOW_MS * (|old(speech)| + 1))]
    {
      hide HandedSlices, CountLoud, Loud, TrailingQuiet, FramesOf, Heard, Holds, Quiescent, Speaking;
      MoreFramesKeepSlices(frames, handed, slices, settled, frame);
      HoldsAppend(frames, preroll + speech, frame);
      assert preroll + [] == preroll && [] + speech == speech;
      frames := frames + [frame];
      if speech == [] { Listen(frame, capturedAtMs); } else { GoOn(frame); }
    }

    /** A window of the utterance being heard: it goes on, or it is over. */
    method GoOn(frame: Frame)
      requires speech != [] && preroll == [] && Speaking(speech, quiet, spoken)
      requires Holds(frames, speech + [frame]) && settled + |speech| + 1 <= |frames|
      requires HandedSlices(frames, handed, slices, settled)
      modifies this`speech, this`loud, this`quiet, this`spoken, this`handed, this`slices, this`settled
      ensures Segmented() && Now() == Heard(old(Now()), frame, recognizerReady)
      ensures old(handed) <= handed && old(slices) <= slices
      ensures handed == old(handed) || handed == old(handed) +
                [Utterance(old(speech) + [frame], startedAtMs, startedAtMs + WINDOW_MS * (|old(speech)| + 1))]
    {
      hide HandedSlices, CountLoud, Loud, TrailingQuiet, FramesOf, Holds, Tracks;
      CountLoudAppend(speech, frame);
      TrailingQuietAppend(speech, frame);
      HeldTracks(frames, speech + [frame], loud, if Loud(frame) then 0 else quiet + 1,
                 if Loud(frame) then spoken + 1 else spoken, settled);
      assert [] + (speech + [frame]) == speech + [frame];
      speech := speech + [frame];
      if Loud(frame) {
        quiet := 0;
        spoken := spoken + 1;
      } else {
        quiet := quiet + 1;
      }
      if quiet >= END_WINDOWS || |speech| >= MAX_UTTERANCE_WINDOWS { Finish(); }
    }

    /** A window while nobody is heard: keep it in the pre-roll, and start an utterance at the fifth loud one in a row. */
    method Listen(frame: Frame, capturedAtMs: int)
      requires speech == [] && Quiescent(preroll, loud)
      requires Holds(frames, preroll + [frame]) && Holds(frames, (preroll + [frame])[1..])
      requires settled + |preroll| + 1 <= |frames| && HandedSlices(frames, handed, slices, settled)
      modifies this`preroll, this`speech, this`loud, this`quiet, this`spoken, this`startedAtMs
      ensures Segmented() && Now() == Heard(old(Now()), frame, recognizerReady)
      ensures startedAtMs == if speech != [] then capturedAtMs - WINDOW_MS * |speech| else old(startedAtMs)
    {
      hide HandedSlices, CountLoud, Loud, AllLoud, Tracks, Holds, FramesOf;
      LoudRun(preroll, loud, frame);
      preroll := preroll + [frame];
      if |preroll| > PREROLL_WINDOWS { preroll := preroll[1..]; }
      loud := if Loud(frame) then loud + 1 else 0;
      if loud >= START_WINDOWS {
        LoudEnd(preroll, loud);
        speech := preroll;
        preroll := [];
        startedAtMs := capturedAtMs - WINDOW_MS * |speech|;
        spoken := loud;
        quiet := 0;
        HeldTracks(frames, speech, loud, quiet, spoken, settled);
      } else {
        HeldTracks(frames, preroll, loud, quiet, spoken, settled);
      }
    }

    /** A microphone frame. More than a second without one means the utterance was over. */
    method Feed(capturedAtMs: int, pcm: seq<Byte>)
      requires Valid()
      modifies this
      ensures Valid() && heard == old(heard) + pcm && lastFrameAtMs == capturedAtMs && recognizerReady == old(recognizerReady)
      ensures |old(frames)| <= |frames| && frames[..|old(frames)|] == old(frames)
      ensures Now() == HeardAll(if Gap(old(lastFrameAtMs), capturedAtMs) then Closed(old(Now()), recognizerReady) else old(Now()),
                                frames[|old(frames)|..], recognizerReady)
      ensures old(handed) <= handed && old(slices) <= slices
    {
      hide Tracks, HandedSlices, Windows, Heard, Closed, FramesOf, AtCut;
      if lastFrameAtMs != 0 && capturedAtMs - lastFrameAtMs > GAP_MS { FinishHeld(); }
      lastFrameAtMs := capturedAtMs;
      var data := partial + pcm;
      WindowsGrow(heard, pcm);
      CutBegins(heard + pcm, frames);
      WindowCount(heard);
      assert data == (heard + pcm)[WINDOW_BYTES * |frames|..];
      heard := heard + pcm;
      ghost var cut;
      partial, cut := CutWindows(data, capturedAtMs);
      assert frames[|old(frames)|..] == cut;
    }

    /** Hear every whole window of the data; returns what is left over. */
    method CutWindows(data: seq<Byte>, capturedAtMs: int) returns (rest: seq<Byte>, ghost cut: seq<Frame>)
      requires Segmented() && AtCut(heard, frames, [], data, 0)
      modifies this`preroll, this`speech, this`loud, this`quiet, this`spoken, this`startedAtMs,
               this`frames, this`handed, this`slices, this`settled
      ensures Segmented() && old(handed) <= handed && old(slices) <= slices
      ensures frames == old(frames) + cut == Windows(heard)
      ensures WINDOW_BYTES * |frames| <= |heard| && rest == heard[WINDOW_BYTES * |frames|..]
      ensures Now() == HeardAll(old(Now()), cut, recognizerReady)
    {
      hide Tracks, HandedSlices, Windows, Heard, Closed, FramesOf, AtCut;
      var offset := 0;
      cut := [];
      while offset + WINDOW_BYTES <= |data|
        invariant Segmented() && old(handed) <= handed && old(slices) <= slices
        invariant AtCut(heard, old(frames), cut, data, offset) && frames == old(frames) + cut
        invariant Now() == HeardAll(old(Now()), cut, recognizerReady)
        decreases |data| - offset
      {
        var frame := data[offset..offset + WINDOW_BYTES];
        CutGoesOn(heard, old(frames), cut, data, offset);
        HeardAllAppend(old(Now()), cut, frame, recognizerReady);
        Window(frame, capturedAtMs);
        cut := cut + [frame];
        offset := offset + WINDOW_BYTES;
      }
      CutEnds(heard, old(frames), cut, data, offset);
      rest := data[offset..];
    }

    /** Ends the utterance held, if any, between windows. */
    method FinishHeld()
      requires Segmented()
      modifies this`speech, this`loud, this`quiet, this`spoken, this`handed, this`slices, this`settled
      ensures Segmented() && Now() == Closed(old(Now()), recognizerReady)
      ensures handed == Finished(old(speech), old(spoken), old(handed)) && old(slices) <= slices
    {
      hide HandedSlices, CountLoud, Loud, TrailingQuiet, FramesOf;
      assert preroll == [] ==> preroll + speech == speech;
      Finish();
    }

    /** On a timer: ends an utterance whose audio stopped arriving. */
    method Idle(nowMs: int)
      requires Valid()
      modifies this`speech, this`loud, this`quiet, this`spoken, this`handed, this`slices, this`settled
      ensures Valid() && old(slices) <= slices && old(handed) <= handed
      ensures Now() == if old(speech) != [] && Gap(lastFrameAtMs, nowMs) then Closed(old(Now()), recognizerReady) else old(Now())
    {
      hide Tracks, HandedSlices, Windows, FramesOf;
      if speech != [] && lastFrameAtMs != 0 && nowMs - lastFrameAtMs > GAP_MS { FinishHeld(); }
    }

    /**
     * Any deliveries of a stream, with timers and changes of the recognizer in between. The
     * windows depend only on the bytes; without gaps, and with the recognizer as it was, so
     * do the utterances found.
     */
    method FeedAll(blocks: seq<seq<Byte>>, times: seq<int>, timers: seq<int>, ready: seq<bool>, steady: bool)
      requires Valid() && heard == [] && Now() == SILENT && lastFrameAtMs == 0
      requires |times| == |timers| == |ready| == |blocks|
      modifies this
      ensures frames == Windows(Joined(blocks)) && HandedSlices(frames, handed, slices, settled)
      ensures Undisturbed(times, timers, ready, steady, |blocks|) ==> Now() == HeardAll(SILENT, Windows(Joined(blocks)), steady)
    {
      hide Tracks, HandedSlices, Windows, Heard, Closed, FramesOf, Undisturbed, Gap;
      WindowCount(heard);
      for n := 0 to |blocks|
        invariant Valid() && heard == Joined(blocks[..n])
        invariant lastFrameAtMs == LastTime(times, n)
        invariant Undisturbed(times, timers, ready, steady, n) ==> Now() == HeardAll(SILENT, frames, steady)
      {
        assert blocks[..n + 1][..n] == blocks[..n];
        recognizerReady := ready[n];
        Idle(timers[n]);
        ghost var before := frames;
        Feed(times[n], blocks[n]);
        if Undisturbed(times, timers, ready, steady, n + 1) {
          UndisturbedBefore(times, timers, ready, steady, n);
          assert frames == before + frames[|before|..];
          HeardAllJoin(SILENT, before, frames[|before|..], steady);
        }
      }
      assert blocks[..|blocks|] == blocks;
    }
  }

  /** The time of the last of n deliveries; 0 before any. */
  function LastTime(times: seq<int>, n: nat): int
    requires n <= |times|
  {
    if n == 0 then 0 else times[n - 1]
  }

  /** In n deliveries, no gap and no other recognizer. */
  ghost predicate Undisturbed(times: seq<int>, timers: seq<int>, ready: seq<bool>, steady: bool, n: nat)
    requires n <= |times| == |timers| == |ready|
  {
    forall k | 0 <= k < n ::
      !Gap(LastTime(times, k), times[k]) && !Gap(LastTime(times, k), timers[k]) && ready[k] == steady
  }

  lemma UndisturbedBefore(times: seq<int>, timers: seq<int>, ready: seq<bool>, steady: bool, n: nat)
    requires n < |times| == |timers| == |ready| && Undisturbed(times, timers, ready, steady, n + 1)
    ensures Undisturbed(times, timers, ready, steady, n)
    ensures !Gap(LastTime(times, n), times[n]) && !Gap(LastTime(times, n), timers[n]) && ready[n] == steady
  {
  }

  /** A run of loud windows at the end of the pre-roll survives the next window. */
  lemma LoudRun(preroll: seq<Frame>, loud: nat, frame: Frame)
    requires Quiescent(preroll, loud)
    ensures var run := if Loud(frame) then loud + 1 else 0;
            && AllLoud(preroll + [frame], run)
            && (|preroll| == PREROLL_WINDOWS ==> AllLoud((preroll + [frame])[1..], run))
  {
  }

  /** Five loud windows at the end: the utterance starts with as many heard, and none quiet. */
  lemma LoudEnd(frames: seq<Frame>, n: nat)
    requires AllLoud(frames, n) && n >= START_WINDOWS
    ensures CountLoud(frames) >= n && TrailingQuiet(frames) == 0
  {
    LoudTail(frames, n);
    assert Loud(frames[|frames| - 1]);
  }

  /** Between utterances, with no loud windows counted. */
  lemma NobodyHeard(frames: seq<Frame>, preroll: seq<Frame>, settled: nat)
    requires preroll == [] || Holds(frames, preroll)
    requires |preroll| <= PREROLL_WINDOWS && settled + |preroll| <= |frames|
    ensures Tracks(frames, preroll, [], 0, 0, 0, settled)
  {
    assert preroll + [] == preroll;
  }

  /** The windows held are pre-roll or an utterance. */
  lemma HeldTracks(frames: seq<Frame>, held: seq<Frame>, loud: nat, quiet: nat, spoken: nat, settled: nat)
    requires Holds(frames, held) && settled + |held| <= |frames|
    ensures Quiescent(held, loud) ==> Tracks(frames, held, [], loud, quiet, spoken, settled)
    ensures held != [] && Speaking(held, quiet, spoken) ==> Tracks(frames, [], held, loud, quiet, spoken, settled)
  {
    assert held + [] == held && [] + held == held;
  }

  lemma SettleLater(frames: seq<Frame>, handed: seq<Utterance>, slices: seq<Slice>, settled: nat)
    requires HandedSlices(frames, handed, slices, settled)
    ensures HandedSlices(frames, handed, slices, |frames|)
  {
  }

  /** Less than one window is left over. */
  lemma WindowCount(bytes: seq<Byte>)
    ensures 640 * |Windows(bytes)| <= |bytes| < 640 * (|Windows(bytes)| + 1)
  {
  }
}
