/**
 * The chunk assembler of `process_audio`, one dequeued frame at a time: the
 * short window that yields interim segments and the long window that yields
 * overlapping full chunks.
 */
module Assembler {
  import opened Wrappers

  /**
   * Sizes are in samples. `chunking` is false under `--no-chunking`; the long
   * window then stays empty and chunk and overlap sizes are ignored.
   */
  datatype Config = Config(bufferSize: nat, chunking: bool, chunkSize: nat, overlapSize: nat)

  const SampleRate: nat := 16000
  const BufferSeconds: nat := 5
  const ChunkSeconds: nat := 20
  const OverlapSeconds: nat := 4

  /** The configuration the script runs with by default. */
  function DefaultConfig(chunking: bool): (cfg: Config)
    ensures cfg.bufferSize == 80000
    ensures cfg.chunkSize == 320000 && cfg.overlapSize == 64000
    ensures cfg.overlapSize < cfg.chunkSize
  {
    Config(BufferSeconds * SampleRate, chunking, ChunkSeconds * SampleRate, OverlapSeconds * SampleRate)
  }

  /** `audio_buffer` (short) and `all_audio` (long). */
  datatype Buffers = Buffers(short: seq<real>, long: seq<real>)

  /**
   * What one frame produces. A full chunk also consumes a short segment, which
   * is then thrown away; at most one emission happens per frame.
   */
  datatype Emission = Idle | Interim(segment: seq<real>) | Full(chunk: seq<real>, discarded: seq<real>)

  datatype StepResult = StepResult(next: Buffers, emitted: Emission)

  /** Python's `s[k:]`, including a negative k, which counts from the end. */
  function PyTail<T>(s: seq<T>, k: int): (r: seq<T>)
    ensures |r| <= |s| && r == s[|s| - |r|..]
    ensures 0 <= k <= |s| ==> r == s[k..]
    ensures k < 0 && -k <= |s| ==> |r| == -k
    ensures k > |s| ==> r == []
    ensures k < -|s| ==> r == s
  {
    if k >= 0 then (if k <= |s| then s[k..] else [])
    else if |s| + k >= 0 then s[|s| + k..]
    else s
  }

  /** The buffers after appending a frame, before anything is sliced off. */
  function Appended(cfg: Config, b: Buffers, frame: seq<real>): Buffers {
    Buffers(b.short + frame, if cfg.chunking then b.long + frame else b.long)
  }

  /** One iteration of the consumer loop on a dequeued frame. */
  function Step(cfg: Config, b: Buffers, frame: seq<real>): (r: StepResult)
    // the frame goes to the end of both windows; a window never drops samples except through an emission
    ensures var a := Appended(cfg, b, frame);
      a.short == b.short + frame && (cfg.chunking ==> a.long == b.long + frame) && (!cfg.chunking ==> a.long == b.long)
    // below the short threshold nothing is sliced and nothing is emitted
    ensures var a := Appended(cfg, b, frame);
      |a.short| < cfg.bufferSize ==> r == StepResult(a, Idle)
    // at the threshold the short window loses exactly its first bufferSize samples, in either branch
    ensures var a := Appended(cfg, b, frame);
      |a.short| >= cfg.bufferSize ==>
        r.emitted != Idle && r.next.short == a.short[cfg.bufferSize..] &&
        (r.emitted.Interim? ==> r.emitted.segment == a.short[..cfg.bufferSize]) &&
        (r.emitted.Full? ==> r.emitted.discarded == a.short[..cfg.bufferSize])
    // a full chunk is emitted exactly when both thresholds are met, and it is the long window's prefix
    ensures var a := Appended(cfg, b, frame);
      r.emitted.Full? <==> |a.short| >= cfg.bufferSize && cfg.chunking && |a.long| >= cfg.chunkSize
    ensures var a := Appended(cfg, b, frame);
      r.emitted.Full? ==> r.emitted.chunk == a.long[..cfg.chunkSize]
    // the long window changes only through a full chunk
    ensures !r.emitted.Full? ==> r.next.long == Appended(cfg, b, frame).long
    // with overlap, the carry is the tail from chunkSize - overlapSize on, and it starts with the chunk's last overlapSize samples
    ensures var a := Appended(cfg, b, frame);
      r.emitted.Full? && 0 < cfg.overlapSize <= cfg.chunkSize ==>
        r.next.long == a.long[cfg.chunkSize - cfg.overlapSize..] &&
        |r.next.long| == |a.long| - (cfg.chunkSize - cfg.overlapSize) &&
        r.next.long[..cfg.overlapSize] == r.emitted.chunk[cfg.chunkSize - cfg.overlapSize..]
    // with overlap, the carry is Python's `all_audio[chunk_size - overlap_size:]`, whatever the sizes
    ensures r.emitted.Full? && cfg.overlapSize > 0 ==>
      r.next.long == PyTail(Appended(cfg, b, frame).long, cfg.chunkSize - cfg.overlapSize)
    // either way the long window advances by chunkSize - overlapSize samples
    ensures var a := Appended(cfg, b, frame);
      r.emitted.Full? && cfg.overlapSize <= cfg.chunkSize ==>
        r.next.long == a.long[cfg.chunkSize - cfg.overlapSize..]
    // without overlap, the long window loses exactly the chunk
    ensures var a := Appended(cfg, b, frame);
      r.emitted.Full? && cfg.overlapSize == 0 ==>
        r.emitted.chunk + r.next.long == a.long && |r.next.long| == |a.long| - cfg.chunkSize
  {
    var a := Appended(cfg, b, frame);
    if |a.short| >= cfg.bufferSize then
      var current := a.short[..cfg.bufferSize];
      var short := a.short[cfg.bufferSize..];
      if cfg.chunking && |a.long| >= cfg.chunkSize then
        var chunk := a.long[..cfg.chunkSize];
        var long := if cfg.overlapSize > 0 then PyTail(a.long, cfg.chunkSize - cfg.overlapSize)
                    else a.long[cfg.chunkSize..];
        assert cfg.overlapSize == 0 ==> chunk + long == a.long;
        StepResult(Buffers(short, long), Full(chunk, current))
      else
        StepResult(Buffers(short, a.long), Interim(current))
    else
      StepResult(a, Idle)
  }

  /** Where the frames went after feeding them in order. */
  datatype Trace = Trace(last: Buffers, emissions: seq<Emission>)

  /** Feeds the frames in FIFO order, one step per frame. */
  function Assemble(cfg: Config, b: Buffers, frames: seq<seq<real>>): (t: Trace)
    ensures |t.emissions| == |frames|
  {
    if frames == [] then Trace(b, [])
    else
      var t := Assemble(cfg, b, frames[..|frames| - 1]);
      var r := Step(cfg, t.last, frames[|frames| - 1]);
      Trace(r.next, t.emissions + [r.emitted])
  }

  /** The last full chunk among the emissions, if any. */
  function LastFull(es: seq<Emission>): Option<seq<real>> {
    if es == [] then None
    else if es[|es| - 1].Full? then Some(es[|es| - 1].chunk)
    else LastFull(es[..|es| - 1])
  }

  /**
   * Between two full chunks the long window only grows at its end, so after a
   * full chunk the long window keeps starting with that chunk's last
   * overlapSize samples until the next one.
   */
  lemma {:induction false} CarryKept(cfg: Config, b: Buffers, frames: seq<seq<real>>)
    requires 0 < cfg.overlapSize <= cfg.chunkSize
    ensures var t := Assemble(cfg, b, frames);
      LastFull(t.emissions).Some? ==>
        |LastFull(t.emissions).value| == cfg.chunkSize && |t.last.long| >= cfg.overlapSize &&
        t.last.long[..cfg.overlapSize] == LastFull(t.emissions).value[cfg.chunkSize - cfg.overlapSize..]
  {
    if frames != [] {
      var init := frames[..|frames| - 1];
      CarryKept(cfg, b, init);
      var t := Assemble(cfg, b, init);
      var es := t.emissions + [Step(cfg, t.last, frames[|frames| - 1]).emitted];
      assert es[..|es| - 1] == t.emissions;
    }
  }

  /**
   * Overlap continuity: whenever a full chunk follows an earlier one, its first
   * overlapSize samples are the last overlapSize samples of the earlier chunk.
   */
  lemma OverlapContinuity(cfg: Config, b: Buffers, frames: seq<seq<real>>, frame: seq<real>)
    requires 0 < cfg.overlapSize <= cfg.chunkSize
    ensures var t := Assemble(cfg, b, frames);
      var r := Step(cfg, t.last, frame);
      r.emitted.Full? && LastFull(t.emissions).Some? ==>
        |LastFull(t.emissions).value| == cfg.chunkSize &&
        r.emitted.chunk[..cfg.overlapSize] == LastFull(t.emissions).value[cfg.chunkSize - cfg.overlapSize..]
  {
    CarryKept(cfg, b, frames);
  }

  /** Concatenation of a sequence of sample blocks. */
  function Concat(blocks: seq<seq<real>>): seq<real> {
    if blocks == [] then [] else Concat(blocks[..|blocks| - 1]) + blocks[|blocks| - 1]
  }

  /** The short-window samples an emission consumed: the interim segment, or the segment a full chunk discarded. */
  function ShortOf(e: Emission): seq<real> {
    match e
    case Idle => []
    case Interim(s) => s
    case Full(_, d) => d
  }

  /** One step neither loses nor repeats a short-window sample. */
  lemma StepShortConserved(cfg: Config, b: Buffers, frame: seq<real>)
    ensures var r := Step(cfg, b, frame); ShortOf(r.emitted) + r.next.short == b.short + frame
  {
  }

  function ShortConsumed(es: seq<Emission>): seq<real> {
    if es == [] then [] else ShortConsumed(es[..|es| - 1]) + ShortOf(es[|es| - 1])
  }

  /**
   * No sample is lost or repeated by the short window: what it consumed,
   * followed by what it still holds, is exactly what it started with followed
   * by every frame in order.
   */
  lemma {:induction false} ShortConserved(cfg: Config, b: Buffers, frames: seq<seq<real>>)
    ensures var t := Assemble(cfg, b, frames);
      ShortConsumed(t.emissions) + t.last.short == b.short + Concat(frames)
  {
    if frames != [] {
      var init, f := frames[..|frames| - 1], frames[|frames| - 1];
      ShortConserved(cfg, b, init);
      var t := Assemble(cfg, b, init);
      var r := Step(cfg, t.last, f);
      var es := t.emissions + [r.emitted];
      assert es[..|es| - 1] == t.emissions;
      StepShortConserved(cfg, t.last, f);
      assert Assemble(cfg, b, frames) == Trace(r.next, es);
      assert Concat(frames) == Concat(init) + f;
      assert ShortConsumed(es) == ShortConsumed(t.emissions) + ShortOf(r.emitted);
      Regroup(ShortConsumed(t.emissions), ShortOf(r.emitted), r.next.short, t.last.short, b.short, Concat(init), f);
    }
  }

  /**
   * The bookkeeping step of both conservation laws: if `done + held` accounts
   * for `start + fed`, and one more step moves `moved` out of `held + frame`,
   * leaving `next`, then `done + moved + next` accounts for `start + fed + frame`.
   */
  lemma Regroup(done: seq<real>, moved: seq<real>, next: seq<real>, held: seq<real>,
                start: seq<real>, fed: seq<real>, frame: seq<real>)
    requires done + held == start + fed
    requires moved + next == held + frame
    ensures (done + moved) + next == start + (fed + frame)
  {
    calc {
      (done + moved) + next;
      done + (moved + next);
      done + (held + frame);
      (done + held) + frame;
      (start + fed) + frame;
    }
  }

  /** The samples each full chunk advanced the long window by: its first chunkSize - overlapSize samples. */
  function LongAdvanced(cfg: Config, es: seq<Emission>): seq<real>
    requires cfg.overlapSize <= cfg.chunkSize
  {
    if es == [] then []
    else
      var e := es[|es| - 1];
      var step := if e.Full? && cfg.chunkSize - cfg.overlapSize <= |e.chunk|
                  then e.chunk[..cfg.chunkSize - cfg.overlapSize] else [];
      LongAdvanced(cfg, es[..|es| - 1]) + step
  }

  lemma LongAdvancedSnoc(cfg: Config, es: seq<Emission>, e: Emission)
    requires cfg.overlapSize <= cfg.chunkSize
    requires e.Full? ==> |e.chunk| == cfg.chunkSize
    ensures LongAdvanced(cfg, es + [e]) ==
      LongAdvanced(cfg, es) + (if e.Full? then e.chunk[..cfg.chunkSize - cfg.overlapSize] else [])
  {
    assert (es + [e])[..|es|] == es;
  }

  /** One full chunk advances the long window by its first chunkSize - overlapSize samples, and nothing else does. */
  lemma StepLongConserved(cfg: Config, b: Buffers, frame: seq<real>)
    requires cfg.chunking && cfg.overlapSize <= cfg.chunkSize
    ensures var r := Step(cfg, b, frame);
      (if r.emitted.Full? then r.emitted.chunk[..cfg.chunkSize - cfg.overlapSize] else []) + r.next.long == b.long + frame
  {
  }

  /**
   * No sample is lost or repeated by the long window: apart from the overlap
   * that a chunk hands on to the next, every sample fed in either was advanced
   * past by a full chunk or is still held, in order.
   */
  lemma {:induction false} LongConserved(cfg: Config, b: Buffers, frames: seq<seq<real>>)
    requires cfg.chunking && cfg.overlapSize <= cfg.chunkSize
    ensures var t := Assemble(cfg, b, frames);
      LongAdvanced(cfg, t.emissions) + t.last.long == b.long + Concat(frames)
  {
    if frames != [] {
      var init, f := frames[..|frames| - 1], frames[|frames| - 1];
      LongConserved(cfg, b, init);
      var t := Assemble(cfg, b, init);
      var r := Step(cfg, t.last, f);
      var es := t.emissions + [r.emitted];
      var step := if r.emitted.Full? then r.emitted.chunk[..cfg.chunkSize - cfg.overlapSize] else [];
      StepLongConserved(cfg, t.last, f);
      assert Assemble(cfg, b, frames) == Trace(r.next, es);
      assert Concat(frames) == Concat(init) + f;
      LongAdvancedSnoc(cfg, t.emissions, r.emitted);
      Regroup(LongAdvanced(cfg, t.emissions), step, r.next.long, t.last.long, b.long, Concat(init), f);
    }
  }

  /**
   * With the default sizes and 100 ms frames (1600 samples), the frame that
   * completes the first 20 s window also completes a 5 s short window: it
   * yields one full chunk, empties the short window and leaves 4 s (64000
   * samples) of carry.
   */
  lemma DefaultChunkBoundary(b: Buffers, frame: seq<real>)
    requires |frame| == 1600 && |b.short| == 78400 && |b.long| == 318400
    ensures var r := Step(DefaultConfig(true), b, frame);
      r.emitted.Full? && |r.emitted.chunk| == 320000 && r.next.short == [] && |r.next.long| == 64000
  {
  }

  /**
   * After that chunk, 256000 new samples refill the long window to 20 s, but
   * the short window then holds only 1 s, so the frame passes without a chunk:
   * the full check waits for the short-window trigger.
   */
  lemma DefaultRefillWaits(b: Buffers, frame: seq<real>)
    requires |frame| == 1600 && |b.short| == 14400 && |b.long| == 318400
    ensures var r := Step(DefaultConfig(true), b, frame);
      r.emitted == Idle && |r.next.short| == 16000 && |r.next.long| == 320000
  {
  }

  /**
   * Starting from the carry of a full chunk, fewer than 200 frames of 1600
   * samples produce no full chunk: the short window triggers every 50 frames,
   * and the long window is below 20 s at each of those triggers before the 200th.
   */
  lemma {:induction false} DefaultNoChunkBefore200(b: Buffers, frames: seq<seq<real>>)
    requires b.short == [] && |b.long| == 64000
    requires |frames| < 200
    requires forall i :: 0 <= i < |frames| ==> |frames[i]| == 1600
    ensures var t := Assemble(DefaultConfig(true), b, frames);
      |t.last.long| == 64000 + 1600 * |frames| && |t.last.short| == 1600 * (|frames| % 50) &&
      forall j :: 0 <= j < |t.emissions| ==> !t.emissions[j].Full?
  {
    if frames != [] {
      var n := |frames|;
      var init := frames[..n - 1];
      DefaultNoChunkBefore200(b, init);
      var cfg := DefaultConfig(true);
      var t := Assemble(cfg, b, init);
      var r := Step(cfg, t.last, frames[n - 1]);
      DefaultStepBefore200(t.last, frames[n - 1], n);
      var es := t.emissions + [r.emitted];
      assert forall j :: 0 <= j < |es| ==> !es[j].Full? by {
        assert forall j :: 0 <= j < |t.emissions| ==> es[j] == t.emissions[j];
      }
      assert Assemble(cfg, b, frames) == Trace(r.next, es);
    }
  }

  /** The n-th frame after a chunk, for n below 200, in the lemma above. */
  lemma DefaultStepBefore200(b: Buffers, frame: seq<real>, n: nat)
    requires |frame| == 1600 && 1 <= n < 200
    requires |b.short| == 1600 * ((n - 1) % 50) && |b.long| == 64000 + 1600 * (n - 1)
    ensures var r := Step(DefaultConfig(true), b, frame);
      !r.emitted.Full? && |r.next.short| == 1600 * (n % 50) && |r.next.long| == 64000 + 1600 * n
  {
    var m := (n - 1) % 50;
    if m == 49 {
      assert n == 50 || n == 100 || n == 150;
    } else {
      assert n % 50 == m + 1;
    }
  }

  /**
   * The 200th frame after a chunk gives the next one; by then the long window
   * holds 24 s, so the carry left after it is 128000 samples, twice the overlap.
   */
  lemma DefaultSecondChunk(b: Buffers, frame: seq<real>)
    requires |frame| == 1600 && |b.short| == 78400 && |b.long| == 382400
    ensures var r := Step(DefaultConfig(true), b, frame);
      r.emitted.Full? && |r.emitted.chunk| == 320000 && r.next.short == [] && |r.next.long| == 128000
  {
  }
}
