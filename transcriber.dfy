/**
 * The consumer thread of the streaming transcriber, taken one dequeued frame
 * at a time: `TranscriptionState` is the shared state (with the global
 * `all_transcriptions` list), `Consumer` holds the two audio windows local to
 * `process_audio` and runs its loop body on each frame.
 */
module Transcriber {
  import opened Wrappers
  import opened Recognition
  import opened Assembler
  import opened Aggregator

  class TranscriptionState {
    var transcriptions: seq<AlignedResult>
    var latestText: string
    var chunksProcessed: nat

    function Snapshot(): Shared
      reads this
    {
      Shared(transcriptions, latestText, chunksProcessed)
    }

    constructor ()
      ensures Snapshot() == Initial
    {
      transcriptions, latestText, chunksProcessed := [], "", 0;
    }

    /** A valid full-chunk result: kept, shown if it has text, and counted. */
    method AppendFinal(result: AlignedResult)
      modifies this
      ensures Snapshot() == Recorded(old(Snapshot()), true, Some(result))
      ensures transcriptions == old(transcriptions) + [result]
      ensures chunksProcessed == old(chunksProcessed) + 1
    {
      transcriptions := transcriptions + [result];
      latestText := if result.text != "" then result.text else latestText;
      chunksProcessed := chunksProcessed + 1;
    }

    /** A valid interim result: shown if it has text, never kept. */
    method ShowInterim(result: AlignedResult)
      modifies this
      ensures Snapshot() == Recorded(old(Snapshot()), false, Some(result))
      ensures transcriptions == old(transcriptions) && chunksProcessed == old(chunksProcessed)
    {
      latestText := if result.text != "" then result.text else latestText;
    }
  }

  /** The whole session from start-up, as the sequence of frames dequeued before the stop signal. */
  function Session(cfg: Config, recognize: Recognizer, frames: seq<seq<real>>): (Buffers, Shared) {
    var t := Assemble(cfg, Buffers([], []), frames);
    (t.last, Replay(recognize, Initial, t.emissions))
  }

  class Consumer {
    const cfg: Config
    const recognize: Recognizer
    const state: TranscriptionState
    /** The short window. */
    var audioBuffer: seq<real>
    /** The long window; it stays empty when chunking is off. */
    var allAudio: seq<real>

    function Windows(): Buffers
      reads this
    {
      Buffers(audioBuffer, allAudio)
    }

    constructor (cfg: Config, recognize: Recognizer, state: TranscriptionState)
      ensures this.cfg == cfg && this.recognize == recognize && this.state == state
      ensures Windows() == Buffers([], [])
    {
      this.cfg, this.recognize, this.state := cfg, recognize, state;
      audioBuffer, allAudio := [], [];
    }

    /**
     * The loop body on one dequeued frame: append it, slice at most one
     * segment or chunk, transcribe it and record a valid result.
     */
    method Feed(frame: seq<real>) returns (emitted: Emission)
      modifies this, state
      ensures var r := Step(cfg, old(Windows()), frame);
        emitted == r.emitted && Windows() == r.next &&
        state.Snapshot() == Absorb(recognize, old(state.Snapshot()), r.emitted)
    {
      audioBuffer := audioBuffer + frame;
      if cfg.chunking {
        allAudio := allAudio + frame;
      }
      emitted := Idle;
      if |audioBuffer| >= cfg.bufferSize {
        var current := audioBuffer[..cfg.bufferSize];
        audioBuffer := audioBuffer[cfg.bufferSize..];
        if cfg.chunking && |allAudio| >= cfg.chunkSize {
          var chunk := allAudio[..cfg.chunkSize];
          if cfg.overlapSize > 0 {
            allAudio := PyTail(allAudio, cfg.chunkSize - cfg.overlapSize);
          } else {
            allAudio := allAudio[cfg.chunkSize..];
          }
          emitted := Full(chunk, current);
          match Transcribe(recognize, chunk)
          case Some(result) => state.AppendFinal(result);
          case None =>
        } else {
          emitted := Interim(current);
          match Transcribe(recognize, current)
          case Some(result) => state.ShowInterim(result);
          case None =>
        }
      }
    }

    /** The consumer loop over the frames in FIFO order. */
    method Run(frames: seq<seq<real>>)
      modifies this, state
      ensures var t := Assemble(cfg, old(Windows()), frames);
        Windows() == t.last && state.Snapshot() == Replay(recognize, old(state.Snapshot()), t.emissions)
    {
      ghost var start, shared := Windows(), state.Snapshot();
      var i := 0;
      while i < |frames|
        invariant i <= |frames|
        invariant var t := Assemble(cfg, start, frames[..i]);
          Windows() == t.last && state.Snapshot() == Replay(recognize, shared, t.emissions)
      {
        ghost var es := Assemble(cfg, start, frames[..i]).emissions;
        var e := Feed(frames[i]);
        assert frames[..i + 1][..i] == frames[..i];
        assert (es + [e])[..|es|] == es;
        i := i + 1;
      }
      assert frames[..|frames|] == frames;
    }
  }

  /**
   * A session from start-up keeps every accepted full-chunk result in order,
   * counts each once, and keeps nothing else.
   */
  lemma SessionKeepsFinals(cfg: Config, recognize: Recognizer, frames: seq<seq<real>>)
    ensures var t := Assemble(cfg, Buffers([], []), frames);
      var s := Session(cfg, recognize, frames).1;
      s.transcriptions == Finals(recognize, t.emissions) && s.chunksProcessed == |s.transcriptions|
  {
    var t := Assemble(cfg, Buffers([], []), frames);
    ReplayAppendsFinals(recognize, Initial, t.emissions);
  }
}
