/**
 * The shared transcription state that the worker writes: the list of final
 * results (`all_transcriptions`), the latest display text and the count of
 * processed chunks, and how each emission of the assembler changes it.
 */
module Aggregator {
  import opened Wrappers
  import opened Recognition
  import opened Assembler

  datatype Shared = Shared(transcriptions: seq<AlignedResult>, latestText: string, chunksProcessed: nat)

  /** The state at start-up: no results, empty text, no chunk processed. */
  const Initial: Shared := Shared([], "", 0)

  /** The results are exactly the counted chunks. */
  predicate Counted(s: Shared) {
    s.chunksProcessed == |s.transcriptions|
  }

  /**
   * The effect of one worker outcome. A skipped (malformed) result changes
   * nothing; a final result is kept and counted; an interim one only shows.
   */
  function Recorded(s: Shared, isFinal: bool, outcome: Option<AlignedResult>): (t: Shared)
    ensures outcome.None? ==> t == s
    ensures outcome.Some? && isFinal ==>
      t.transcriptions == s.transcriptions + [outcome.value] && t.chunksProcessed == s.chunksProcessed + 1
    ensures !isFinal ==> t.transcriptions == s.transcriptions && t.chunksProcessed == s.chunksProcessed
    ensures t.latestText == if outcome.Some? && outcome.value.text != "" then outcome.value.text else s.latestText
    ensures Counted(s) ==> Counted(t)
  {
    match outcome
    case None => s
    case Some(r) =>
      var text := if r.text != "" then r.text else s.latestText;
      if isFinal then Shared(s.transcriptions + [r], text, s.chunksProcessed + 1)
      else s.(latestText := text)
  }

  /** The worker's handling of one emission: a full chunk is final, an interim segment is not. */
  function Absorb(recognize: Recognizer, s: Shared, e: Emission): (t: Shared)
    ensures e.Idle? ==> t == s
    ensures !e.Full? ==> t.transcriptions == s.transcriptions && t.chunksProcessed == s.chunksProcessed
    ensures e.Full? ==>
      (|s.transcriptions| <= |t.transcriptions| <= |s.transcriptions| + 1 &&
       t.transcriptions[..|s.transcriptions|] == s.transcriptions)
    ensures Counted(s) ==> Counted(t)
  {
    match e
    case Idle => s
    case Interim(segment) => Recorded(s, false, Transcribe(recognize, segment))
    case Full(chunk, _) => Recorded(s, true, Transcribe(recognize, chunk))
  }

  /** The worker's handling of the emissions in order. */
  function Replay(recognize: Recognizer, s: Shared, es: seq<Emission>): Shared {
    if es == [] then s else Absorb(recognize, Replay(recognize, s, es[..|es| - 1]), es[|es| - 1])
  }

  /** The accepted results of the full chunks among the emissions, in order. */
  function Finals(recognize: Recognizer, es: seq<Emission>): seq<AlignedResult> {
    if es == [] then []
    else
      var e := es[|es| - 1];
      var outcome := if e.Full? then Transcribe(recognize, e.chunk) else None;
      Finals(recognize, es[..|es| - 1]) + (if outcome.Some? then [outcome.value] else [])
  }

  /**
   * Results are only ever appended, and exactly the accepted full-chunk
   * results are appended, in emission order; the chunk count rises by one per
   * appended result, so interim segments and skipped results leave both alone.
   */
  lemma {:induction false} ReplayAppendsFinals(recognize: Recognizer, s: Shared, es: seq<Emission>)
    ensures Replay(recognize, s, es).transcriptions == s.transcriptions + Finals(recognize, es)
    ensures Replay(recognize, s, es).chunksProcessed == s.chunksProcessed + |Finals(recognize, es)|
  {
    if es != [] {
      var init := es[..|es| - 1];
      ReplayAppendsFinals(recognize, s, init);
      var before := Replay(recognize, s, init);
      assert before.transcriptions == s.transcriptions + Finals(recognize, init);
      var e := es[|es| - 1];
      var outcome := if e.Full? then Transcribe(recognize, e.chunk) else None;
      var added := if outcome.Some? then [outcome.value] else [];
      assert Replay(recognize, s, es).transcriptions == before.transcriptions + added;
      assert s.transcriptions + Finals(recognize, init) + added == s.transcriptions + (Finals(recognize, init) + added);
    }
  }

  /** The count of processed chunks always equals the number of kept results. */
  lemma ReplayKeepsCount(recognize: Recognizer, es: seq<Emission>)
    ensures Counted(Replay(recognize, Initial, es))
  {
    ReplayAppendsFinals(recognize, Initial, es);
  }

  /**
   * The display text is the text of the last emission whose result was
   * accepted with non-empty text (the case with none is `ReplayLatestTextKept`).
   */
  lemma {:induction false} ReplayLatestText(recognize: Recognizer, s: Shared, es: seq<Emission>, k: nat)
    requires k < |es|
    requires var o := Transcribe(recognize, EmittedBlock(es[k]));
      !es[k].Idle? && o.Some? && o.value.text != ""
    requires forall j :: k < j < |es| ==>
      var o := Transcribe(recognize, EmittedBlock(es[j]));
      es[j].Idle? || o.None? || o.value.text == ""
    ensures Replay(recognize, s, es).latestText == Transcribe(recognize, EmittedBlock(es[k])).value.text
    decreases |es|
  {
    var init := es[..|es| - 1];
    if k < |es| - 1 {
      ReplayLatestText(recognize, s, init, k);
    }
  }

  /** With no emission accepted with non-empty text, the display text stays what it was. */
  lemma {:induction false} ReplayLatestTextKept(recognize: Recognizer, s: Shared, es: seq<Emission>)
    requires forall j :: 0 <= j < |es| ==>
      var o := Transcribe(recognize, EmittedBlock(es[j]));
      es[j].Idle? || o.None? || o.value.text == ""
    ensures Replay(recognize, s, es).latestText == s.latestText
    decreases |es|
  {
    if es != [] {
      var init := es[..|es| - 1];
      ReplayLatestTextKept(recognize, s, init);
    }
  }

  /** The block an emission hands to the worker. */
  function EmittedBlock(e: Emission): seq<real> {
    match e
    case Idle => []
    case Interim(segment) => segment
    case Full(chunk, _) => chunk
  }
}
