/**
 * What the transcription worker hands to the speech recogniser and what it
 * accepts back: the aligned-result data model, the normalisation of a sample
 * block (clip to [-1, 1]) and the narrowing of the recogniser's raw output.
 */
module Recognition {
  import opened Wrappers

  /** Times are integer milliseconds from the start of the block that was transcribed. */
  datatype Token = Token(text: string, start: nat, end: nat, duration: nat)

  datatype Sentence = Sentence(text: string, start: nat, end: nat, duration: nat, tokens: seq<Token>)

  datatype AlignedResult = AlignedResult(text: string, sentences: seq<Sentence>)

  /**
   * The shapes the recogniser may return: an aligned result, a list of values,
   * or any other value (one without a `text` attribute).
   */
  datatype Raw = Aligned(result: AlignedResult) | Listed(items: seq<Raw>) | Unexpected

  /** `hasattr(result, 'text')`: only an aligned result carries text. */
  function Validate(raw: Raw): (r: Option<AlignedResult>)
    ensures r.Some? <==> raw.Aligned?
    ensures r.Some? ==> r.value == raw.result
  {
    if raw.Aligned? then Some(raw.result) else None
  }

  /**
   * A non-empty list is replaced by its first element (one level only); the
   * value is then accepted only if it carries text. None means the block is
   * skipped as a malformed result.
   */
  function Narrow(raw: Raw): (r: Option<AlignedResult>)
    ensures r.Some? ==>
      raw == Aligned(r.value) || (raw.Listed? && |raw.items| > 0 && raw.items[0] == Aligned(r.value))
    ensures raw.Aligned? ==> r == Some(raw.result)
  {
    var unwrapped := if raw.Listed? && |raw.items| > 0 then raw.items[0] else raw;
    Validate(unwrapped)
  }

  /** Exactly two shapes are accepted, and each yields the result it carries. */
  lemma NarrowAccepts(raw: Raw, r: AlignedResult)
    ensures Narrow(raw) == Some(r) <==>
              raw == Aligned(r) || (raw.Listed? && |raw.items| > 0 && raw.items[0] == Aligned(r))
  {
  }

  /** Everything else is skipped: an empty list, a list whose head has no text, a value without text. */
  lemma NarrowRejects(raw: Raw)
    ensures Narrow(raw) == None <==>
              raw.Unexpected? || (raw.Listed? && (|raw.items| == 0 || !raw.items[0].Aligned?))
  {
  }

  /** `np.clip(x, -1.0, 1.0)` on one sample. */
  function Clip(x: real): (y: real)
    ensures -1.0 <= y <= 1.0
    ensures -1.0 <= x <= 1.0 ==> y == x
    ensures x > 1.0 ==> y == 1.0
    ensures x < -1.0 ==> y == -1.0
  {
    if x < -1.0 then -1.0 else if x > 1.0 then 1.0 else x
  }

  predicate InRange(s: seq<real>) {
    forall i :: 0 <= i < |s| ==> -1.0 <= s[i] <= 1.0
  }

  /**
   * The block handed to the recogniser: samples clipped to [-1, 1] and
   * flattened. Input is mono, so flattening keeps the order of the samples.
   */
  function Normalize(block: seq<real>): (r: seq<real>)
    ensures |r| == |block|
    ensures InRange(r)
    ensures forall i :: 0 <= i < |block| ==> r[i] == Clip(block[i])
  {
    seq(|block|, i requires 0 <= i < |block| => Clip(block[i]))
  }

  /** A block already within range reaches the recogniser unchanged, so normalising twice changes nothing. */
  lemma NormalizeKeepsInRange(block: seq<real>)
    requires InRange(block)
    ensures Normalize(block) == block
  {
  }

  /** The recogniser: feature extraction plus the model, which this model treats as a parameter. */
  type Recognizer = seq<real> -> Raw

  /** One worker call: normalise, recognise, narrow. */
  function Transcribe(recognize: Recognizer, block: seq<real>): (r: Option<AlignedResult>)
    ensures r.Some? ==> var raw := recognize(Normalize(block));
      raw == Aligned(r.value) || (raw.Listed? && |raw.items| > 0 && raw.items[0] == Aligned(r.value))
  {
    Narrow(recognize(Normalize(block)))
  }
}
