# Streaming transcriber consumer — a Dafny model

This project models the consumer side of `enhanced_transcription.py`, the
real-time microphone transcriber of parakeet-transcript. It is taken one
dequeued audio frame at a time, without threads:

- **Chunk assembler** (`Assembler`). Every frame is appended to a short window
  (`audio_buffer`). With chunking on, it is also appended to a long window
  (`all_audio`). When the short window reaches `buffer_size` samples, its first
  `buffer_size` samples are cut off. In that same step, a long window of at least
  `chunk_size` samples gives up its first `chunk_size` samples as a FULL chunk and
  keeps the tail from `chunk_size - overlap_size` on. Otherwise the cut short
  segment is transcribed as an INTERIM segment. A frame yields at most one emission.
- **Transcription worker** (`Recognition`). A block is clipped to [-1, 1] and
  handed to the recogniser. The raw output is narrowed: a non-empty list becomes
  its first element, and a value without text is skipped.
- **Result aggregation** (`Aggregator`, `Transcriber`). A valid FULL result is
  appended to `all_transcriptions` and counted in `chunks_processed`. An INTERIM
  result only updates `latest_text`. `latest_text` only ever takes a non-empty text.
  `Transcriber.Consumer` is the imperative loop: `Feed` is one iteration, `Run`
  is the loop over a FIFO sequence of frames. Both are proved against the pure
  `Step`/`Assemble`/`Replay` specification.
- **Export** (`Timestamps`, `Decimal`, `Export`, `Formats`). This covers the
  `MM:SS` display, the SRT `HH:MM:SS,mmm` stamp, the txt and SRT writing loops with
  their running index, and the expansion of `--output-format`.

Samples are `real`; times are integer milliseconds. The recogniser is a
function-typed parameter (`Recognition.Recognizer`).

Behaviour of the code worth noting:

- The FULL check is made only inside the short-window trigger.
- A frame never yields two emissions.
- In the FULL branch the short segment is cut and thrown away.
- The buffers are not bounded after an emission. The long window is checked
  only when the short window triggers, so it usually grows past `chunk_size`
  first. With the defaults and 100 ms frames, the first chunk leaves 64000
  samples of carry. The next FULL comes 200 frames later, not after 256000 new
  samples, and leaves 128000 samples of carry, twice `overlap_size`.
- `overlap_size >= chunk_size` is not rejected. `Assembler.PyTail` models
  Python's `s[k:]`, including negative `k`. With `overlap == chunk` the long window
  never shrinks, so every later FULL chunk repeats the same samples. The
  continuity and conservation lemmas therefore assume `overlap <= chunk`.

## Model

| member | source | states |
|---|---|---|
| Assembler.DefaultConfig | enhanced_transcription.py:32-36 | default sizes are 80000-sample short window, 320000-sample chunk, 64000-sample overlap, and overlap < chunk |
| Assembler.PyTail | enhanced_transcription.py:246 | Python `s[k:]` yields a suffix of s; it is `s[k..]` for 0 <= k <= len, the last -k samples for negative k within the length, empty past the end and the whole of s before the start |
| Assembler.Step | enhanced_transcription.py:225-248 | frame goes to the end of both windows; below the threshold nothing is cut or emitted; at it the short window loses exactly its first buffer_size samples in either branch; FULL iff short threshold, chunking and long >= chunk_size; chunk = long prefix; the long window changes only on FULL, then it is Python's `all_audio[chunk_size - overlap_size:]` for any positive overlap, which for overlap <= chunk is the tail from chunk - overlap starting with the chunk's last overlap samples; with overlap 0 it loses exactly the chunk |
| Assembler.Assemble | enhanced_transcription.py:222-237 | feeding frames in FIFO order makes one step, with one emission slot, per frame |
| Assembler.CarryKept | enhanced_transcription.py:230-248 | after any FULL chunk, until the next one, the long window starts with that chunk's last overlap_size samples |
| Assembler.OverlapContinuity | enhanced_transcription.py:240-248 | of two consecutive FULL chunks, the later starts with the last overlap_size samples of the earlier |
| Assembler.StepShortConserved | enhanced_transcription.py:226-237 | per frame, the consumed short segment followed by the new short window is the old short window followed by the frame |
| Assembler.ShortConserved | enhanced_transcription.py:222-237 | over any frames, the short segments consumed followed by what the short window holds equals the initial window followed by all frames: nothing lost, nothing repeated |
| Assembler.StepLongConserved | enhanced_transcription.py:230-248 | per frame, the chunk_size - overlap_size samples a FULL chunk advances past, followed by the new long window, is the old long window followed by the frame |
| Assembler.LongConserved | enhanced_transcription.py:230-248 | over any frames, the samples the long window advanced past followed by what it still holds is its start followed by all frames |
| Assembler.DefaultChunkBoundary | enhanced_transcription.py:200-204 | with default sizes, the 1600-sample frame that completes 320000 long-window samples and 80000 short ones yields one FULL chunk, empties the short window and leaves 64000 samples of carry |
| Assembler.DefaultRefillWaits | enhanced_transcription.py:234-240 | with default sizes, the frame that refills the long window to 320000 samples while the short window holds 16000 yields nothing: the FULL check waits for the short trigger |
| Assembler.DefaultNoChunkBefore200 | enhanced_transcription.py:226-248 | from an empty short window and 64000 samples of carry, fewer than 200 default 1600-sample frames give no FULL chunk; the long window grows by 1600 per frame and the short one holds 1600 times the frame count mod 50 |
| Assembler.DefaultSecondChunk | enhanced_transcription.py:234-246 | the 200th such frame gives the next FULL chunk of 320000 samples and leaves 128000 samples of carry |
| Recognition.Validate | enhanced_transcription.py:272-275 | a value is accepted iff it carries text, and then it is the result itself |
| Recognition.NarrowAccepts | enhanced_transcription.py:268-275 | the outcome is Some(r) iff the raw value is r itself or a non-empty list whose first element is r |
| Recognition.NarrowRejects | enhanced_transcription.py:309-316 | a block is skipped iff the value has no text, or is an empty list, or is a list whose first element has no text |
| Recognition.Narrow | enhanced_transcription.py:268-275 | an accepted result is the raw value itself or the head of a non-empty list; an aligned value is always accepted (NarrowAccepts and NarrowRejects give both directions) |
| Recognition.Transcribe | enhanced_transcription.py:254-266 | an accepted result is what the recogniser returned on the clipped block, directly or as the head of a list |
| Recognition.Clip | enhanced_transcription.py:254 | the result lies in [-1, 1]; it is x for x in range, 1 above, -1 below |
| Recognition.Normalize | enhanced_transcription.py:292-295 | the block keeps its length and order; every sample is clipped and lies in [-1, 1] |
| Recognition.NormalizeKeepsInRange | enhanced_transcription.py:254-257 | a block already within [-1, 1] reaches the recogniser unchanged |
| Aggregator.Recorded | enhanced_transcription.py:281-287 | a skipped result changes nothing; a FINAL result is appended and counted once; an INTERIM one is never appended or counted; latest_text takes the result's text only if it is non-empty; results == count is preserved |
| Aggregator.Absorb | enhanced_transcription.py:280-287 | an idle frame changes nothing; an INTERIM segment leaves the results and the count alone; a FULL chunk adds at most one result at the end; the count invariant is kept (the latest-text rule is Recorded's) |
| Aggregator.ReplayAppendsFinals | enhanced_transcription.py:280-287 | over any emissions, all_transcriptions grows by exactly the accepted FULL-chunk results in order; chunks_processed grows by their number |
| Aggregator.ReplayKeepsCount | enhanced_transcription.py:282-287 | from start-up, chunks_processed equals the number of kept results on the exception-free path |
| Aggregator.ReplayLatestText | enhanced_transcription.py:321-323 | latest_text is the text of the last emission whose result was accepted with non-empty text |
| Aggregator.ReplayLatestTextKept | enhanced_transcription.py:321-323 | when no emission's result was accepted with non-empty text, latest_text is what it was before |
| Transcriber.TranscriptionState.constructor | enhanced_transcription.py:53-69 | start-up state: no results, empty text, zero chunks |
| Transcriber.TranscriptionState.AppendFinal | enhanced_transcription.py:281-287 | appends the result, updates latest_text per Recorded, counts one chunk |
| Transcriber.TranscriptionState.ShowInterim | enhanced_transcription.py:322-323 | updates latest_text per Recorded; results and count unchanged |
| Transcriber.Consumer.constructor | enhanced_transcription.py:198-220 | both windows start empty |
| Transcriber.Consumer.Feed | enhanced_transcription.py:225-326 | one loop iteration: the new windows and the emission are Step's, and the shared state is updated by Absorb of that emission |
| Transcriber.Consumer.Run | enhanced_transcription.py:222-330 | the loop over FIFO frames ends with the windows of Assemble and the shared state of Replay over its emissions |
| Transcriber.SessionKeepsFinals | enhanced_transcription.py:53 | a whole session keeps exactly the accepted FULL-chunk results, each counted once on the exception-free path |
| Decimal.ValueOfDigits | enhanced_transcription.py:157 | the decimal rendering of an index reads back as that index |
| Decimal.ValueOfPad | enhanced_transcription.py:96 | a zero-padded field reads back as the number it renders |
| Decimal.PadWidth | enhanced_transcription.py:154 | a number below 10^w padded to width w takes exactly w characters |
| Timestamps.Clock | enhanced_transcription.py:154-155 | minutes < 60, seconds < 60, milliseconds < 1000, and the fields recombine to the time |
| Timestamps.SrtStamp | enhanced_transcription.py:154-155 | the stamp is at least `HH:MM:SS,mmm` long, with `:`, `:` and `,` at its last fields' separators (SrtStampRoundTrip reads it back) |
| Timestamps.Display | enhanced_transcription.py:92-96 | the display is at least `MM:SS` long with `:` before a two-character seconds field (DisplayRoundTrip reads it back) |
| Timestamps.SrtStampRoundTrip | enhanced_transcription.py:154-155 | every SRT stamp parses back to the time it renders |
| Timestamps.SrtStampExample | enhanced_transcription.py:154 | 65250 ms renders as `00:01:05,250` and 70000 ms as `00:01:10,000` |
| Timestamps.DisplayRoundTrip | enhanced_transcription.py:92-96 | the MM:SS display parses back to the whole seconds of the time; its seconds field is below 60 |
| Timestamps.StampsHaveNoNewline | enhanced_transcription.py:144 | neither rendering contains a line break |
| Export.AllSentencesMembers | enhanced_transcription.py:142-143 | the exported sentences are exactly the sentences of the results |
| Export.CountedFromOne | enhanced_transcription.py:150-158 | a counter starting at 1 and incremented per sentence numbers the blocks 1, 2, 3, ... from the front |
| Export.SrtNumbering | enhanced_transcription.py:150-158 | SRT indices run 1, 2, 3, ... with one per sentence across all results in order |
| Export.TxtLine | enhanced_transcription.py:144 | `[MM:SS - MM:SS] text` ended by a line break; TxtLineOneBreak and TxtOneLinePerSentence state what it guarantees |
| Export.SrtBlock | enhanced_transcription.py:154-157 | index, `start --> end` stamps, text and a blank line; SrtNumbering states the index it carries |
| Export.TxtLineOneBreak | enhanced_transcription.py:144 | for a sentence whose text has no line break, the txt line holds exactly one line break, at its end |
| Export.LinesCount | enhanced_transcription.py:142-144 | one single-line rendering per sentence gives as many lines as sentences |
| Export.TxtOneLinePerSentence | enhanced_transcription.py:140-144 | when no sentence text contains a line break, the txt file has exactly one line per sentence |
| Export.WriteLines | enhanced_transcription.py:142-144 | the nested loop writes the line of every sentence of every result, in order |
| Export.WriteCounted | enhanced_transcription.py:150-158 | the nested loop with `index += 1` writes the k-th sentence's block with index k |
| Export.WriteTxt | enhanced_transcription.py:140-145 | the txt file is the txt document of all sentences |
| Export.WriteSrt | enhanced_transcription.py:148-159 | the SRT file is the counted SRT document of all sentences |
| Export.SaveTranscriptions | enhanced_transcription.py:126-192 | nothing is written without results; otherwise one file per requested format, in txt, srt, json order |
| Formats.LowerChar | enhanced_transcription.py:456 | an upper-case ASCII letter becomes the lower-case letter at the same alphabet position; other characters are unchanged |
| Formats.JoinSplit | enhanced_transcription.py:456 | joining the comma-split pieces gives the argument back |
| Formats.SplitPiecesFree | enhanced_transcription.py:456 | no piece contains a comma |
| Formats.OutputFormats | enhanced_transcription.py:456-458 | the list is never empty and never contains `all` (OutputFormatsMeaning says which list it is) |
| Formats.OutputFormatsMeaning | enhanced_transcription.py:456-458 | if a lower-cased comma piece of the argument is `all`, the formats are all three; otherwise they join back to the lower-cased argument; each is comma-free and lower-case |
| Formats.DefaultFormats | enhanced_transcription.py:379-381 | the default `all` selects txt, srt and json |
| Formats.ListedFormats | enhanced_transcription.py:456 | `TXT,srt` gives `txt`, `srt` in order |
| Formats.SplitJoin | enhanced_transcription.py:456 | splitting comma-free pieces joined by commas gives the pieces back |
| Formats.AllAnywhere | enhanced_transcription.py:456-458 | for any comma-separated list, a piece that lower-cases to `all`, at any position, selects all three formats |
| Formats.AllAnywhereExample | enhanced_transcription.py:456-458 | `srt,ALL` selects all three formats |

## Left out

- The audio capture callback, `queue.Queue`, `stop_event`, the SIGINT handler, the processing thread and `join(timeout=2.0)` (concurrency and I/O). The consumer loop runs over the finite FIFO sequence of frames dequeued before the stop signal. A `queue.Empty` timeout is an iteration that does nothing, so it is not modelled. The `queue.Full` branch is unreachable because the queue is unbounded.
- Model loading, `get_logmel` and `model.generate` are foreign ML calls. They are the `Recognizer` function parameter.
- The `float32` cast and floating point in general: samples are exact reals. Audio has one channel, so `flatten` keeps the samples in order.
- Times are integer milliseconds. Python's `int()` on float seconds (its rounding of `(t % 1) * 1000`, negative times) is not modelled. Timestamps are chunk-relative, as in the source.
- Sizes are `nat` parameters, not `int(duration * SAMPLE_RATE)` of command-line floats.
- RTF measurement, `time.time()`, `state.last_update`, `state.recording_started` and the unused `TranscriptionState` fields (`current_chunk`, `chunk_duration`, `is_speaking`, `silence_start`) are clocks or unused state.
- `display_result` and `colored` are terminal output.
- Directory creation, the timestamped file name, file writes and `json.dump` are file I/O. A saved file is its text, and the JSON file is the structured results themselves.
- The catch-all `except Exception`, argparse and device listing.
- Aggregator.ReplayKeepsCount: an exception from `display_result` after the append skips the increment, so in the source `chunks_processed` can fall behind `all_transcriptions`; the model's count invariant excludes that path, as does Transcriber.SessionKeepsFinals.
- A result whose `text` is `None` is not modelled: text is always a string.
- Formats.LowerChar: lower-cases ASCII letters only, where Python's `str.lower` also folds non-ASCII letters.
- Assembler.Assemble: its own contract only fixes the number of emissions; what the steps do is stated by Step and the conservation and continuity lemmas.
- The overlay scripts (`clip_with_bubble.py`, `overlay_framesvg.py`, `overlay_text_bubble.py`, `overlay_gif.py`) are wrappers over video and SVG libraries.
