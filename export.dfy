/**
 * The text written by `save_transcriptions`: one `[MM:SS - MM:SS] text` line
 * per sentence for the plain-text file, and numbered `HH:MM:SS,mmm` blocks for
 * the subtitle file, over all final results in order.
 */
module Export {
  import opened Decimal
  import opened Timestamps
  import opened Recognition

  /** The sentences of all results, in result order and then sentence order. */
  function AllSentences(results: seq<AlignedResult>): (ss: seq<Sentence>) {
    if results == [] then []
    else AllSentences(results[..|results| - 1]) + results[|results| - 1].sentences
  }

  /** Every sentence of every result is exported, and nothing else. */
  lemma {:induction false} AllSentencesMembers(results: seq<AlignedResult>, s: Sentence)
    ensures s in AllSentences(results) <==> exists i :: 0 <= i < |results| && s in results[i].sentences
  {
    if results != [] {
      var init := results[..|results| - 1];
      AllSentencesMembers(init, s);
      if s in AllSentences(init) {
        var i :| 0 <= i < |init| && s in init[i].sentences;
        assert results[i] == init[i];
      }
      if exists i :: 0 <= i < |results| && s in results[i].sentences {
        var i :| 0 <= i < |results| && s in results[i].sentences;
        if i < |init| { assert init[i] == results[i]; }
      }
    }
  }

  /** One line of the plain-text file. */
  function TxtLine(s: Sentence): string {
    "[" + Display(s.start) + " - " + Display(s.end) + "] " + s.text + "\n"
  }

  /** One subtitle block: index, time range, text, blank line. */
  function SrtBlock(index: nat, s: Sentence): string {
    Digits(index) + "\n" + SrtStamp(s.start) + " --> " + SrtStamp(s.end) + "\n" + s.text + "\n\n"
  }

  /** One rendering per sentence, in order. */
  function Lines(ss: seq<Sentence>, line: Sentence -> string): string {
    if ss == [] then "" else Lines(ss[..|ss| - 1], line) + line(ss[|ss| - 1])
  }

  /** One rendering per sentence, the k-th one given the running counter after k - 1 increments from 1. */
  function Counted(ss: seq<Sentence>, block: (nat, Sentence) -> string): string {
    if ss == [] then "" else Counted(ss[..|ss| - 1], block) + block(|ss|, ss[|ss| - 1])
  }

  /** An independent statement of the numbering: blocks numbered first, first + 1, ... from the front. */
  function Numbered(ss: seq<Sentence>, first: nat, block: (nat, Sentence) -> string): string {
    if ss == [] then "" else block(first, ss[0]) + Numbered(ss[1..], first + 1, block)
  }

  /** The plain-text file. */
  function TxtDocument(ss: seq<Sentence>): string {
    Lines(ss, TxtLine)
  }

  /** The subtitle file. */
  function SrtDocument(ss: seq<Sentence>): string {
    Counted(ss, SrtBlock)
  }

  lemma LinesSnoc(ss: seq<Sentence>, s: Sentence, line: Sentence -> string)
    ensures Lines(ss + [s], line) == Lines(ss, line) + line(s)
  {
    assert (ss + [s])[..|ss|] == ss;
  }

  lemma CountedSnoc(ss: seq<Sentence>, s: Sentence, block: (nat, Sentence) -> string)
    ensures Counted(ss + [s], block) == Counted(ss, block) + block(|ss| + 1, s)
  {
    assert (ss + [s])[..|ss|] == ss;
  }

  lemma {:induction false} NumberedSnoc(ss: seq<Sentence>, first: nat, s: Sentence, block: (nat, Sentence) -> string)
    ensures Numbered(ss + [s], first, block) == Numbered(ss, first, block) + block(first + |ss|, s)
    decreases |ss|
  {
    if ss == [] {
      assert ([] + [s])[1..] == [];
    } else {
      assert (ss + [s])[1..] == ss[1..] + [s];
      NumberedSnoc(ss[1..], first + 1, s, block);
    }
  }

  /** Indices run 1, 2, 3, ... with one index per sentence, in order. */
  lemma {:induction false} CountedFromOne(ss: seq<Sentence>, block: (nat, Sentence) -> string)
    ensures Counted(ss, block) == Numbered(ss, 1, block)
  {
    if ss != [] {
      var init, s := ss[..|ss| - 1], ss[|ss| - 1];
      CountedFromOne(init, block);
      NumberedSnoc(init, 1, s, block);
      assert init + [s] == ss;
    }
  }

  /** Subtitle indices run 1, 2, 3, ... with one index per sentence across all results, in order. */
  lemma SrtNumbering(results: seq<AlignedResult>)
    ensures SrtDocument(AllSentences(results)) == Numbered(AllSentences(results), 1, SrtBlock)
  {
    CountedFromOne(AllSentences(results), SrtBlock);
  }

  /** The number of line breaks in a string. */
  function Newlines(s: string): nat {
    if s == [] then 0 else Newlines(s[..|s| - 1]) + (if s[|s| - 1] == '\n' then 1 else 0)
  }

  lemma {:induction false} NewlinesConcat(a: string, b: string)
    ensures Newlines(a + b) == Newlines(a) + Newlines(b)
    decreases |b|
  {
    if b == [] {
      assert a + b == a;
    } else {
      assert (a + b)[..|a + b| - 1] == a + b[..|b| - 1];
      NewlinesConcat(a, b[..|b| - 1]);
    }
  }

  lemma {:induction false} NewlinesAbsent(s: string)
    requires '\n' !in s
    ensures Newlines(s) == 0
  {
    if s != [] {
      NewlinesAbsent(s[..|s| - 1]);
    }
  }

  predicate SingleLine(s: Sentence) {
    '\n' !in s.text
  }

  /** A string with no line break of its own, ended by one, holds exactly one. */
  lemma OneBreakAtEnd(body: string)
    requires '\n' !in body
    ensures Newlines(body + "\n") == 1
  {
    NewlinesAbsent(body);
    assert (body + "\n")[..|body|] == body;
  }

  /**
   * The layout of a plain-text line, unfolded on its own so that counting its
   * breaks never has to look inside the timestamp renderings.
   */
  lemma TxtLineShape(s: Sentence)
    ensures var body := "[" + Display(s.start) + " - " + Display(s.end) + "] " + s.text;
      TxtLine(s) == body + "\n"
  {
  }

  /** A plain-text line ends in the only line break it contains. */
  lemma TxtLineOneBreak(s: Sentence)
    requires SingleLine(s)
    ensures Newlines(TxtLine(s)) == 1
  {
    StampsHaveNoNewline(s.start);
    StampsHaveNoNewline(s.end);
    TxtLineShape(s);
    BracketedOneBreak(Display(s.start), Display(s.end), s.text);
  }

  /** A bracketed time range and a text, none with a break of its own, ended by one. */
  lemma BracketedOneBreak(d1: string, d2: string, text: string)
    requires '\n' !in d1 && '\n' !in d2 && '\n' !in text
    ensures Newlines("[" + d1 + " - " + d2 + "] " + text + "\n") == 1
  {
    OneBreakAtEnd("[" + d1 + " - " + d2 + "] " + text);
  }

  lemma {:induction false} LinesCount(ss: seq<Sentence>, line: Sentence -> string)
    requires forall i :: 0 <= i < |ss| ==> Newlines(line(ss[i])) == 1
    ensures Newlines(Lines(ss, line)) == |ss|
  {
    if ss != [] {
      var init := ss[..|ss| - 1];
      LinesCount(init, line);
      NewlinesConcat(Lines(init, line), line(ss[|ss| - 1]));
    }
  }

  /** The plain-text file has exactly one line per sentence (for sentences without line breaks of their own). */
  lemma TxtOneLinePerSentence(results: seq<AlignedResult>)
    requires forall s :: s in AllSentences(results) ==> SingleLine(s)
    ensures Newlines(TxtDocument(AllSentences(results))) == |AllSentences(results)|
  {
    var ss := AllSentences(results);
    forall i | 0 <= i < |ss| ensures Newlines(TxtLine(ss[i])) == 1 {
      TxtLineOneBreak(ss[i]);
    }
    LinesCount(ss, TxtLine);
  }

  lemma ExtendPrefix<T>(done: seq<T>, items: seq<T>, j: nat)
    requires j < |items|
    ensures (done + items[..j]) + [items[j]] == done + items[..j + 1]
  {
    assert items[..j + 1] == items[..j] + [items[j]];
  }

  /**
   * The nested loop of the plain-text writer, over results and then their
   * sentences, with the line format as a parameter.
   */
  method WriteLines(results: seq<AlignedResult>, line: Sentence -> string) returns (out: string)
    ensures out == Lines(AllSentences(results), line)
  {
    out := "";
    var i := 0;
    while i < |results|
      invariant i <= |results|
      invariant out == Lines(AllSentences(results[..i]), line)
    {
      var sentences := results[i].sentences;
      var j := 0;
      assert AllSentences(results[..i]) + sentences[..0] == AllSentences(results[..i]);
      while j < |sentences|
        invariant j <= |sentences|
        invariant out == Lines(AllSentences(results[..i]) + sentences[..j], line)
      {
        ExtendPrefix(AllSentences(results[..i]), sentences, j);
        LinesSnoc(AllSentences(results[..i]) + sentences[..j], sentences[j], line);
        out := out + line(sentences[j]);
        j := j + 1;
      }
      assert sentences[..j] == sentences;
      assert results[..i + 1][..i] == results[..i];
      i := i + 1;
    }
    assert results[..i] == results;
  }

  /**
   * The nested loop of the subtitle writer, with its running index starting
   * at 1 and the block format as a parameter.
   */
  method WriteCounted(results: seq<AlignedResult>, block: (nat, Sentence) -> string) returns (out: string)
    ensures out == Counted(AllSentences(results), block)
  {
    out := "";
    var index := 1;
    var i := 0;
    while i < |results|
      invariant i <= |results|
      invariant out == Counted(AllSentences(results[..i]), block)
      invariant index == |AllSentences(results[..i])| + 1
    {
      var sentences := results[i].sentences;
      var j := 0;
      assert AllSentences(results[..i]) + sentences[..0] == AllSentences(results[..i]);
      while j < |sentences|
        invariant j <= |sentences|
        invariant out == Counted(AllSentences(results[..i]) + sentences[..j], block)
        invariant index == |AllSentences(results[..i]) + sentences[..j]| + 1
      {
        ExtendPrefix(AllSentences(results[..i]), sentences, j);
        CountedSnoc(AllSentences(results[..i]) + sentences[..j], sentences[j], block);
        out := out + block(index, sentences[j]);
        index := index + 1;
        j := j + 1;
      }
      assert sentences[..j] == sentences;
      assert results[..i + 1][..i] == results[..i];
      i := i + 1;
    }
    assert results[..i] == results;
  }

  /** The plain-text file. */
  method WriteTxt(results: seq<AlignedResult>) returns (out: string)
    ensures out == TxtDocument(AllSentences(results))
  {
    out := WriteLines(results, TxtLine);
  }

  /** The subtitle file. */
  method WriteSrt(results: seq<AlignedResult>) returns (out: string)
    ensures out == SrtDocument(AllSentences(results))
  {
    out := WriteCounted(results, SrtBlock);
  }

  /** A file `save_transcriptions` writes; the JSON file holds the results' own structure. */
  datatype SavedFile = TxtFile(contents: string) | SrtFile(contents: string) | JsonFile(results: seq<AlignedResult>)

  /**
   * Nothing is written when there are no results; otherwise one file per
   * requested format, in the order txt, srt, json.
   */
  method SaveTranscriptions(results: seq<AlignedResult>, formats: seq<string>) returns (files: seq<SavedFile>)
    ensures results == [] ==> files == []
    ensures results != [] ==>
      files == (if "txt" in formats then [TxtFile(TxtDocument(AllSentences(results)))] else [])
             + (if "srt" in formats then [SrtFile(SrtDocument(AllSentences(results)))] else [])
             + (if "json" in formats then [JsonFile(results)] else [])
  {
    if results == [] {
      return [];
    }
    var txt, srt, json := [], [], [];
    if "txt" in formats {
      var text := WriteTxt(results);
      txt := [TxtFile(text)];
    }
    if "srt" in formats {
      var text := WriteSrt(results);
      srt := [SrtFile(text)];
    }
    if "json" in formats {
      json := [JsonFile(results)];
    }
    files := txt + srt + json;
  }
}
