/**
 * The `--output-format` argument: lower-cased, split on commas, and `all`
 * anywhere in the list stands for the three formats.
 */
module Formats {

  /** ASCII lower-casing of one character. */
  function LowerChar(c: char): (d: char)
    ensures !('A' <= d <= 'Z')
    ensures !('A' <= c <= 'Z') ==> d == c
    ensures 'A' <= c <= 'Z' ==> 'a' <= d <= 'z' && d as int - 'a' as int == c as int - 'A' as int
  {
    if 'A' <= c <= 'Z' then (c as int - 'A' as int + 'a' as int) as char else c
  }

  function Lower(s: string): (r: string)
    ensures |r| == |s|
    ensures forall i :: 0 <= i < |s| ==> r[i] == LowerChar(s[i])
  {
    seq(|s|, i requires 0 <= i < |s| => LowerChar(s[i]))
  }

  /** `str.split(sep)`: the pieces between separators, empty ones included; never an empty list. */
  function Split(s: string, sep: char): (pieces: seq<string>)
    ensures |pieces| >= 1
    decreases |s|
  {
    if s == [] then [""]
    else
      var rest := Split(s[1..], sep);
      if s[0] == sep then [""] + rest
      else [[s[0]] + rest[0]] + rest[1..]
  }

  /** `sep.join(pieces)`. */
  function Join(pieces: seq<string>, sep: char): string
    requires |pieces| >= 1
    decreases |pieces|
  {
    if |pieces| == 1 then pieces[0] else pieces[0] + [sep] + Join(pieces[1..], sep)
  }

  /** Splitting loses nothing: joining the pieces gives the argument back. */
  lemma {:induction false} JoinSplit(s: string, sep: char)
    ensures Join(Split(s, sep), sep) == s
    decreases |s|
  {
    if s != [] {
      JoinSplit(s[1..], sep);
      var rest := Split(s[1..], sep);
      if s[0] == sep {
        assert ([""] + rest)[1..] == rest;
      } else {
        var pieces := [[s[0]] + rest[0]] + rest[1..];
        if |rest| > 1 {
          assert pieces[1..] == rest[1..];
          assert Join(rest, sep) == rest[0] + [sep] + Join(rest[1..], sep);
        }
      }
    }
  }

  /** No piece contains the separator. */
  lemma {:induction false} SplitPiecesFree(s: string, sep: char)
    ensures forall k :: 0 <= k < |Split(s, sep)| ==> sep !in Split(s, sep)[k]
    decreases |s|
  {
    if s != [] {
      SplitPiecesFree(s[1..], sep);
    }
  }

  const AllFormats: seq<string> := ["txt", "srt", "json"]

  /** `args.output_format.lower().split(",")`, with `all` expanded. */
  function OutputFormats(arg: string): (f: seq<string>)
    ensures |f| >= 1 && "all" !in f
  {
    var requested := Split(Lower(arg), ',');
    if "all" in requested then AllFormats else requested
  }

  /**
   * The requested formats are the lower-cased comma-separated pieces of the
   * argument, unless one of them is exactly `all`, which selects all three.
   */
  lemma OutputFormatsMeaning(arg: string)
    ensures "all" in Split(Lower(arg), ',') ==> OutputFormats(arg) == AllFormats
    ensures "all" !in Split(Lower(arg), ',') ==> Join(OutputFormats(arg), ',') == Lower(arg)
    ensures var f := OutputFormats(arg);
      forall k :: 0 <= k < |f| ==> ',' !in f[k] && forall i :: 0 <= i < |f[k]| ==> !('A' <= f[k][i] <= 'Z')
  {
    var requested := Split(Lower(arg), ',');
    JoinSplit(Lower(arg), ',');
    SplitPiecesFree(Lower(arg), ',');
    if "all" !in requested {
      forall k | 0 <= k < |requested|
        ensures forall i :: 0 <= i < |requested[k]| ==> !('A' <= requested[k][i] <= 'Z')
      {
        SplitPiecesLower(Lower(arg), k);
      }
    }
  }

  /** Pieces of a lower-cased string stay lower-cased. */
  lemma {:induction false} SplitPiecesLower(s: string, k: nat)
    requires forall i :: 0 <= i < |s| ==> !('A' <= s[i] <= 'Z')
    requires k < |Split(s, ',')|
    ensures forall i :: 0 <= i < |Split(s, ',')[k]| ==> !('A' <= Split(s, ',')[k][i] <= 'Z')
    decreases |s|
  {
    if s != [] {
      var rest := Split(s[1..], ',');
      if s[0] == ',' {
        if k > 0 { SplitPiecesLower(s[1..], k - 1); }
      } else if k == 0 {
        SplitPiecesLower(s[1..], 0);
      } else {
        SplitPiecesLower(s[1..], k);
      }
    }
  }

  /** A piece without separators splits into itself. */
  lemma {:induction false} SplitPlain(s: string, sep: char)
    requires sep !in s
    ensures Split(s, sep) == [s]
    decreases |s|
  {
    if s != [] {
      SplitPlain(s[1..], sep);
      assert [s[0]] + s[1..] == s;
    }
  }

  /** A separator after a plain piece starts a new piece. */
  lemma SplitAfter(a: string, b: string, sep: char)
    requires sep !in a
    ensures Split(a + [sep] + b, sep) == [a] + Split(b, sep)
    decreases |a|
  {
    if a == [] {
      assert [] + [sep] + b == [sep] + b;
      assert ([sep] + b)[1..] == b;
    } else {
      assert (a + [sep] + b)[1..] == a[1..] + [sep] + b;
      SplitAfter(a[1..], b, sep);
      assert [a[0]] + a[1..] == a;
    }
  }

  /** The default argument selects all three formats. */
  lemma DefaultFormats()
    ensures OutputFormats("all") == AllFormats
  {
    assert Lower("all") == "all";
    SplitPlain("all", ',');
  }

  /** A mixed-case list is lower-cased and kept in order. */
  lemma ListedFormats()
    ensures OutputFormats("TXT,srt") == ["txt", "srt"]
  {
    assert Lower("TXT,srt") == "txt" + [','] + "srt";
    SplitPlain("srt", ',');
    SplitAfter("txt", "srt", ',');
  }

  /** Joining pieces free of the separator and splitting again gives the pieces back. */
  lemma {:induction false} SplitJoin(pieces: seq<string>, sep: char)
    requires |pieces| >= 1
    requires forall k :: 0 <= k < |pieces| ==> sep !in pieces[k]
    ensures Split(Join(pieces, sep), sep) == pieces
    decreases |pieces|
  {
    if |pieces| == 1 {
      SplitPlain(pieces[0], sep);
    } else {
      SplitJoin(pieces[1..], sep);
      SplitAfter(pieces[0], Join(pieces[1..], sep), sep);
      assert [pieces[0]] + pieces[1..] == pieces;
    }
  }

  /** Each piece lower-cased. */
  function LowerEach(pieces: seq<string>): (r: seq<string>)
    ensures |r| == |pieces| && forall k :: 0 <= k < |pieces| ==> r[k] == Lower(pieces[k])
  {
    seq(|pieces|, k requires 0 <= k < |pieces| => Lower(pieces[k]))
  }

  lemma LowerConcat(a: string, b: string)
    ensures Lower(a + b) == Lower(a) + Lower(b)
  {
    assert forall i :: 0 <= i < |a + b| ==> Lower(a + b)[i] == (Lower(a) + Lower(b))[i];
  }

  /** Lower-casing a comma-joined list lower-cases each piece. */
  lemma {:induction false} LowerJoin(pieces: seq<string>)
    requires |pieces| >= 1
    ensures Lower(Join(pieces, ',')) == Join(LowerEach(pieces), ',')
    decreases |pieces|
  {
    if |pieces| > 1 {
      LowerJoin(pieces[1..]);
      LowerConcat(pieces[0] + [','], Join(pieces[1..], ','));
      LowerConcat(pieces[0], [',']);
      assert Lower([',']) == [','];
      assert LowerEach(pieces)[1..] == LowerEach(pieces[1..]);
    }
  }

  /** `all` anywhere in a comma-separated list, in any letter case, selects all three formats. */
  lemma AllAnywhere(pieces: seq<string>, k: nat)
    requires |pieces| >= 1 && k < |pieces|
    requires forall j :: 0 <= j < |pieces| ==> ',' !in pieces[j]
    requires Lower(pieces[k]) == "all"
    ensures OutputFormats(Join(pieces, ',')) == AllFormats
  {
    var lowered := LowerEach(pieces);
    LowerJoin(pieces);
    assert forall j :: 0 <= j < |lowered| ==> ',' !in lowered[j];
    SplitJoin(lowered, ',');
    assert lowered[k] == "all";
  }

  /** For instance `srt,ALL` selects all three. */
  lemma AllAnywhereExample()
    ensures OutputFormats("srt,ALL") == AllFormats
  {
    assert Join(["srt", "ALL"], ',') == "srt,ALL";
    assert Lower("ALL") == "all";
    AllAnywhere(["srt", "ALL"], 1);
  }
}
