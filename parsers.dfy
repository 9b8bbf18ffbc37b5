/**
 * Transcript normalisation (utils/parsers.py): plain text passes through;
 * WebVTT and SubRip files lose their header, blank, cue-number and
 * cue-timing lines, and the remaining lines are stripped and joined with
 * single spaces. The raw content is returned beside the clean text.
 */
module Parsers {
  import opened Wrappers
  import opened Text

  // ---------------------------------------------------------------------
  // The cue-timing regular expressions

  /** One position of a regular expression without repetition or alternation. */
  datatype Atom = Digit | Space | Lit(c: char)

  predicate AtomMatches(a: Atom, c: char) {
    match a
    case Digit => IsDigit(c)
    case Space => IsSpace(c)
    case Lit(l) => c == l
  }

  /**
   * `re.match(pattern, line)` for a fixed-length pattern: the pattern
   * matches a prefix of the line. Only the start is anchored.
   */
  predicate MatchesPrefix(pattern: seq<Atom>, line: string) {
    |pattern| <= |line| && forall i :: 0 <= i < |pattern| ==> AtomMatches(pattern[i], line[i])
  }

  /** `\d{2}:\d{2}:\d{2}<sep>\d{3}` */
  function Timestamp(sep: char): seq<Atom> {
    [Digit, Digit, Lit(':'), Digit, Digit, Lit(':'), Digit, Digit, Lit(sep), Digit, Digit, Digit]
  }

  /** `<timestamp>\s-->\s<timestamp>` */
  function TimingPattern(sep: char): (p: seq<Atom>)
    ensures |p| == 29
  {
    Timestamp(sep) + [Space, Lit('-'), Lit('-'), Lit('>'), Space] + Timestamp(sep)
  }

  datatype SubtitleFormat = Vtt | Srt

  /** WebVTT separates milliseconds with a dot, SubRip with a comma. */
  function MillisSeparator(f: SubtitleFormat): char {
    match f
    case Vtt => '.'
    case Srt => ','
  }

  predicate IsTimingLine(f: SubtitleFormat, line: string) {
    MatchesPrefix(TimingPattern(MillisSeparator(f)), line)
  }

  // ---------------------------------------------------------------------
  // Specification of parse_vtt and parse_srt

  /**
   * The lines the parser skips: for WebVTT any line containing `WEBVTT`;
   * for both formats whitespace-only lines, lines that `str.isdigit` accepts once
   * stripped, and lines that begin with the format's cue timing.
   */
  predicate Dropped(f: SubtitleFormat, line: string) {
    (f == Vtt && Contains(line, "WEBVTT"))
    || Strip(line) == ""
    || IsTimingLine(f, line)
    || IsDigitString(Strip(line))
  }

  /** What one input line contributes to the clean text. */
  function Contribution(f: SubtitleFormat, line: string): seq<string> {
    if Dropped(f, line) then [] else [Strip(line)]
  }

  /** The stripped kept lines, in input order. */
  function KeptLines(f: SubtitleFormat, lines: seq<string>): seq<string>
  {
    if lines == [] then []
    else KeptLines(f, lines[..|lines| - 1]) + Contribution(f, lines[|lines| - 1])
  }

  /**
   * The clean text of a subtitle file: the kept lines joined by single
   * spaces. It is one line, has no surrounding whitespace, and is empty
   * exactly when no line was kept.
   */
  function Clean(f: SubtitleFormat, content: string): (r: string)
    ensures NoLineBreak(r)
    ensures r == "" <==> KeptLines(f, SplitLines(content)) == []
    ensures r != "" ==> !IsSpace(r[0]) && !IsSpace(r[|r| - 1])
  {
    var kept := KeptLines(f, SplitLines(content));
    KeptLinesNoLineBreak(f, SplitLines(content));
    JoinNoLineBreak(kept);
    KeptLinesTrimmed(f, SplitLines(content));
    JoinTrimmed(kept);
    Join(kept, " ")
  }

  // ---------------------------------------------------------------------
  // The parsers

  /** parse_txt: the content of a text file as it is. */
  function ParseTxt(content: string): (r: string)
    ensures r == content
  {
    content
  }

  /** parse_vtt: loops over the lines, skipping header, blank, timing and cue-number lines. */
  method ParseVtt(content: string) returns (r: string)
    ensures r == Clean(Vtt, content)
  {
    var lines := SplitLines(content);
    var textContent: seq<string> := [];
    for i := 0 to |lines|
      invariant textContent == KeptLines(Vtt, lines[..i])
    {
      KeptLinesStep(Vtt, lines, i);
      var line := lines[i];
      if Contains(line, "WEBVTT") {
        continue;
      }
      if Strip(line) == "" {
        continue;
      }
      if MatchesPrefix(TimingPattern('.'), line) {
        continue;
      }
      if IsDigitString(Strip(line)) {
        continue;
      }
      textContent := textContent + [Strip(line)];
    }
    assert lines[..|lines|] == lines;
    r := Join(textContent, " ");
  }

  /** parse_srt: like parse_vtt with the comma timing and without the header rule. */
  method ParseSrt(content: string) returns (r: string)
    ensures r == Clean(Srt, content)
  {
    var lines := SplitLines(content);
    var textContent: seq<string> := [];
    for i := 0 to |lines|
      invariant textContent == KeptLines(Srt, lines[..i])
    {
      KeptLinesStep(Srt, lines, i);
      var line := lines[i];
      if Strip(line) == "" {
        continue;
      }
      if IsDigitString(Strip(line)) {
        continue;
      }
      if MatchesPrefix(TimingPattern(','), line) {
        continue;
      }
      textContent := textContent + [Strip(line)];
    }
    assert lines[..|lines|] == lines;
    r := Join(textContent, " ");
  }

  datatype ParseError = UnsupportedFormat

  /**
   * parse_transcript: dispatch on the exact, case-sensitive extension;
   * returns the clean text and the untouched content.
   */
  method ParseTranscript(content: string, extension: string)
    returns (r: Result<(string, string), ParseError>)
    ensures r.Ok? <==> extension == "txt" || extension == "vtt" || extension == "srt"
    ensures r.Err? ==> r.error == UnsupportedFormat
    ensures r.Ok? ==> r.value.1 == content
    ensures extension == "txt" ==> r.Ok? && r.value.0 == content
    ensures extension == "vtt" ==> r.Ok? && r.value.0 == Clean(Vtt, content)
    ensures extension == "srt" ==> r.Ok? && r.value.0 == Clean(Srt, content)
  {
    var cleanText := "";
    if extension == "txt" {
      cleanText := ParseTxt(content);
    } else if extension == "vtt" {
      cleanText := ParseVtt(content);
    } else if extension == "srt" {
      cleanText := ParseSrt(content);
    } else {
      return Err(UnsupportedFormat);
    }
    r := Ok((cleanText, content));
  }

  // ---------------------------------------------------------------------
  // Properties of the clean text

  /** The kept lines of a concatenation are the kept lines of each part, in order. */
  lemma {:induction false} KeptLinesAppend(f: SubtitleFormat, a: seq<string>, b: seq<string>)
    ensures KeptLines(f, a + b) == KeptLines(f, a) + KeptLines(f, b)
    decreases |b|
  {
    if b == [] {
      assert a + b == a;
    } else {
      var b' := b[..|b| - 1];
      assert (a + b)[..|a + b| - 1] == a + b';
      assert (a + b)[|a + b| - 1] == b[|b| - 1];
      KeptLinesAppend(f, a, b');
    }
  }

  /** A single line is kept, stripped, exactly when no drop rule applies. */
  lemma KeptLinesOne(f: SubtitleFormat, line: string)
    ensures KeptLines(f, [line]) == if Dropped(f, line) then [] else [Strip(line)]
  {
    assert [line][..0] == [];
  }

  /** One more input line adds its contribution at the end. */
  lemma KeptLinesStep(f: SubtitleFormat, lines: seq<string>, i: nat)
    requires i < |lines|
    ensures KeptLines(f, lines[..i + 1]) == KeptLines(f, lines[..i]) + Contribution(f, lines[i])
  {
    assert lines[..i + 1][..i] == lines[..i];
  }

  /** Every kept line is non-empty and has no surrounding whitespace. */
  lemma {:induction false} KeptLinesTrimmed(f: SubtitleFormat, lines: seq<string>)
    ensures NonEmptyTrimmed(KeptLines(f, lines))
  {
    if lines != [] {
      var init := lines[..|lines| - 1];
      var last := lines[|lines| - 1];
      KeptLinesTrimmed(f, init);
      ContributionTrimmed(f, last);
      NonEmptyTrimmedAppend(KeptLines(f, init), Contribution(f, last));
    }
  }

  lemma ContributionTrimmed(f: SubtitleFormat, line: string)
    ensures NonEmptyTrimmed(Contribution(f, line))
  {
    if !Dropped(f, line) {
      assert Strip(line) != "";
    }
  }

  /** Kept lines carry no line break when the input lines carry none. */
  lemma {:induction false} KeptLinesNoLineBreak(f: SubtitleFormat, lines: seq<string>)
    requires forall k :: 0 <= k < |lines| ==> NoLineBreak(lines[k])
    ensures forall k :: 0 <= k < |KeptLines(f, lines)| ==> NoLineBreak(KeptLines(f, lines)[k])
  {
    if lines != [] {
      var last := lines[|lines| - 1];
      KeptLinesNoLineBreak(f, lines[..|lines| - 1]);
      if !Dropped(f, last) {
        StripNoLineBreak(last);
      }
    }
  }

  /** WebVTT drops every line containing `WEBVTT`, wherever it occurs. */
  lemma VttDropsHeader(line: string, i: nat)
    requires At(line, "WEBVTT", i)
    ensures Dropped(Vtt, line)
  {
  }

  /**
   * A line holding only superscript digits is skipped by both parsers:
   * Python's `str.isdigit` accepts U+00B2, U+00B3 and U+00B9.
   */
  lemma SuperscriptLineDropped(f: SubtitleFormat)
    ensures Dropped(f, "\U{B2}")
    ensures Dropped(f, "\U{B9}\U{B3}")
  {
    StripTrimmed("\U{B2}");
    StripTrimmed("\U{B9}\U{B3}");
  }

  /** SubRip keeps a WebVTT header line. */
  lemma SrtKeepsHeader()
    ensures !Dropped(Srt, "WEBVTT")
  {
    var line := "WEBVTT";
    StripTrimmed(line);
    assert !IsDigit(line[0]);
    assert !AtomMatches(TimingPattern(',')[0], line[0]);
  }

  /** SubRip keeps a (trimmed) line with WebVTT's dotted timing as text. */
  lemma SrtKeepsVttTiming(line: string)
    requires IsTimingLine(Vtt, line)
    requires !IsSpace(line[|line| - 1])
    ensures !Dropped(Srt, line)
  {
    var vtt := TimingPattern('.');
    assert vtt[0] == Digit && vtt[2] == Lit(':') && vtt[8] == Lit('.');
    assert AtomMatches(vtt[0], line[0]) && AtomMatches(vtt[2], line[2]) && AtomMatches(vtt[8], line[8]);
    assert Strip(line) == line by {
      StripTrimmed(line);
    }
    assert !IsDigitString(line) by {
      assert !IsDecimalOrSuperscript(line[2]);
    }
    assert !IsTimingLine(Srt, line) by {
      assert TimingPattern(',')[8] == Lit(',');
    }
  }

  /**
   * The timing test is anchored at the start only: trailing cue settings
   * still make a timing line, an indented timing line is kept as text.
   */
  lemma TimingAnchoredAtStart(f: SubtitleFormat, line: string, suffix: string)
    ensures IsTimingLine(f, line) ==> IsTimingLine(f, line + suffix)
    ensures line != [] && IsSpace(line[0]) ==> !IsTimingLine(f, line)
  {
    if IsTimingLine(f, line) {
      forall i | 0 <= i < 29 ensures (line + suffix)[i] == line[i] { }
    }
    if line != [] && IsSpace(line[0]) {
      assert !AtomMatches(TimingPattern(MillisSeparator(f))[0], line[0]);
    }
  }
}
