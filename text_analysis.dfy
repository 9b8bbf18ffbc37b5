/**
 * Transcript metrics (utils/text_analysis.py): the number of
 * whitespace-separated words and the speaking time at a fixed rate,
 * rounded to hundredths of a minute. The duration is kept as a whole
 * number of hundredths, so no floating point is involved.
 */
module TextAnalysis {
  import opened Text

  /** The fixed speaking rate, in words per minute. */
  const WordsPerMinute: nat := 140

  /** The two metrics; `durationHundredths` is `estimated_duration_mins` times 100. */
  datatype Metrics = Metrics(wordCount: nat, durationHundredths: nat)

  /**
   * `text.split()`: the maximal runs of non-whitespace characters. Put
   * together they are the non-whitespace characters of `text`, and there is
   * one per place where a non-whitespace character starts the text or
   * follows whitespace.
   */
  function Words(text: string): (r: seq<string>)
    ensures forall k :: 0 <= k < |r| ==> IsRun(r[k], IsNotSpace)
    ensures Join(r, "") == Filter(text, IsNotSpace)
    ensures |r| == RunStarts(text, IsNotSpace, 0)
  {
    RunsCover(text, IsNotSpace);
    RunsCount(text, IsNotSpace);
    Runs(text, IsNotSpace)
  }

  /**
   * `round(wordCount / 140, 2)` in hundredths: the whole number nearest to
   * `100 * wordCount / 140`. The distance is never exactly one half, so the
   * rounding mode of `round` plays no part.
   */
  function DurationHundredths(wordCount: nat): (h: nat)
    ensures -70 < WordsPerMinute * h - 100 * wordCount < 70
  {
    var h := (200 * wordCount + WordsPerMinute) / (2 * WordsPerMinute);
    assert (14 * h - 10 * wordCount) % 2 == 0;
    h
  }

  /**
   * calculate_metrics: the word count is the number of word starts, and the
   * duration is that count at 140 words per minute, to the nearest hundredth.
   */
  function CalculateMetrics(text: string): (r: Metrics)
    ensures r.wordCount == RunStarts(text, IsNotSpace, 0)
    ensures -70 < WordsPerMinute * r.durationHundredths - 100 * r.wordCount < 70
  {
    var wordCount := |Words(text)|;
    Metrics(wordCount, DurationHundredths(wordCount))
  }

  /** The rounded duration is the only whole number of hundredths within half a hundredth. */
  lemma DurationIsNearest(wordCount: nat, k: int)
    ensures -70 < WordsPerMinute * k - 100 * wordCount < 70 <==> k == DurationHundredths(wordCount)
  {
    var h := DurationHundredths(wordCount);
    if -70 < WordsPerMinute * k - 100 * wordCount < 70 {
      assert -140 < WordsPerMinute * (k - h) < 140;
    }
  }

  /** More words never give a shorter duration, and zero words give zero. */
  lemma DurationMonotone(a: nat, b: nat)
    requires a <= b
    ensures DurationHundredths(a) <= DurationHundredths(b)
    ensures DurationHundredths(0) == 0
  {
  }

  /** Worked values: 5 words take 0.04 minutes, 140 words 1.00 minute. */
  lemma DurationExamples()
    ensures DurationHundredths(5) == 4
    ensures DurationHundredths(140) == 100
  {
  }

  /** Empty or whitespace-only text has no words and no duration. */
  lemma MetricsOfBlank(text: string)
    requires AllChars(text, IsSpace)
    ensures CalculateMetrics(text) == Metrics(0, 0)
  {
    RunsOfNone(text, IsNotSpace);
  }

  /** Re-joining the words with single spaces changes neither metric. */
  lemma MetricsOfRejoined(text: string)
    ensures Words(Join(Words(text), " ")) == Words(text)
    ensures CalculateMetrics(Join(Words(text), " ")) == CalculateMetrics(text)
  {
    RunsOfJoin(Words(text), ' ', IsNotSpace);
  }
}
