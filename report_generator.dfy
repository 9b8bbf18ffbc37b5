/**
 * The PDF coaching report (utils/report_generator.py): the text sanitiser
 * for the standard Latin-1 fonts, and the content of the report as a
 * sequence of headings and text blocks, which groups into five titled
 * sections in a fixed order. Fonts, colours, positions and the page
 * header and footer are not part of the content.
 */
module ReportGenerator {
  import opened Wrappers
  import opened Text
  import opened Json
  import TextAnalysis
  import GeminiClient

  // ---------------------------------------------------------------------
  // clean_text

  /** `str.replace` with a one-character pattern. */
  function ReplaceChar(s: string, from: char, to: char): string {
    seq(|s|, i requires 0 <= i < |s| => if s[i] == from then to else s[i])
  }

  predicate IsLatin1(c: char) {
    c as int <= 255
  }

  /** `s.encode('latin-1', 'replace').decode('latin-1')` */
  function EncodeLatin1Replace(s: string): string {
    seq(|s|, i requires 0 <= i < |s| => if IsLatin1(s[i]) then s[i] else '?')
  }

  /**
   * clean_text: the right single quote becomes an apostrophe, the curly
   * double quotes a straight one, the en dash a hyphen, and every other
   * character outside Latin-1 a question mark. It works character by
   * character, as `CleanChar` says, and keeps the length.
   */
  function CleanText(text: string): (r: string)
    ensures |r| == |text|
    ensures forall i :: 0 <= i < |text| ==> r[i] == CleanChar(text[i])
  {
    if text == "" then ""
    else
      var replaced := ReplaceChar(ReplaceChar(ReplaceChar(ReplaceChar(
        text, '\U{2019}', '\''), '\U{201C}', '"'), '\U{201D}', '"'), '\U{2013}', '-');
      EncodeLatin1Replace(replaced)
  }

  /** What clean_text does to one character, stated on its own. */
  function CleanChar(c: char): (r: char)
    ensures IsLatin1(r)
    ensures IsLatin1(c) ==> r == c
  {
    if c == '\U{2019}' then '\''
    else if c == '\U{201C}' || c == '\U{201D}' then '"'
    else if c == '\U{2013}' then '-'
    else if IsLatin1(c) then c
    else '?'
  }

  /** Every character of the result is in Latin-1. */
  lemma CleanTextIsLatin1(text: string)
    ensures AllChars(CleanText(text), IsLatin1)
  {
  }

  /** Latin-1 text passes through unchanged. */
  lemma CleanTextKeepsLatin1(text: string)
    requires AllChars(text, IsLatin1)
    ensures CleanText(text) == text
  {
  }

  /** Cleaning twice is the same as cleaning once. */
  lemma CleanTextIdempotent(text: string)
    ensures CleanText(CleanText(text)) == CleanText(text)
  {
    CleanTextIsLatin1(text);
    CleanTextKeepsLatin1(CleanText(text));
  }

  /** The four typographic replacements, and `?` for the rest of what Latin-1 lacks. */
  lemma CleanTextReplacements(text: string, i: nat)
    requires i < |text|
    ensures text[i] == '\U{2019}' ==> CleanText(text)[i] == '\''
    ensures text[i] == '\U{201C}' || text[i] == '\U{201D}' ==> CleanText(text)[i] == '"'
    ensures text[i] == '\U{2013}' ==> CleanText(text)[i] == '-'
    ensures !IsLatin1(text[i]) && text[i] !in {'\U{2019}', '\U{201C}', '\U{201D}', '\U{2013}'} ==>
      CleanText(text)[i] == '?'
  {
  }

  // ---------------------------------------------------------------------
  // Rendering values as Python's str() does

  datatype ReportError =
    | NotText      // clean_text of a truthy non-string: `replace` is missing
    | NotIterable  // a list field holding null, a boolean or a number
    | Unrendered   // a dict or list printed with str(), or a non-empty dict iterated

  function DigitChar(d: nat): (c: char)
    requires d < 10
    ensures IsDigit(c) && c as int - '0' as int == d
  {
    ('0' as int + d) as char
  }

  /** `str(n)` for a non-negative integer. */
  function NatToString(n: nat): (r: string)
    ensures IsDigits(r)
    ensures r[0] == '0' ==> n == 0
    decreases n
  {
    if n < 10 then [DigitChar(n)] else NatToString(n / 10) + [DigitChar(n % 10)]
  }

  /** The number a string of decimal digits denotes. */
  function DigitsValue(s: string): nat
    requires forall i :: 0 <= i < |s| ==> IsDigit(s[i])
  {
    if s == [] then 0
    else
      assert IsDigit(s[|s| - 1]);
      10 * DigitsValue(s[..|s| - 1]) + (s[|s| - 1] as int - '0' as int)
  }

  /** Reading the decimal digits back gives the number. */
  lemma {:induction false} NatToStringRoundTrip(n: nat)
    ensures DigitsValue(NatToString(n)) == n
    decreases n
  {
    if n >= 10 {
      NatToStringRoundTrip(n / 10);
      var r := NatToString(n);
      assert r[..|r| - 1] == NatToString(n / 10);
    }
  }

  /** `str(i)` for any integer: a minus sign for a negative one, then the digits of its magnitude. */
  function IntToString(i: int): (r: string)
    ensures i >= 0 ==> IsDigits(r) && DigitsValue(r) == i
    ensures i < 0 ==> |r| > 1 && r[0] == '-' && IsDigits(r[1..]) && DigitsValue(r[1..]) == -i
  {
    NatToStringRoundTrip(if i < 0 then -i else i);
    assert i < 0 ==> ("-" + NatToString(-i))[1..] == NatToString(-i);
    if i < 0 then "-" + NatToString(-i) else NatToString(i)
  }

  /**
   * The digits after the point of `repr` of a float rounded to two places:
   * no trailing zero, but at least one digit.
   */
  function FractionDigits(f: nat): (r: string)
    requires f < 100
    ensures 1 <= |r| <= 2 && forall i :: 0 <= i < |r| ==> IsDigit(r[i])
    ensures DigitsValue(r) * (if |r| == 1 then 10 else 1) == f
    ensures |r| == 2 ==> r[1] != '0'
  {
    if f % 10 == 0 then
      var r := [DigitChar(f / 10)];
      assert r[..0] == [];
      assert DigitsValue(r) == f / 10;
      assert (f / 10) * 10 == f;
      r
    else
      var r := [DigitChar(f / 10), DigitChar(f % 10)];
      assert r[..1] == [DigitChar(f / 10)];
      assert r[..1][..0] == [];
      assert DigitsValue(r[..1]) == f / 10;
      assert DigitsValue(r) == 10 * (f / 10) + f % 10;
      r
  }

  /** `str(round(x, 2))` for `x` a whole number `h` of hundredths. */
  function HundredthsToString(h: nat): string {
    NatToString(h / 100) + "." + FractionDigits(h % 100)
  }

  /** Worked values: 4 hundredths print as `0.04`, 100 as `1.0`, 150 as `1.5`. */
  lemma HundredthsExamples()
    ensures HundredthsToString(4) == "0.04"
    ensures HundredthsToString(100) == "1.0"
    ensures HundredthsToString(150) == "1.5"
  {
  }

  /** `str()` of a scalar JSON value; containers are not rendered by the model. */
  function PyStr(j: Json): (r: Result<string, ReportError>)
    ensures r.Err? <==> j.JArr? || j.JObj?
    ensures j.JStr? ==> r == Ok(j.s)
    ensures j.JInt? ==> r == Ok(IntToString(j.i))
    ensures j.JNull? ==> r == Ok("None")
  {
    match j
    case JNull => Ok("None")
    case JBool(b) => Ok(if b then "True" else "False")
    case JInt(i) => Ok(IntToString(i))
    case JFloat(repr) => Ok(repr)
    case JStr(s) => Ok(s)
    case JArr(_) => Err(Unrendered)
    case JObj(_) => Err(Unrendered)
  }

  /**
   * The argument of clean_text: a string is cleaned, any falsy value gives
   * the empty text, and any other value fails on `replace`.
   */
  function TextArg(j: Json): (r: Result<string, ReportError>)
    ensures r.Ok? <==> j.JStr? || !Truthy(j)
    ensures j.JStr? ==> r == Ok(j.s)
    ensures r.Ok? && !j.JStr? ==> r.value == ""
  {
    if j.JStr? then Ok(j.s)
    else if !Truthy(j) then Ok("")
    else Err(NotText)
  }

  /** What `for item in value` walks over. */
  function Iterated(j: Json): (r: Result<seq<Json>, ReportError>)
    ensures j.JArr? ==> r == Ok(j.items)
    ensures j.JStr? ==>
      && r.Ok? && |r.value| == |j.s|
      && forall i :: 0 <= i < |j.s| ==> r.value[i] == JStr([j.s[i]])
    ensures j.JNull? || j.JBool? || j.JInt? || j.JFloat? ==> r == Err(NotIterable)
  {
    match j
    case JArr(items) => Ok(items)
    case JStr(s) => Ok(seq(|s|, i requires 0 <= i < |s| => JStr([s[i]])))
    case JObj(fields) => if fields == map[] then Ok([]) else Err(Unrendered)
    case _ => Err(NotIterable)
  }

  // ---------------------------------------------------------------------
  // The report content

  const ExecutiveSummary: string := "Executive Summary"
  const KeyMetrics: string := "Key Metrics"
  const WhatWentWell: string := "What Went Well"
  const AreasForImprovement: string := "Areas for Improvement"
  const CoachingTips: string := "Coaching Tips"
  const NoSummary: string := "No summary available."
  const NotAvailable: string := "N/A"

  /** What the report puts on the page: a heading cell or a wrapped text cell. */
  datatype Block = Heading(title: string) | Body(text: string)

  /** The entries of the metrics dict; a missing key is `None`. */
  datatype MetricsEntries = MetricsEntries(wordCount: Option<nat>, durationHundredths: Option<nat>)

  /** The dict calculate_metrics returns. */
  function EntriesOf(m: TextAnalysis.Metrics): MetricsEntries {
    MetricsEntries(Some(m.wordCount), Some(m.durationHundredths))
  }

  /** `- ` and the cleaned text, for each item in order. */
  function Bullets(items: seq<Json>): (r: Result<seq<string>, ReportError>)
    ensures r.Ok? <==> forall i :: 0 <= i < |items| ==> TextArg(items[i]).Ok?
    ensures r.Ok? ==>
      && |r.value| == |items|
      && forall i :: 0 <= i < |items| ==> r.value[i] == "- " + CleanText(TextArg(items[i]).value)
  {
    if items == [] then Ok([])
    else
      var init :- Bullets(items[..|items| - 1]);
      var text :- TextArg(items[|items| - 1]);
      Ok(init + ["- " + CleanText(text)])
  }

  /** The items of a list field; a missing key iterates over nothing. */
  function ItemsOf(analysis: map<string, Json>, key: string): Result<seq<Json>, ReportError> {
    if key in analysis then Iterated(analysis[key]) else Ok([])
  }

  /** The summary paragraph. */
  function SummaryText(analysis: map<string, Json>): Result<string, ReportError> {
    if "summary" in analysis then
      var text :- TextArg(analysis["summary"]);
      Ok(CleanText(text))
    else Ok(CleanText(NoSummary))
  }

  function OrNotAvailable(n: Option<nat>, render: nat -> string): string {
    if n.Some? then render(n.value) else NotAvailable
  }

  /** The three metric lines, before cleaning. */
  function MetricLines(sentiment: string, wordCount: string, duration: string): string {
    "Sentiment Score: " + sentiment + "/100\n" +
    "Word Count: " + wordCount + "\n" +
    "Estimated Duration: " + duration + " mins"
  }

  /** The metric paragraph: the score as `str()` prints it, `N/A` for what is missing. */
  function MetricText(analysis: map<string, Json>, metrics: MetricsEntries): Result<string, ReportError> {
    var sentiment :- if "sentiment_score" in analysis then PyStr(analysis["sentiment_score"]) else Ok(NotAvailable);
    Ok(CleanText(MetricLines(
      sentiment,
      OrNotAvailable(metrics.wordCount, NatToString),
      OrNotAvailable(metrics.durationHundredths, HundredthsToString))))
  }

  function Bodies(texts: seq<string>): (r: seq<Block>)
    ensures |r| == |texts| && forall i :: 0 <= i < |texts| ==> r[i] == Body(texts[i])
  {
    seq(|texts|, i requires 0 <= i < |texts| => Body(texts[i]))
  }

  /** The first two sections: the summary and the metrics. */
  function Front(analysis: map<string, Json>, metrics: MetricsEntries): Result<seq<Block>, ReportError> {
    var summary :- SummaryText(analysis);
    var metricText :- MetricText(analysis, metrics);
    Ok([Heading(ExecutiveSummary), Body(summary), Heading(KeyMetrics), Body(metricText)])
  }

  /** A titled section with one bullet per item of a list field. */
  function BulletSection(title: string, analysis: map<string, Json>, key: string): Result<seq<Block>, ReportError> {
    var items :- ItemsOf(analysis, key);
    var bullets :- Bullets(items);
    Ok([Heading(title)] + Bodies(bullets))
  }

  /** The report's content, or the first error in the order the report is written. */
  function Layout(analysis: map<string, Json>, metrics: MetricsEntries): (r: Result<seq<Block>, ReportError>)
    ensures r.Ok? <==>
      && Front(analysis, metrics).Ok?
      && BulletSection(WhatWentWell, analysis, "strengths").Ok?
      && BulletSection(AreasForImprovement, analysis, "improvements").Ok?
      && BulletSection(CoachingTips, analysis, "coaching_tips").Ok?
    ensures Front(analysis, metrics).Err? ==> r == Err(Front(analysis, metrics).error)
  {
    var front :- Front(analysis, metrics);
    var strengths :- BulletSection(WhatWentWell, analysis, "strengths");
    var improvements :- BulletSection(AreasForImprovement, analysis, "improvements");
    var tips :- BulletSection(CoachingTips, analysis, "coaching_tips");
    Ok(front + strengths + improvements + tips)
  }

  // ---------------------------------------------------------------------
  // generate_pdf_report

  /** The document being written: the blocks placed so far. */
  class Pdf {
    var blocks: seq<Block>

    constructor ()
      ensures blocks == []
    {
      blocks := [];
    }

    /** `cell`: a heading line. */
    method Cell(title: string)
      modifies this
      ensures blocks == old(blocks) + [Heading(title)]
    {
      blocks := blocks + [Heading(title)];
    }

    /** `multi_cell`: a wrapped paragraph. */
    method MultiCell(text: string)
      modifies this
      ensures blocks == old(blocks) + [Body(text)]
    {
      blocks := blocks + [Body(text)];
    }
  }

  /** One bullet loop: `for item in items: pdf.multi_cell(..., f"- {clean_text(item)}")`. */
  method WriteBullets(pdf: Pdf, items: seq<Json>) returns (r: Result<(), ReportError>)
    modifies pdf
    ensures r.Ok? <==> Bullets(items).Ok?
    ensures r.Err? ==> r.error == Bullets(items).error
    ensures r.Ok? ==> pdf.blocks == old(pdf.blocks) + Bodies(Bullets(items).value)
  {
    for i := 0 to |items|
      invariant Bullets(items[..i]).Ok?
      invariant pdf.blocks == old(pdf.blocks) + Bodies(Bullets(items[..i]).value)
    {
      assert items[..i + 1][..i] == items[..i];
      var text := TextArg(items[i]);
      if text.Err? {
        BulletsFirstError(items, i);
        return Err(text.error);
      }
      pdf.MultiCell("- " + CleanText(text.value));
    }
    assert items[..|items|] == items;
    r := Ok(());
  }

  /** The first item that is not text decides the error of the whole list. */
  lemma BulletsFirstError(items: seq<Json>, i: nat)
    requires i < |items| && Bullets(items[..i]).Ok? && TextArg(items[i]).Err?
    ensures Bullets(items).Err? && Bullets(items).error == TextArg(items[i]).error
    decreases |items|
  {
    if i < |items| - 1 {
      assert items[..|items| - 1][..i] == items[..i];
      BulletsFirstError(items[..|items| - 1], i);
    } else {
      assert items[..|items| - 1] == items[..i];
    }
  }

  /** One bullet section: its heading, then its loop. */
  method WriteBulletSection(pdf: Pdf, title: string, analysis: map<string, Json>, key: string)
    returns (r: Result<(), ReportError>)
    modifies pdf
    ensures r.Ok? <==> BulletSection(title, analysis, key).Ok?
    ensures r.Err? ==> r.error == BulletSection(title, analysis, key).error
    ensures r.Ok? ==> pdf.blocks == old(pdf.blocks) + BulletSection(title, analysis, key).value
  {
    pdf.Cell(title);
    var items :- ItemsOf(analysis, key);
    var _ :- WriteBullets(pdf, items);
    AppendAssoc(old(pdf.blocks), [Heading(title)], Bodies(Bullets(items).value));
    r := Ok(());
  }

  lemma AppendAssoc<T>(a: seq<T>, b: seq<T>, c: seq<T>)
    ensures a + b + c == a + (b + c)
  {
  }

  /** generate_pdf_report: the blocks of the finished document, or the error that stops it. */
  method GeneratePdfReport(analysis: map<string, Json>, metrics: MetricsEntries)
    returns (r: Result<seq<Block>, ReportError>)
    ensures r == Layout(analysis, metrics)
  {
    var pdf := new Pdf();
    pdf.Cell(ExecutiveSummary);
    var summary :- SummaryText(analysis);
    pdf.MultiCell(summary);
    pdf.Cell(KeyMetrics);
    var metricText :- MetricText(analysis, metrics);
    pdf.MultiCell(metricText);
    assert pdf.blocks == Front(analysis, metrics).value;
    var _ :- WriteBulletSection(pdf, WhatWentWell, analysis, "strengths");
    var _ :- WriteBulletSection(pdf, AreasForImprovement, analysis, "improvements");
    var _ :- WriteBulletSection(pdf, CoachingTips, analysis, "coaching_tips");
    r := Ok(pdf.blocks);
  }

  // ---------------------------------------------------------------------
  // Properties of the report

  /** A titled group of lines: a heading and the paragraphs under it. */
  datatype Section = Section(title: string, lines: seq<string>)

  /** The blocks grouped under their headings; text before any heading goes in an untitled section. */
  function Sections(blocks: seq<Block>): seq<Section> {
    if blocks == [] then []
    else
      var init := Sections(blocks[..|blocks| - 1]);
      match blocks[|blocks| - 1]
      case Heading(t) => init + [Section(t, [])]
      case Body(text) =>
        if init == [] then [Section("", [text])]
        else init[..|init| - 1] + [Section(init[|init| - 1].title, init[|init| - 1].lines + [text])]
  }

  lemma {:induction false} SectionsOfHeaded(prefix: seq<Block>, title: string, texts: seq<string>)
    ensures Sections(prefix + [Heading(title)] + Bodies(texts)) == Sections(prefix) + [Section(title, texts)]
    decreases |texts|
  {
    var headed := prefix + [Heading(title)];
    assert headed[..|headed| - 1] == prefix;
    if texts == [] {
      assert headed + Bodies(texts) == headed;
    } else {
      var init := texts[..|texts| - 1];
      var last := texts[|texts| - 1];
      SectionsOfHeaded(prefix, title, init);
      var blocks := headed + Bodies(texts);
      assert blocks[..|blocks| - 1] == headed + Bodies(init);
      assert blocks[|blocks| - 1] == Body(last);
      assert init + [last] == texts;
    }
  }

  /** A heading followed by paragraphs adds one section holding exactly those paragraphs. */
  lemma SectionsOfTitled(prefix: seq<Block>, title: string, texts: seq<string>)
    ensures Sections(prefix + ([Heading(title)] + Bodies(texts))) == Sections(prefix) + [Section(title, texts)]
  {
    SectionsOfHeaded(prefix, title, texts);
    assert prefix + ([Heading(title)] + Bodies(texts)) == prefix + [Heading(title)] + Bodies(texts);
  }

  /** A written report is the front sections followed by the three bullet sections. */
  lemma LayoutParts(analysis: map<string, Json>, metrics: MetricsEntries)
    requires Layout(analysis, metrics).Ok?
    ensures Layout(analysis, metrics).value ==
      Front(analysis, metrics).value + BulletSection(WhatWentWell, analysis, "strengths").value
      + BulletSection(AreasForImprovement, analysis, "improvements").value
      + BulletSection(CoachingTips, analysis, "coaching_tips").value
  {
  }

  lemma FrontParts(analysis: map<string, Json>, metrics: MetricsEntries)
    requires Front(analysis, metrics).Ok?
    ensures SummaryText(analysis).Ok? && MetricText(analysis, metrics).Ok?
    ensures Front(analysis, metrics).value ==
      ([Heading(ExecutiveSummary)] + Bodies([SummaryText(analysis).value]))
      + ([Heading(KeyMetrics)] + Bodies([MetricText(analysis, metrics).value]))
  {
  }

  lemma BulletSectionParts(title: string, analysis: map<string, Json>, key: string)
    requires BulletSection(title, analysis, key).Ok?
    ensures ItemsOf(analysis, key).Ok? && Bullets(ItemsOf(analysis, key).value).Ok?
    ensures BulletSection(title, analysis, key).value ==
      [Heading(title)] + Bodies(Bullets(ItemsOf(analysis, key).value).value)
  {
  }

  /**
   * A report that is written consists of exactly five sections, in this
   * order: the cleaned summary, the cleaned metric lines, then one `- `
   * bullet per strength, per improvement and per coaching tip.
   */
  lemma ReportSections(analysis: map<string, Json>, metrics: MetricsEntries)
    requires Layout(analysis, metrics).Ok?
    ensures
      var strengths := ItemsOf(analysis, "strengths");
      var improvements := ItemsOf(analysis, "improvements");
      var tips := ItemsOf(analysis, "coaching_tips");
      && strengths.Ok? && improvements.Ok? && tips.Ok?
      && Bullets(strengths.value).Ok? && Bullets(improvements.value).Ok? && Bullets(tips.value).Ok?
      && Sections(Layout(analysis, metrics).value) == [
           Section(ExecutiveSummary, [SummaryText(analysis).value]),
           Section(KeyMetrics, [MetricText(analysis, metrics).value]),
           Section(WhatWentWell, Bullets(strengths.value).value),
           Section(AreasForImprovement, Bullets(improvements.value).value),
           Section(CoachingTips, Bullets(tips.value).value)]
  {
    LayoutParts(analysis, metrics);
    FrontParts(analysis, metrics);
    BulletSectionParts(WhatWentWell, analysis, "strengths");
    BulletSectionParts(AreasForImprovement, analysis, "improvements");
    BulletSectionParts(CoachingTips, analysis, "coaching_tips");
    var b1 := Bullets(ItemsOf(analysis, "strengths").value).value;
    var b2 := Bullets(ItemsOf(analysis, "improvements").value).value;
    var b3 := Bullets(ItemsOf(analysis, "coaching_tips").value).value;
    SectionsOfReport(SummaryText(analysis).value, MetricText(analysis, metrics).value, b1, b2, b3);
  }

  /** The five sections of a report, whatever the texts in them. */
  lemma SectionsOfReport(summary: string, metricText: string, b1: seq<string>, b2: seq<string>, b3: seq<string>)
    ensures
      Sections(
        (([Heading(ExecutiveSummary)] + Bodies([summary])) + ([Heading(KeyMetrics)] + Bodies([metricText])))
        + ([Heading(WhatWentWell)] + Bodies(b1))
        + ([Heading(AreasForImprovement)] + Bodies(b2))
        + ([Heading(CoachingTips)] + Bodies(b3)))
      == [Section(ExecutiveSummary, [summary]), Section(KeyMetrics, [metricText]),
          Section(WhatWentWell, b1), Section(AreasForImprovement, b2), Section(CoachingTips, b3)]
  {
    var p1 := [Heading(ExecutiveSummary)] + Bodies([summary]);
    var p2 := p1 + ([Heading(KeyMetrics)] + Bodies([metricText]));
    var p3 := p2 + ([Heading(WhatWentWell)] + Bodies(b1));
    var p4 := p3 + ([Heading(AreasForImprovement)] + Bodies(b2));
    var s1 := Section(ExecutiveSummary, [summary]);
    var s2 := Section(KeyMetrics, [metricText]);
    var s3 := Section(WhatWentWell, b1);
    var s4 := Section(AreasForImprovement, b2);
    var s5 := Section(CoachingTips, b3);
    assert [] + p1 == p1;
    SectionsAppend([], [], ExecutiveSummary, [summary]);
    SectionsAppend(p1, [s1], KeyMetrics, [metricText]);
    SectionsAppend(p2, [s1, s2], WhatWentWell, b1);
    SectionsAppend(p3, [s1, s2, s3], AreasForImprovement, b2);
    SectionsAppend(p4, [s1, s2, s3, s4], CoachingTips, b3);
  }

  lemma SectionsAppend(prefix: seq<Block>, before: seq<Section>, title: string, texts: seq<string>)
    requires Sections(prefix) == before
    ensures Sections(prefix + ([Heading(title)] + Bodies(texts))) == before + [Section(title, texts)]
  {
    SectionsOfTitled(prefix, title, texts);
  }

  predicate BlockIsLatin1(b: Block) {
    match b
    case Heading(t) => AllChars(t, IsLatin1)
    case Body(t) => AllChars(t, IsLatin1)
  }

  predicate AllLatin1(blocks: seq<Block>) {
    forall i :: 0 <= i < |blocks| ==> BlockIsLatin1(blocks[i])
  }

  lemma BulletsAreLatin1(items: seq<Json>)
    requires Bullets(items).Ok?
    ensures AllLatin1(Bodies(Bullets(items).value))
  {
    var lines := Bullets(items).value;
    forall i | 0 <= i < |lines| ensures AllChars(lines[i], IsLatin1) {
      CleanTextIsLatin1(TextArg(items[i]).value);
    }
  }

  lemma BulletSectionIsLatin1(title: string, analysis: map<string, Json>, key: string)
    requires AllChars(title, IsLatin1)
    requires BulletSection(title, analysis, key).Ok?
    ensures AllLatin1(BulletSection(title, analysis, key).value)
  {
    BulletSectionParts(title, analysis, key);
    BulletsAreLatin1(ItemsOf(analysis, key).value);
  }

  lemma AllLatin1Append(a: seq<Block>, b: seq<Block>)
    requires AllLatin1(a) && AllLatin1(b)
    ensures AllLatin1(a + b)
  {
  }

  /** The section titles are plain ASCII. */
  lemma TitlesAreLatin1()
    ensures AllChars(ExecutiveSummary, IsLatin1) && AllChars(KeyMetrics, IsLatin1)
    ensures AllChars(WhatWentWell, IsLatin1) && AllChars(AreasForImprovement, IsLatin1)
    ensures AllChars(CoachingTips, IsLatin1)
  {
  }

  lemma FrontIsLatin1(analysis: map<string, Json>, metrics: MetricsEntries)
    requires Front(analysis, metrics).Ok?
    ensures AllLatin1(Front(analysis, metrics).value)
  {
    FrontParts(analysis, metrics);
    var summary := SummaryText(analysis).value;
    var metricText := MetricText(analysis, metrics).value;
    assert AllChars(summary, IsLatin1) by {
      if "summary" in analysis {
        CleanTextIsLatin1(TextArg(analysis["summary"]).value);
      } else {
        CleanTextIsLatin1(NoSummary);
      }
    }
    assert AllChars(metricText, IsLatin1) by {
      var sentiment := if "sentiment_score" in analysis then PyStr(analysis["sentiment_score"]).value else NotAvailable;
      CleanTextIsLatin1(MetricLines(
        sentiment,
        OrNotAvailable(metrics.wordCount, NatToString),
        OrNotAvailable(metrics.durationHundredths, HundredthsToString)));
    }
    TitlesAreLatin1();
    var front := [Heading(ExecutiveSummary), Body(summary), Heading(KeyMetrics), Body(metricText)];
    assert Front(analysis, metrics).value == front;
  }

  /** Everything the report writes is in Latin-1, so the standard fonts can show it. */
  lemma ReportIsLatin1(analysis: map<string, Json>, metrics: MetricsEntries)
    requires Layout(analysis, metrics).Ok?
    ensures AllLatin1(Layout(analysis, metrics).value)
  {
    FrontIsLatin1(analysis, metrics);
    TitlesAreLatin1();
    var front := Front(analysis, metrics).value;
    var s1 := BulletSection(WhatWentWell, analysis, "strengths").value;
    var s2 := BulletSection(AreasForImprovement, analysis, "improvements").value;
    var s3 := BulletSection(CoachingTips, analysis, "coaching_tips").value;
    BulletSectionIsLatin1(WhatWentWell, analysis, "strengths");
    BulletSectionIsLatin1(AreasForImprovement, analysis, "improvements");
    BulletSectionIsLatin1(CoachingTips, analysis, "coaching_tips");
    AllLatin1Append(front, s1);
    AllLatin1Append(front + s1, s2);
    AllLatin1Append(front + s1 + s2, s3);
  }

  /** A missing summary prints the placeholder; a null one prints nothing. */
  lemma SummaryDefaults(analysis: map<string, Json>)
    ensures "summary" !in analysis ==> SummaryText(analysis) == Ok("No summary available.")
    ensures "summary" in analysis && analysis["summary"] == JNull ==> SummaryText(analysis) == Ok("")
  {
    CleanTextKeepsLatin1(NoSummary);
  }

  lemma AllCharsAppend(a: string, b: string, p: char -> bool)
    requires AllChars(a, p) && AllChars(b, p)
    ensures AllChars(a + b, p)
  {
  }

  /** Metric lines built from Latin-1 values need no cleaning. */
  lemma MetricLinesAreLatin1(sentiment: string, wordCount: string, duration: string)
    requires AllChars(sentiment, IsLatin1) && AllChars(wordCount, IsLatin1) && AllChars(duration, IsLatin1)
    ensures CleanText(MetricLines(sentiment, wordCount, duration)) == MetricLines(sentiment, wordCount, duration)
  {
    var s := "Sentiment Score: " + sentiment;
    AllCharsAppend("Sentiment Score: ", sentiment, IsLatin1);
    AllCharsAppend(s, "/100\n", IsLatin1);
    s := s + "/100\n";
    AllCharsAppend(s, "Word Count: ", IsLatin1);
    s := s + "Word Count: ";
    AllCharsAppend(s, wordCount, IsLatin1);
    s := s + wordCount;
    AllCharsAppend(s, "\n", IsLatin1);
    s := s + "\n";
    AllCharsAppend(s, "Estimated Duration: ", IsLatin1);
    s := s + "Estimated Duration: ";
    AllCharsAppend(s, duration, IsLatin1);
    s := s + duration;
    AllCharsAppend(s, " mins", IsLatin1);
    CleanTextKeepsLatin1(MetricLines(sentiment, wordCount, duration));
  }

  /** Missing metrics print as `N/A`. */
  lemma MetricsNotAvailable(analysis: map<string, Json>)
    requires "sentiment_score" !in analysis
    ensures MetricText(analysis, MetricsEntries(None, None)) == Ok(MetricLines("N/A", "N/A", "N/A"))
  {
    MetricLinesAreLatin1("N/A", "N/A", "N/A");
  }

  /** The metric lines for a score of 72 and a five-word transcript. */
  lemma MetricsOfFiveWords(analysis: map<string, Json>)
    requires "sentiment_score" in analysis && analysis["sentiment_score"] == JInt(72)
    ensures MetricText(analysis, EntriesOf(TextAnalysis.Metrics(5, TextAnalysis.DurationHundredths(5)))) ==
      Ok(MetricLines("72", "5", "0.04"))
  {
    TextAnalysis.DurationExamples();
    HundredthsExamples();
    assert NatToString(72) == "72";
    MetricLinesAreLatin1("72", "5", "0.04");
  }

  /** A list field holding a string gets one bullet per character. */
  lemma StringFieldBulletsPerChar(analysis: map<string, Json>, key: string)
    requires key in analysis && analysis[key].JStr?
    ensures
      var s := analysis[key].s;
      var bullets := Bullets(ItemsOf(analysis, key).value);
      && bullets.Ok? && |bullets.value| == |s|
      && forall i :: 0 <= i < |s| ==> bullets.value[i] == "- " + CleanText([s[i]])
  {
  }

  /** Every item of a list field is text for clean_text: a string or a falsy value. */
  predicate ItemsAreText(analysis: map<string, Json>, key: string) {
    key in analysis && analysis[key].JArr?
    && forall i :: 0 <= i < |analysis[key].items| ==> TextArg(analysis[key].items[i]).Ok?
  }

  /**
   * For an analysis that went through the back-fill, the report is written
   * exactly when the summary is text, the score is a scalar and every
   * strength, improvement and tip is text.
   */
  lemma ReportOfCompleteAnalysis(analysis: map<string, Json>, metrics: MetricsEntries)
    requires GeminiClient.IsCompleteAnalysis(JObj(analysis))
    ensures Layout(analysis, metrics).Ok? <==>
      && "summary" in analysis && TextArg(analysis["summary"]).Ok?
      && "sentiment_score" in analysis && PyStr(analysis["sentiment_score"]).Ok?
      && ItemsAreText(analysis, "strengths")
      && ItemsAreText(analysis, "improvements")
      && ItemsAreText(analysis, "coaching_tips")
  {
    GeminiClient.CompleteAnalysisFields(JObj(analysis));
    FrontOk(analysis, metrics);
    BulletSectionOk(WhatWentWell, analysis, "strengths");
    BulletSectionOk(AreasForImprovement, analysis, "improvements");
    BulletSectionOk(CoachingTips, analysis, "coaching_tips");
  }

  lemma FrontOk(analysis: map<string, Json>, metrics: MetricsEntries)
    requires "summary" in analysis && "sentiment_score" in analysis
    ensures Front(analysis, metrics).Ok? <==>
      TextArg(analysis["summary"]).Ok? && PyStr(analysis["sentiment_score"]).Ok?
  {
  }

  lemma BulletSectionOk(title: string, analysis: map<string, Json>, key: string)
    requires key in analysis && analysis[key].JArr?
    ensures BulletSection(title, analysis, key).Ok? <==> ItemsAreText(analysis, key)
  {
    assert ItemsOf(analysis, key) == Ok(analysis[key].items);
  }
}
