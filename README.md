# Sales-call coaching core, modelled in Dafny

This project models the non-UI core of a Streamlit app that coaches
consultation calls. The core has four parts.

- **Transcript normalisation** (`utils/parsers.py`). Plain text passes
  through. WebVTT and SubRip subtitle files lose their header,
  blank, cue-number and cue-timing lines. The remaining lines are stripped
  and joined with single spaces.
- **Transcript metrics** (`utils/text_analysis.py`). This is the word count
  and the estimated speaking time at 140 words per minute, rounded to
  hundredths of a minute. The model keeps the duration as a whole number
  of hundredths.
- **The boundary around the language model** (`utils/gemini_client.py`).
  - Cleaning the model's reply: code fences are stripped and the greedy
    `{…}` span is carved out.
  - Back-filling the analysis schema (`_ensure_analysis_keys`).
  - `analyze_call` from the reply on. JSON decoding is a parameter.
  - The lexical relevance gate for chat questions.
  - The conversation that `chat_with_coach` sends with a question.
- **The PDF report** (`utils/report_generator.py`).
  - `clean_text`, which makes text safe for the Latin-1 PDF fonts.
  - Python's `str()` of the values the report prints.
  - The report's content. It is a stream of headings and paragraphs that
    a `Pdf` object accumulates. The stream groups into five titled
    sections in a fixed order.

Modules:

- `Wrappers`: `Option`, `Result`.
- `Text`: the Python string built-ins the code relies on, namely
  `isspace`, `strip`, `splitlines`, `join`, `in`, `lower`, `split()`
  and `re.findall` over a character class.
- `Json`: decoded JSON values and Python truthiness.
- `Parsers`, `TextAnalysis`, `GeminiClient`, `ReportGenerator`: one per
  source file.

Loops in the source are methods proved against specification functions:

- `ParseVtt`/`ParseSrt` against `Clean`.
- `FillDefaults` against `Fill`.
- `EnsureAnalysisKeys` against `BackFill`.
- `ChatWithCoach` against `Conversation`.
- `WriteBullets` and `GeneratePdfReport` against `Bullets` and `Layout`.

The properties are lemmas about those functions.

### Behaviour of the code worth knowing

- The nested `client_intent` strings default to `""`
  (`utils/gemini_client.py:43-48`). The top-level schema has twelve keys.
- Back-fill does not guarantee the field types.
  - A decoded value that is not a dict is returned unchanged.
  - A non-null `summary` or `sentiment_score` of any type is kept.
  - Only the eight list fields and the two nested records are
    type-checked (`BackFillKeepsScalars`, `BackFillListFields`,
    `BackFillNested`).
- When no `{` comes before a `}`, `_extract_first_json` hands the whole
  cleaned reply to the decoder (`utils/gemini_client.py:25-30`,
  `ExtractFirstJson`).
- `generate_pdf_report` raises Python exceptions. For a dict analysis the
  model returns the exception's cause as a `ReportError`. A non-dict
  analysis is not modelled (see "## Left out").
- `str.isdigit` accepts the superscripts `¹`, `²` and `³`, so both
  subtitle parsers drop a line holding only such characters
  (`utils/parsers.py:30`, `utils/parsers.py:55`, `SuperscriptLineDropped`).
- The duplicate-question check in `chat_with_coach` compares the question
  with the content of the last history entry whatever its role. After a
  user line, a final entry of another role with the same content keeps
  the question out of the conversation (`utils/gemini_client.py:206-212`,
  `QuestionOmittedAfterOtherRole`).
- A question without keywords (only stopwords and words of two letters or
  fewer) passes the relevance gate whatever the transcript says
  (`utils/gemini_client.py:114-116`, `QuestionSupported`).
- `parse_transcript` decodes the upload with `decode("utf-8")` and does
  not catch a decoding error (`utils/parsers.py:71`). The model starts
  from decoded text.

## Model

| member | source | states |
|---|---|---|
| `Parsers.ParseTxt` | utils/parsers.py:3-5 | a plain-text transcript is its own clean text |
| `Parsers.ParseVtt` | utils/parsers.py:7-35 | the clean text is the stripped lines that survive the WebVTT drop rules, in input order, joined by single spaces. The rules drop any line containing `WEBVTT`, blank lines, lines starting with a dotted cue timing, and lines that `str.isdigit` accepts once stripped: ASCII digits and the superscripts `¹`, `²`, `³`. |
| `Parsers.ParseSrt` | utils/parsers.py:37-62 | the same for SubRip: comma cue timing, no header rule, and the same `str.isdigit` rule |
| `Parsers.ParseTranscript` | utils/parsers.py:73-83 | succeeds exactly for the extensions `txt`, `vtt`, `srt` (case-sensitive). Otherwise it fails with `UnsupportedFormat`. It returns the matching clean text and the untouched content. |
| `Parsers.Dropped` | utils/parsers.py:22-31 | the four drop rules of the loops, with the format's timing separator; its consequences are the lemmas below |
| `Parsers.Clean` | utils/parsers.py:12-35 | the clean text of a subtitle file is a single line. It is empty exactly when no line was kept, and otherwise neither starts nor ends with whitespace. |
| `Parsers.KeptLinesAppend` | utils/parsers.py:22-33 | lines are never reordered: the kept lines of `a + b` are those of `a` followed by those of `b` |
| `Parsers.KeptLinesOne` | utils/parsers.py:22-33 | a single line is kept, stripped, exactly when no drop rule applies |
| `Parsers.KeptLinesTrimmed` | utils/parsers.py:25-33 | every kept line is non-empty and has no surrounding whitespace |
| `Parsers.KeptLinesNoLineBreak` | utils/parsers.py:12-33 | kept lines carry no line break |
| `Parsers.VttDropsHeader` | utils/parsers.py:23-24 | WebVTT drops a line containing `WEBVTT` anywhere |
| `Parsers.SuperscriptLineDropped` | utils/parsers.py:30 | a line of superscript digits (`²`, `¹³`) is skipped by both parsers, as `isdigit` accepts it |
| `Parsers.SrtKeepsHeader` | utils/parsers.py:52-60 | SubRip keeps a `WEBVTT` line as text |
| `Parsers.SrtKeepsVttTiming` | utils/parsers.py:50-60 | SubRip keeps a trimmed line with WebVTT's dotted timing as text |
| `Parsers.TimingAnchoredAtStart` | utils/parsers.py:20-27 | the timing test matches a prefix: trailing cue settings still match, an indented timing line does not |
| `Text.Strip` | utils/parsers.py:25 | `strip()` is a slice that neither starts nor ends with whitespace; what precedes and what follows it in the input is whitespace; it is empty exactly for all-whitespace input |
| `Text.SplitLines` | utils/parsers.py:12 | `splitlines()` yields lines without line-break characters |
| `Text.SplitLinesCount` | utils/parsers.py:12 | `splitlines()` gives one line per terminator (CR LF counted once), plus one for an unterminated last line |
| `Text.SplitLinesJoin` | utils/parsers.py:12 | for text whose only line break is LF and that does not end in one, joining the lines with LF gives the text back |
| `Text.StripPadded` | utils/gemini_client.py:23 | `strip()` of a trimmed string with whitespace on both sides gives that string back |
| `Text.JoinTrimmed` | utils/parsers.py:35 | a space-join of trimmed non-empty lines is empty only for no lines, and is otherwise trimmed |
| `Text.JoinNoLineBreak` | utils/parsers.py:35 | a space-join of single lines is a single line |
| `Text.Runs` | utils/text_analysis.py:5 | `split()` and `re.findall` return non-empty runs of the class, the maximal runs of the text in order; `RunsAtRunStarts`, `RunsCount` and `RunsDetermined` fix the result |
| `Text.RunsAtRunStarts` | utils/text_analysis.py:5 | the k-th run is the maximal run (no class character directly before or after it) that begins at the k-th index where a run starts |
| `Text.RunsDetermined` | utils/text_analysis.py:5 | any list of runs with one entry per run start, the k-th being the maximal run at the k-th start, equals `Runs`: the two lemmas above characterise the result completely |
| `Text.RunsComplete` | utils/text_analysis.py:5 | every maximal run of class characters in the text is one of the runs |
| `Text.RunsCover` | utils/text_analysis.py:5 | the runs put together are exactly the characters of the class, in order: nothing is lost or added |
| `Text.RunsCount` | utils/text_analysis.py:5 | there is one run per index where a class character starts the text or follows a character outside the class |
| `Text.RunsOfNone` | utils/text_analysis.py:5 | text with no word character has no words |
| `Text.RunsOfJoin` | utils/text_analysis.py:5 | splitting the single-space join of the words gives the words back |
| `TextAnalysis.Words` | utils/text_analysis.py:5 | `split()` gives non-whitespace runs that together are the non-whitespace characters, one per word start |
| `TextAnalysis.CalculateMetrics` | utils/text_analysis.py:1-15 | the word count is the number of word starts; the duration is within half a hundredth of `word_count / 140` minutes |
| `TextAnalysis.DurationHundredths` | utils/text_analysis.py:10 | the duration in hundredths lies within half a hundredth of `word_count / 140` minutes |
| `TextAnalysis.DurationIsNearest` | utils/text_analysis.py:10 | it is the only whole number of hundredths that close, so `round`'s tie rule never applies |
| `TextAnalysis.DurationMonotone` | utils/text_analysis.py:10 | more words never give a shorter duration; no words give zero |
| `TextAnalysis.DurationExamples` | utils/text_analysis.py:10 | 5 words take 0.04 minutes, 140 words 1.00 minute |
| `TextAnalysis.MetricsOfBlank` | utils/text_analysis.py:5-15 | blank text has zero words and zero duration |
| `TextAnalysis.MetricsOfRejoined` | utils/text_analysis.py:5-15 | re-joining the words with single spaces changes neither metric |
| `GeminiClient.StripCodeFences` | utils/gemini_client.py:17-23 | empty input gives `""`. Otherwise the result contains no triple backtick and has no surrounding whitespace. |
| `GeminiClient.RemoveTaggedFences` | utils/gemini_client.py:21 | the tagged-fence substitution never lengthens the text and removes only backticks and letters of the `json` tag: every other character is kept, in order. `NoFenceAfterRemoval` states that no fence is left. |
| `GeminiClient.RemoveFences` | utils/gemini_client.py:22 | `replace("```", "")` removes backticks only, three at a time, and keeps every other character in order |
| `GeminiClient.NoFenceAfterRemoval` | utils/gemini_client.py:21 | the case-insensitive `` ```json ``/`` ``` `` substitution leaves no fence, even one straddling two kept pieces |
| `GeminiClient.RemoveFencesIdentity` | utils/gemini_client.py:21-22 | both substitutions leave fence-free text unchanged |
| `GeminiClient.OpeningFenceRemoved` | utils/gemini_client.py:21 | an opening fence, with no tag or a `json` tag in any letter case, and the closing fence both go; the text between them stays |
| `GeminiClient.StripCodeFencesOfFenced` | utils/gemini_client.py:17-23 | a reply fenced as `` ```json ``, `` ```JSON `` (any letter case) or `` ``` `` on its own line, with the closing fence on its own line, cleans to exactly the trimmed JSON between the fences |
| `GeminiClient.FencedReplyExample` | utils/gemini_client.py:17-23 | `` ```JSON `` + LF + `{"summary": "ok"}` + LF + `` ``` `` cleans to `{"summary": "ok"}` |
| `GeminiClient.StripCodeFencesOfClean` | utils/gemini_client.py:17-23 | a trimmed reply without fences is returned unchanged |
| `GeminiClient.StripCodeFencesIdempotent` | utils/gemini_client.py:17-23 | cleaning an already cleaned reply changes nothing |
| `GeminiClient.FirstIndexOf` | utils/gemini_client.py:27 | the index of the first occurrence, or none when the character is absent |
| `GeminiClient.LastIndexOf` | utils/gemini_client.py:27 | the index of the last occurrence, or none when the character is absent |
| `GeminiClient.BracePairByIndices` | utils/gemini_client.py:27-28 | `\{[\s\S]*\}` matches exactly when the first `{` comes before the last `}` |
| `GeminiClient.GreedyBraces` | utils/gemini_client.py:27-30 | with a brace pair, the result is the span from the first `{` to the last `}`. Without one, it is the stripped text. |
| `GeminiClient.ExtractFirstJson` | utils/gemini_client.py:25-30 | returns the greedy brace span of the cleaned reply, or the whole cleaned reply, beside the cleaned reply |
| `GeminiClient.KeyListsMatch` | utils/gemini_client.py:36-62 | the keys the loops walk are exactly the keys of the defaults tables |
| `GeminiClient.SchemaFacts` | utils/gemini_client.py:36-62 | no default is null; the nested records default to their own tables; every list field defaults to `[]` |
| `GeminiClient.Fill` | utils/gemini_client.py:64-66 | missing or null default keys take the default; every other entry, extra keys included, is kept; no default key is left missing or null |
| `GeminiClient.FillDefaults` | utils/gemini_client.py:64-66 | the back-fill loop computes `Fill` |
| `GeminiClient.FillNestedRecord` | utils/gemini_client.py:68-80 | a nested record is back-filled when it is a dict and replaced by its defaults otherwise; nothing else changes |
| `GeminiClient.BackFillEntries` | utils/gemini_client.py:64-97 | the back-filled dict has exactly the reply's keys plus the schema keys |
| `GeminiClient.BackFill` | utils/gemini_client.py:32-99 | a non-dict is returned unchanged; a dict gains exactly the missing schema keys |
| `GeminiClient.EnsureAnalysisKeys` | utils/gemini_client.py:32-99 | the three passes compute `BackFill` |
| `GeminiClient.WithListsUnfold` | utils/gemini_client.py:82-97 | the eight list checks are the list pass over the list keys in order |
| `GeminiClient.WithListsFacts` | utils/gemini_client.py:82-97 | a list field keeps a list and otherwise becomes `[]`; other entries are kept |
| `GeminiClient.FillOfComplete` | utils/gemini_client.py:64-66 | filling a dict that already has every default key, non-null, changes nothing |
| `GeminiClient.EntriesAt` | utils/gemini_client.py:64-97 | each back-filled entry, in terms of the first pass |
| `GeminiClient.EntriesKeep` | utils/gemini_client.py:64-97 | entries the reply had: extra keys and non-null scalars stay; list fields stay only if lists |
| `GeminiClient.EntriesMissing` | utils/gemini_client.py:64-97 | schema keys the reply lacked take their defaults |
| `GeminiClient.EntriesNested` | utils/gemini_client.py:68-80 | nested dicts are filled; nested non-dicts (null included) become the defaults |
| `GeminiClient.EntriesComplete` | utils/gemini_client.py:64-97 | the back-filled dict is complete for any valid schema |
| `GeminiClient.EntriesOfComplete` | utils/gemini_client.py:64-97 | a complete dict is a fixed point for any valid schema |
| `GeminiClient.BackFillComplete` | utils/gemini_client.py:32-99 | after back-fill every schema key is present and non-null, the nested records are dicts with all their keys, and the list fields are lists |
| `GeminiClient.BackFillOfComplete` | utils/gemini_client.py:32-99 | back-fill leaves a complete analysis unchanged |
| `GeminiClient.BackFillIdempotent` | utils/gemini_client.py:32-99 | back-filling twice is the same as back-filling once |
| `GeminiClient.BackFillKeepsExtraKeys` | utils/gemini_client.py:64-66 | keys outside the schema are kept as they are |
| `GeminiClient.BackFillKeepsScalars` | utils/gemini_client.py:64-66 | a non-null `summary` or `sentiment_score` is kept whatever its type |
| `GeminiClient.BackFillListFields` | utils/gemini_client.py:82-97 | a list field holding a list is kept without looking at its items; anything else there becomes `[]` |
| `GeminiClient.BackFillAddsDefaults` | utils/gemini_client.py:36-66 | a schema key the reply lacks takes its default |
| `GeminiClient.BackFillNested` | utils/gemini_client.py:68-80 | `client_intent` and `consult_scorecard` are filled when dicts and replaced by their defaults otherwise |
| `GeminiClient.CompleteAnalysisFields` | utils/gemini_client.py:36-97 | a back-filled analysis has `summary`, `sentiment_score` and lists in the three report fields |
| `GeminiClient.AnalyzeResponse` | utils/gemini_client.py:170-180 | a reply whose carved JSON text does not decode gives the error outcome carrying the raw reply; otherwise the result is the back-filled decoded value |
| `GeminiClient.KeywordsOf` | utils/gemini_client.py:114 | a word is kept exactly when it is a token, not a stopword, and longer than two characters |
| `GeminiClient.Keywords` | utils/gemini_client.py:105-114 | every keyword is a lower-case `[a-z0-9']` run longer than two characters that is not a stopword |
| `GeminiClient.QuestionSupported` | utils/gemini_client.py:101-117 | the gate passes exactly when transcript and question are non-empty and either no token of the question is a keyword or some keyword token occurs in the lower-cased transcript |
| `GeminiClient.KeywordsAreFilteredTokens` | utils/gemini_client.py:104-114 | the keywords are exactly the filtered maximal `[a-z0-9']` runs of the lower-cased question |
| `GeminiClient.GateOnSingleKeyword` | utils/gemini_client.py:101-117 | a one-keyword question passes exactly when that keyword occurs in the lower-cased transcript |
| `GeminiClient.GateRejectsAbsentKeyword` | utils/gemini_client.py:101-117 | a made-up word absent from the transcript is refused |
| `GeminiClient.HistoryLinesBound` | utils/gemini_client.py:192-204 | the history gives at most one line per entry |
| `GeminiClient.CollectHistoryLines` | utils/gemini_client.py:192-204 | the history loop produces a `User: ` or `Coach: ` line, in order, for each user or assistant entry whose content (or first part) is non-empty |
| `GeminiClient.HistoryLinesAppend` | utils/gemini_client.py:193-204 | history entries contribute their lines in order |
| `GeminiClient.ChatWithCoach` | utils/gemini_client.py:182-214 | a failing gate returns exactly `That isn't in the transcript.`; otherwise the conversation built from the history and the question is sent |
| `GeminiClient.AppendQuestion` | utils/gemini_client.py:206-212 | the question is appended as a user line unless the last line is a user line and the last entry's content is the question |
| `GeminiClient.ConversationLines` | utils/gemini_client.py:192-212 | the history lines are kept as they are and at most the one line `User: ` plus the question is added after them. It is added exactly when the question is non-empty and the last line is not a user line or the last entry's content differs from the question. |
| `GeminiClient.Conversation` | utils/gemini_client.py:214 | the conversation text has no surrounding whitespace and is empty when there are no lines |
| `GeminiClient.QuestionAppended` | utils/gemini_client.py:206-212 | a question that is not the last entry's content becomes the final user line |
| `GeminiClient.QuestionAppendedAfterCoach` | utils/gemini_client.py:206-208 | after a coach line the question is added even when that coach turn said the same words |
| `GeminiClient.NoDuplicateFinalUserLine` | utils/gemini_client.py:206-212 | a question the caller already appended to the history appears once, not twice |
| `GeminiClient.QuestionOmittedAfterOtherRole` | utils/gemini_client.py:206-212 | after a user line, a final non-user entry whose content equals the question keeps the question out of the conversation |
| `ReportGenerator.CleanChar` | utils/report_generator.py:26-32 | each character comes out in Latin-1, and a Latin-1 character is kept |
| `ReportGenerator.CleanText` | utils/report_generator.py:26-32 | `clean_text` keeps the length and maps each character as `CleanChar` says |
| `ReportGenerator.CleanTextIsLatin1` | utils/report_generator.py:32 | every character of the result is in Latin-1 |
| `ReportGenerator.CleanTextKeepsLatin1` | utils/report_generator.py:32 | Latin-1 text passes through unchanged |
| `ReportGenerator.CleanTextIdempotent` | utils/report_generator.py:26-32 | cleaning twice is the same as cleaning once |
| `ReportGenerator.CleanTextReplacements` | utils/report_generator.py:30-32 | the right single quote becomes `'`, curly double quotes `"`, the en dash `-`, and anything else outside Latin-1 becomes `?` |
| `ReportGenerator.DigitsValue` | utils/report_generator.py:58 | reads a decimal digit string (partner of `NatToString`) |
| `ReportGenerator.NatToString` | utils/report_generator.py:58 | `str(n)` is decimal digits without a leading zero |
| `ReportGenerator.NatToStringRoundTrip` | utils/report_generator.py:58 | reading the digits of `str(n)` back gives `n` |
| `ReportGenerator.IntToString` | utils/report_generator.py:58 | `str(i)` is the digits of `i`, after a minus sign when `i` is negative, and reading them back gives the magnitude |
| `ReportGenerator.FractionDigits` | utils/report_generator.py:59 | a two-place float prints one or two fraction digits, with no trailing zero, denoting the hundredths |
| `ReportGenerator.HundredthsExamples` | utils/report_generator.py:59 | 4, 100 and 150 hundredths print as `0.04`, `1.0`, `1.5` |
| `ReportGenerator.PyStr` | utils/report_generator.py:58 | `str()` renders every scalar and no container; a string is itself, an integer its digits, null `None` |
| `ReportGenerator.TextArg` | utils/report_generator.py:26-30 | `clean_text` accepts exactly strings and falsy values, and a falsy value gives `""` |
| `ReportGenerator.Iterated` | utils/report_generator.py:71 | a list iterates over its items and a string over its characters; a scalar is not iterable |
| `ReportGenerator.Bullets` | utils/report_generator.py:71-73 | the bullets exist exactly when every item is text; then there is one `- ` plus cleaned text per item, in order |
| `ReportGenerator.Pdf.constructor` | utils/report_generator.py:18-21 | a new document is empty |
| `ReportGenerator.Pdf.Cell` | utils/report_generator.py:42 | a heading cell is appended |
| `ReportGenerator.Pdf.MultiCell` | utils/report_generator.py:47 | a paragraph is appended |
| `ReportGenerator.WriteBullets` | utils/report_generator.py:71-73 | the bullet loop appends exactly the bullets, or stops with the error of the first item that is not text |
| `ReportGenerator.BulletsFirstError` | utils/report_generator.py:71-73 | the first item that is not text decides the error of the whole list |
| `ReportGenerator.WriteBulletSection` | utils/report_generator.py:63-74 | one titled bullet section is appended, or its error is returned |
| `ReportGenerator.GeneratePdfReport` | utils/report_generator.py:14-102 | the document holds exactly the report layout, or the first error in writing order |
| `ReportGenerator.Layout` | utils/report_generator.py:38-100 | the report is written exactly when the front sections and the three bullet sections all render; a failing front section decides the error |
| `ReportGenerator.SectionsOfTitled` | utils/report_generator.py:38-100 | a heading followed by paragraphs adds one section holding exactly those paragraphs |
| `ReportGenerator.ReportSections` | utils/report_generator.py:38-100 | a written report is exactly five sections in order. They hold the cleaned summary, the cleaned metric lines, and one bullet per strength, per improvement and per coaching tip. |
| `ReportGenerator.BulletsAreLatin1` | utils/report_generator.py:71-73 | bullet lines are Latin-1 |
| `ReportGenerator.FrontIsLatin1` | utils/report_generator.py:38-60 | the summary and metric sections are Latin-1 |
| `ReportGenerator.ReportIsLatin1` | utils/report_generator.py:38-100 | everything the report writes is Latin-1, so the standard fonts can show it |
| `ReportGenerator.SummaryDefaults` | utils/report_generator.py:47 | a missing summary prints `No summary available.`; a null one prints nothing |
| `ReportGenerator.MetricLinesAreLatin1` | utils/report_generator.py:57-60 | metric lines built from Latin-1 values need no cleaning |
| `ReportGenerator.MetricsNotAvailable` | utils/report_generator.py:57-60 | missing metrics print as `N/A` |
| `ReportGenerator.MetricsOfFiveWords` | utils/report_generator.py:57-60 | a score of 72 and a five-word transcript print `72`, `5` and `0.04` |
| `ReportGenerator.StringFieldBulletsPerChar` | utils/report_generator.py:71-73 | a list field holding a string gets one bullet per character |
| `ReportGenerator.ReportOfCompleteAnalysis` | utils/report_generator.py:38-100 | for a back-filled analysis, the report is written exactly when the summary is text, the score is a scalar and every strength, improvement and tip is text |

## Left out

- The Streamlit UI (`app.py`) and the backend smoke script. They are callers, not part of this model.
- The Gemini calls: client configuration, the prompt texts, `generate_content` and its reply. These are network I/O.
  - `ChatWithCoach` stops at the conversation the prompt would embed.
  - `AnalyzeResponse` starts from the reply text. A failing model call is not modelled.
- `json.loads` is the `decode` parameter of `AnalyzeResponse`. JSON syntax is not modelled.
- `GeminiClient.AnalyzeResponse`: the error value keeps the raw reply but not the exception message `str(e)`. That message is the decoder's text, which is outside the model.
- `read().decode("utf-8")` in `parse_transcript`. The model starts from the decoded string, because byte decoding is I/O-side.
- The FPDF rendering: fonts, colours, positions, line wrapping, the page header `Sales Call Coaching Report`, the page-number footer and the bytes of the output. The model keeps only the text content and its order.
- `ReportGenerator.GeneratePdfReport`: the analysis is a dict (`map<string, Json>`). A reply whose JSON is not an object (a list such as `[1]`) passes `ensure_analysis_keys` unchanged, is stored by `app.py` and reaches `generate_pdf_report` outside any `try`; there `analysis.get` at `utils/report_generator.py:47` raises `AttributeError`. That path is not modelled.
- `ReportGenerator.Iterated`: iterating a non-empty dict is reported as `Unrendered` rather than yielding its keys, because a map has no insertion order.
- `ReportGenerator.PyStr`: `str()` of a list or dict is reported as `Unrendered`. A float is carried as its `repr` text.
- `GeminiClient.ChatWithCoach`: a history entry's `content` and `parts` are modelled as strings. An entry whose content or first part is another type, which the f-strings of `utils/gemini_client.py:201-204` would render with `str()`, is not modelled.
- `GeminiClient.EnsureAnalysisKeys`: works on values, not in place. The caller's dict is not mutated. The nested default dicts, which the source shares between the defaults table and the result, are copies in the model.
- `Parsers.ParseVtt`: `str.isdigit` and `\d` are modelled within Latin-1 only, where `isdigit` accepts the ASCII digits and `¹ ² ³` and `\d` only the ASCII digits. A line of digits from outside Latin-1 (other scripts' digits, circled or other superscript digits) is kept by the model but dropped by the code, and a timing written in such digits is not recognised.
- `Parsers.ParseSrt`: the same Latin-1 limit on `str.isdigit` and `\d` as for `ParseVtt`.
- `str.lower` is modelled for ASCII and Latin-1 letters only. Other case mappings are out of scope.
- Floating-point arithmetic. `round(word_count / 140, 2)` is modelled exactly as the nearest hundredth, which is exact because no tie can occur.
- `None` passed where the source expects a string (transcript, question, text) is not modelled. The model uses `""`, which the source treats the same way.
- `Parsers.ParseTranscript`: `decode("utf-8")` at `utils/parsers.py:71` raises `UnicodeDecodeError` on malformed bytes and does not catch it; only the caller in `app.py` reports it. The model starts from decoded text and has no such outcome.
