/**
 * The pure boundary around the language-model calls
 * (utils/gemini_client.py): cleaning the model's reply down to a JSON
 * object, back-filling the analysis schema, the lexical relevance gate for
 * chat questions, and the conversation sent with a chat question. The
 * model calls themselves, the prompt templates and `json.loads` are not
 * part of this model; decoding is a parameter.
 */
module GeminiClient {
  import opened Wrappers
  import opened Text
  import opened Json

  // ---------------------------------------------------------------------
  // _strip_code_fences

  const Fence: string := "```"

  /** `re.IGNORECASE` matching of one letter of `json` (`s` also matches U+017F). */
  predicate FoldsTo(c: char, lower: char) {
    c == lower || c as int == lower as int - 32 || (lower == 's' && c as int == 0x17F)
  }

  /** The optional `json` language tag after a fence, in any letter case. */
  predicate StartsWithJsonTag(s: string) {
    |s| >= 4 && FoldsTo(s[0], 'j') && FoldsTo(s[1], 's') && FoldsTo(s[2], 'o') && FoldsTo(s[3], 'n')
  }

  /**
   * A character the fence pattern can never match: neither a backtick nor
   * a letter of the `json` tag in any case.
   */
  predicate OutsideFencePattern(c: char) {
    c != '`' && !FoldsTo(c, 'j') && !FoldsTo(c, 's') && !FoldsTo(c, 'o') && !FoldsTo(c, 'n')
  }

  /**
   * `re.sub(r"```(?:json)?", "", s, flags=re.IGNORECASE)`: every fence,
   * with its tag when there is one, removed left to right. Only
   * characters of the pattern go; every other character is kept, in order.
   */
  function RemoveTaggedFences(s: string): (r: string)
    ensures |r| <= |s|
    ensures Filter(r, OutsideFencePattern) == Filter(s, OutsideFencePattern)
    decreases |s|
  {
    if |s| < 3 then s
    else if s[..3] == Fence then
      assert forall i :: 0 <= i < 3 ==> s[i] == s[..3][i];
      if StartsWithJsonTag(s[3..]) then
        assert forall i :: 3 <= i < 7 ==> s[i] == s[3..][i - 3];
        FilterSkips(s, OutsideFencePattern, 7);
        RemoveTaggedFences(s[7..])
      else
        FilterSkips(s, OutsideFencePattern, 3);
        RemoveTaggedFences(s[3..])
    else
      var rest := RemoveTaggedFences(s[1..]);
      assert ([s[0]] + rest)[1..] == rest;
      [s[0]] + rest
  }

  /** A closing fence after text without backticks is removed and the text is kept. */
  lemma {:induction false} ClosingFenceRemoved(u: string)
    requires AllChars(u, IsNotBacktick)
    ensures RemoveTaggedFences(u + Fence) == u
    decreases |u|
  {
    if u == [] {
      assert u + Fence == Fence;
    } else {
      assert (u + Fence)[..3] != Fence by {
        assert (u + Fence)[..3][0] == u[0];
      }
      assert (u + Fence)[1..] == u[1..] + Fence;
      ClosingFenceRemoved(u[1..]);
    }
  }

  lemma NoBacktickNoFence(u: string)
    requires AllChars(u, IsNotBacktick)
    ensures !Contains(u, Fence)
  {
    forall i | 0 <= i <= |u| - 3 ensures !At(u, Fence, i) {
      assert u[i..i + 3][0] == u[i];
    }
  }

  lemma JsonTagPrefix(tag: string, x: string)
    requires |tag| == 4 && StartsWithJsonTag(tag)
    ensures StartsWithJsonTag(tag + x)
  {
    assert (tag + x)[..4] == tag;
    assert forall i :: 0 <= i < 4 ==> (tag + x)[i] == tag[i];
  }

  /** The opening fence and its optional tag go, then the closing fence. */
  lemma OpeningFenceRemoved(tag: string, inner: string)
    requires tag == "" || (|tag| == 4 && StartsWithJsonTag(tag))
    requires inner != [] && inner[0] == '\n'
    requires AllChars(inner, IsNotBacktick)
    ensures RemoveTaggedFences(Fence + tag + inner + Fence) == inner
  {
    var text := Fence + tag + inner + Fence;
    assert text[..3] == Fence;
    if tag == "" {
      assert text[3..] == inner + Fence;
      assert !StartsWithJsonTag(text[3..]) by {
        assert text[3..][0] == '\n';
      }
      assert RemoveTaggedFences(text) == RemoveTaggedFences(inner + Fence);
    } else {
      assert text[3..] == tag + (inner + Fence);
      JsonTagPrefix(tag, inner + Fence);
      assert text[7..] == inner + Fence;
      assert RemoveTaggedFences(text) == RemoveTaggedFences(inner + Fence);
    }
    ClosingFenceRemoved(inner);
  }

  /**
   * A reply wrapped in a fence, with or without the `json` tag in any
   * letter case, and a closing fence on its own line, cleans to exactly the
   * JSON between the fences.
   */
  lemma StripCodeFencesOfFenced(tag: string, body: string)
    requires tag == "" || (|tag| == 4 && StartsWithJsonTag(tag))
    requires AllChars(body, IsNotBacktick)
    requires body != "" ==> !IsSpace(body[0]) && !IsSpace(body[|body| - 1])
    ensures StripCodeFences(Fence + tag + "\n" + body + "\n" + Fence) == body
  {
    var text := Fence + tag + "\n" + body + "\n" + Fence;
    var inner := "\n" + body + "\n";
    assert AllChars(inner, IsNotBacktick) by {
      forall i | 0 <= i < |inner| ensures inner[i] != '`' {
        if 0 < i < |inner| - 1 {
          assert inner[i] == body[i - 1];
        }
      }
    }
    assert text == Fence + tag + inner + Fence;
    StripTrimmed(text);
    OpeningFenceRemoved(tag, inner);
    NoBacktickNoFence(inner);
    RemoveFencesIdentity(inner);
    StripPadded("\n", body, "\n");
    calc {
      StripCodeFences(text);
      Strip(RemoveFences(RemoveTaggedFences(Strip(text))));
      Strip(RemoveFences(RemoveTaggedFences(text)));
      Strip(RemoveFences(inner));
      Strip(inner);
      body;
    }
  }

  /** An upper-case tag is removed too: `re.IGNORECASE`. */
  lemma FencedReplyExample()
    ensures StripCodeFences("```JSON\n{\"summary\": \"ok\"}\n```") == "{\"summary\": \"ok\"}"
  {
    var body := "{\"summary\": \"ok\"}";
    assert StartsWithJsonTag("JSON");
    assert Fence + "JSON" + "\n" + body + "\n" + Fence == "```JSON\n{\"summary\": \"ok\"}\n```";
    StripCodeFencesOfFenced("JSON", body);
  }

  predicate IsNotBacktick(c: char) {
    c != '`'
  }

  /**
   * `s.replace("```", "")`: only backticks are removed, three at a time;
   * every other character is kept, in order.
   */
  function RemoveFences(s: string): (r: string)
    ensures |r| <= |s| && (|s| - |r|) % 3 == 0
    ensures Filter(r, IsNotBacktick) == Filter(s, IsNotBacktick)
    decreases |s|
  {
    if |s| < 3 then s
    else if s[..3] == Fence then
      FilterSkips(s, IsNotBacktick, 3);
      RemoveFences(s[3..])
    else
      var rest := RemoveFences(s[1..]);
      assert ([s[0]] + rest)[1..] == rest;
      [s[0]] + rest
  }

  lemma FirstCharKept(t: string)
    requires t != [] && t[0] != '`'
    ensures RemoveTaggedFences(t) != [] && RemoveTaggedFences(t)[0] == t[0]
  {
    if |t| >= 3 {
      assert t[..3] != Fence by {
        assert t[..3][0] == t[0];
      }
      assert RemoveTaggedFences(t) == [t[0]] + RemoveTaggedFences(t[1..]);
    }
  }

  /** Removing tagged fences never makes a string start with two backticks. */
  lemma NoDoubleTickStart(t: string)
    requires !StartsWith(t, "``")
    ensures !StartsWith(RemoveTaggedFences(t), "``")
  {
    if |t| >= 3 && t[0] == '`' {
      assert t[1] != '`' by {
        assert t[..2][1] == t[1];
      }
      assert t[..3] != Fence by {
        assert t[..3][1] == t[1];
      }
      var rest := RemoveTaggedFences(t[1..]);
      assert RemoveTaggedFences(t) == [t[0]] + rest;
      FirstCharKept(t[1..]);
      assert ([t[0]] + rest)[1] == rest[0] != '`';
    } else if t != [] && t[0] != '`' {
      FirstCharKept(t);
    }
  }

  lemma ConsNoFence(c: char, rest: string)
    requires !Contains(rest, Fence)
    requires c == '`' ==> !StartsWith(rest, "``")
    ensures !Contains([c] + rest, Fence)
  {
    var s := [c] + rest;
    forall i | 0 <= i <= |s| - 3 ensures !At(s, Fence, i) {
      if i == 0 {
        if c != '`' {
          assert s[0..3][0] == c;
        } else if rest[0] != '`' {
          assert s[0..3][1] == rest[0];
        } else {
          assert rest[..2] != "``";
          assert s[0..3][2] == rest[1] != '`';
        }
      } else {
        assert s[i..i + 3] == rest[i - 1..i + 2];
        assert !At(rest, Fence, i - 1);
      }
    }
  }

  /**
   * After the tagged-fence substitution no fence is left: a fence that
   * straddles two kept pieces cannot arise, because the scan would have
   * matched it at its first backtick.
   */
  lemma {:induction false} NoFenceAfterRemoval(s: string)
    ensures !Contains(RemoveTaggedFences(s), Fence)
    decreases |s|
  {
    if |s| >= 3 {
      if s[..3] == Fence {
        if StartsWithJsonTag(s[3..]) {
          NoFenceAfterRemoval(s[7..]);
        } else {
          NoFenceAfterRemoval(s[3..]);
        }
      } else {
        NoFenceAfterRemoval(s[1..]);
        if s[0] == '`' {
          assert !StartsWith(s[1..], "``") by {
            assert s[..3] == [s[0]] + s[1..][..2];
          }
          NoDoubleTickStart(s[1..]);
        }
        ConsNoFence(s[0], RemoveTaggedFences(s[1..]));
      }
    }
  }

  lemma {:induction false} RemoveFencesIdentity(s: string)
    requires !Contains(s, Fence)
    ensures RemoveFences(s) == s
    ensures RemoveTaggedFences(s) == s
    decreases |s|
  {
    if |s| >= 3 {
      assert !At(s, Fence, 0);
      SliceNotContains(s, Fence, 1, |s|);
      assert s[1..|s|] == s[1..];
      RemoveFencesIdentity(s[1..]);
      assert s == [s[0]] + s[1..];
    }
  }

  /**
   * _strip_code_fences: empty input gives the empty string; otherwise the
   * result contains no fence and has no surrounding whitespace.
   */
  function StripCodeFences(text: string): (r: string)
    ensures text == "" ==> r == ""
    ensures !Contains(r, Fence)
    ensures r != "" ==> !IsSpace(r[0]) && !IsSpace(r[|r| - 1])
  {
    if text == "" then ""
    else
      var cleaned := RemoveFences(RemoveTaggedFences(Strip(text)));
      CleanedHasNoFence(text);
      Strip(cleaned)
  }

  lemma CleanedHasNoFence(text: string)
    ensures !Contains(Strip(RemoveFences(RemoveTaggedFences(Strip(text)))), Fence)
  {
    var tagsRemoved := RemoveTaggedFences(Strip(text));
    NoFenceAfterRemoval(Strip(text));
    RemoveFencesIdentity(tagsRemoved);
    StripNotContains(tagsRemoved, Fence);
  }

  /** A trimmed reply without fences is already clean. */
  lemma StripCodeFencesOfClean(r: string)
    requires !Contains(r, Fence)
    requires r != "" ==> !IsSpace(r[0]) && !IsSpace(r[|r| - 1])
    ensures StripCodeFences(r) == r
  {
    if r != "" {
      StripTrimmed(r);
      RemoveFencesIdentity(r);
      assert RemoveFences(RemoveTaggedFences(Strip(r))) == r;
    }
  }

  /** Cleaning an already cleaned reply changes nothing. */
  lemma StripCodeFencesIdempotent(text: string)
    ensures StripCodeFences(StripCodeFences(text)) == StripCodeFences(text)
  {
    StripCodeFencesOfClean(StripCodeFences(text));
  }

  // ---------------------------------------------------------------------
  // _extract_first_json

  function FirstIndexOf(s: string, c: char): (r: Option<nat>)
    ensures r.Some? ==> r.value < |s| && s[r.value] == c
    ensures r.Some? ==> forall k :: 0 <= k < r.value ==> s[k] != c
    ensures r.None? ==> forall k :: 0 <= k < |s| ==> s[k] != c
  {
    if s == [] then None
    else if s[0] == c then Some(0)
    else match FirstIndexOf(s[1..], c)
      case None => None
      case Some(i) => Some(i + 1)
  }

  function LastIndexOf(s: string, c: char): (r: Option<nat>)
    ensures r.Some? ==> r.value < |s| && s[r.value] == c
    ensures r.Some? ==> forall k :: r.value < k < |s| ==> s[k] != c
    ensures r.None? ==> forall k :: 0 <= k < |s| ==> s[k] != c
  {
    if s == [] then None
    else if s[|s| - 1] == c then Some(|s| - 1)
    else LastIndexOf(s[..|s| - 1], c)
  }

  /** Some `{` comes before some `}`: `\{[\s\S]*\}` has a match. */
  predicate HasBracePair(s: string) {
    exists i, j :: 0 <= i < j < |s| && s[i] == '{' && s[j] == '}'
  }

  /** `s[i..j+1]` runs from the first `{` to the last `}` (the greedy match). */
  predicate IsGreedySpan(s: string, i: int, j: int) {
    0 <= i < j < |s| && s[i] == '{' && s[j] == '}'
    && (forall k :: 0 <= k < i ==> s[k] != '{')
    && (forall k :: j < k < |s| ==> s[k] != '}')
  }

  lemma BracePairByIndices(s: string)
    ensures HasBracePair(s) <==>
      var first := FirstIndexOf(s, '{');
      var last := LastIndexOf(s, '}');
      first.Some? && last.Some? && first.value < last.value
  {
    if HasBracePair(s) {
      var i, j :| 0 <= i < j < |s| && s[i] == '{' && s[j] == '}';
      assert FirstIndexOf(s, '{').Some? && FirstIndexOf(s, '{').value <= i;
      assert LastIndexOf(s, '}').Some? && LastIndexOf(s, '}').value >= j;
    }
  }

  /**
   * `re.search(r"\{[\s\S]*\}", cleaned)` followed by `.strip()`: the span
   * from the first `{` to the last `}` when a `{` precedes a `}`, else the
   * stripped text.
   */
  function GreedyBraces(cleaned: string): (r: string)
    ensures HasBracePair(cleaned) ==> exists i, j :: IsGreedySpan(cleaned, i, j) && r == cleaned[i..j + 1]
    ensures !HasBracePair(cleaned) ==> r == Strip(cleaned)
  {
    var first := FirstIndexOf(cleaned, '{');
    var last := LastIndexOf(cleaned, '}');
    BracePairByIndices(cleaned);
    if first.Some? && last.Some? && first.value < last.value then
      var span := cleaned[first.value..last.value + 1];
      assert span[0] == '{' && span[|span| - 1] == '}';
      StripTrimmed(span);
      assert IsGreedySpan(cleaned, first.value, last.value);
      Strip(span)
    else
      Strip(cleaned)
  }

  /**
   * _extract_first_json: the greedy brace span of the cleaned reply, or
   * the whole cleaned reply when no `{` precedes a `}`; the cleaned reply
   * is returned beside it.
   */
  function ExtractFirstJson(text: string): (r: (string, string))
    ensures r.1 == StripCodeFences(text)
    ensures HasBracePair(r.1) ==> exists i, j :: IsGreedySpan(r.1, i, j) && r.0 == r.1[i..j + 1]
    ensures !HasBracePair(r.1) ==> r.0 == r.1
  {
    var cleaned := StripCodeFences(text);
    StripTrimmed(cleaned);
    (GreedyBraces(cleaned), cleaned)
  }

  // ---------------------------------------------------------------------
  // _ensure_analysis_keys

  /** The top-level keys of the analysis schema, in the source's order. */
  const SchemaKeys: seq<string> := [
    "summary", "topics", "sentiment_score", "strengths", "improvements", "coaching_tips",
    "client_intent", "consult_scorecard", "conversion_risks", "missed_questions",
    "recommended_micro_scripts", "timeline"]

  const IntentKeys: seq<string> := ["occasion", "date_mentions", "decision_timing", "primary_motivation"]

  const ScorecardKeys: seq<string> := [
    "authority_and_leadership", "aesthetic_alignment", "constraint_setting",
    "package_pricing_clarity", "hesitation_handling", "decision_safety", "next_steps_locked"]

  /** The eight fields that must hold lists. */
  const ListKeys: seq<string> := [
    "topics", "strengths", "improvements", "coaching_tips", "conversion_risks",
    "missed_questions", "recommended_micro_scripts", "timeline"]

  const IntentDefaults: map<string, Json> := map[
    "occasion" := JStr(""), "date_mentions" := JArr([]),
    "decision_timing" := JStr(""), "primary_motivation" := JStr("")]

  const ScorecardDefaults: map<string, Json> := map[
    "authority_and_leadership" := JInt(0), "aesthetic_alignment" := JInt(0),
    "constraint_setting" := JInt(0), "package_pricing_clarity" := JInt(0),
    "hesitation_handling" := JInt(0), "decision_safety" := JInt(0),
    "next_steps_locked" := JInt(0)]

  const SchemaDefaults: map<string, Json> := map[
    "summary" := JStr(""), "topics" := JArr([]), "sentiment_score" := JInt(0),
    "strengths" := JArr([]), "improvements" := JArr([]), "coaching_tips" := JArr([]),
    "client_intent" := JObj(IntentDefaults), "consult_scorecard" := JObj(ScorecardDefaults),
    "conversion_risks" := JArr([]), "missed_questions" := JArr([]),
    "recommended_micro_scripts" := JArr([]), "timeline" := JArr([])]

  predicate NoNullValues(defaults: map<string, Json>) {
    forall k :: k in defaults ==> !defaults[k].JNull?
  }

  /** Every key of `defaults` is present in `m` with a non-null value. */
  predicate HasAll(m: map<string, Json>, defaults: map<string, Json>) {
    forall k :: k in defaults ==> k in m && !m[k].JNull?
  }

  /**
   * The back-fill loop: each default key that is missing or null takes
   * its default; every other entry, including keys outside the defaults,
   * is kept.
   */
  function Fill(m: map<string, Json>, defaults: map<string, Json>): (r: map<string, Json>)
    ensures r.Keys == m.Keys + defaults.Keys
    ensures forall k :: k in defaults && (k !in m || m[k].JNull?) ==> r[k] == defaults[k]
    ensures NoNullValues(defaults) ==> HasAll(r, defaults)
    ensures forall k :: k in m && !m[k].JNull? ==> r[k] == m[k]
    ensures forall k :: k in m && k !in defaults ==> r[k] == m[k]
  {
    map k | k in m.Keys + defaults.Keys ::
      if k in defaults && (k !in m || m[k].JNull?) then defaults[k] else m[k]
  }

  /** `for key, value in defaults.items(): if key not in data or data[key] is None: data[key] = value` */
  method FillDefaults(data: map<string, Json>, keys: seq<string>, defaults: map<string, Json>)
    returns (r: map<string, Json>)
    requires NoNullValues(defaults)
    requires forall k :: k in defaults <==> k in keys
    ensures r == Fill(data, defaults)
  {
    r := data;
    for i := 0 to |keys|
      invariant forall k :: k in r <==> k in data || k in keys[..i]
      invariant forall k :: k in r ==>
        r[k] == if k in keys[..i] && (k !in data || data[k].JNull?) then defaults[k] else data[k]
    {
      var key := keys[i];
      assert keys[..i + 1] == keys[..i] + [key];
      if key !in r || r[key].JNull? {
        r := r[key := defaults[key]];
      }
    }
    assert keys[..|keys|] == keys;
  }

  /** A nested record: an object is filled, anything else is replaced by the defaults. */
  function NestedFill(v: Json, defaults: map<string, Json>): Json
  {
    if v.JObj? then JObj(Fill(v.fields, defaults)) else JObj(defaults)
  }

  /** `if not isinstance(data.get(key), list): data[key] = []` */
  function WithList(m: map<string, Json>, key: string): map<string, Json> {
    if key in m && m[key].JArr? then m else m[key := JArr([])]
  }

  function WithLists(m: map<string, Json>, keys: seq<string>): map<string, Json>
    decreases |keys|
  {
    if keys == [] then m else WithLists(WithList(m, keys[0]), keys[1..])
  }

  /**
   * The shape the back-fill enforces: top-level defaults, the defaults of
   * the two nested records and the keys that must hold lists.
   */
  datatype Schema = Schema(
    top: map<string, Json>, intent: map<string, Json>, scorecard: map<string, Json>, lists: seq<string>)

  const AnalysisSchema: Schema := Schema(SchemaDefaults, IntentDefaults, ScorecardDefaults, ListKeys)

  /**
   * No default is null, the nested records default to their own defaults,
   * and every list field defaults to the empty list.
   */
  predicate ValidSchema(s: Schema) {
    && NoNullValues(s.top) && NoNullValues(s.intent) && NoNullValues(s.scorecard)
    && "client_intent" in s.top && s.top["client_intent"] == JObj(s.intent)
    && "consult_scorecard" in s.top && s.top["consult_scorecard"] == JObj(s.scorecard)
    && "client_intent" !in s.lists && "consult_scorecard" !in s.lists
    && forall k :: k in s.lists ==> k in s.top && s.top[k] == JArr([])
  }

  /** The three passes of the back-fill over a dict's entries. */
  function BackFillEntries(m: map<string, Json>, s: Schema): (r: map<string, Json>)
    requires ValidSchema(s)
    ensures r.Keys == m.Keys + s.top.Keys
  {
    var m1 := Fill(m, s.top);
    var m2 := m1["client_intent" := NestedFill(m1["client_intent"], s.intent)];
    var m3 := m2["consult_scorecard" := NestedFill(m2["consult_scorecard"], s.scorecard)];
    WithListsFacts(m3, s.lists);
    WithLists(m3, s.lists)
  }

  /** The result of _ensure_analysis_keys: non-dicts are returned as they are. */
  function BackFill(data: Json): (r: Json)
    ensures !data.JObj? ==> r == data
    ensures data.JObj? ==> r.JObj? && r.fields.Keys == data.fields.Keys + SchemaDefaults.Keys
  {
    SchemaFacts();
    if !data.JObj? then data else JObj(BackFillEntries(data.fields, AnalysisSchema))
  }

  /** _ensure_analysis_keys, on a value rather than in place. */
  method EnsureAnalysisKeys(data: Json) returns (r: Json)
    ensures r == BackFill(data)
  {
    if !data.JObj? {
      return data;
    }
    SchemaFacts();
    KeyListsMatch();
    var fields := FillDefaults(data.fields, SchemaKeys, SchemaDefaults);
    fields := FillNestedRecord(fields, "client_intent", IntentKeys, IntentDefaults);
    fields := FillNestedRecord(fields, "consult_scorecard", ScorecardKeys, ScorecardDefaults);
    ghost var beforeLists := fields;
    fields := WithList(fields, "topics");
    fields := WithList(fields, "strengths");
    fields := WithList(fields, "improvements");
    fields := WithList(fields, "coaching_tips");
    fields := WithList(fields, "conversion_risks");
    fields := WithList(fields, "missed_questions");
    fields := WithList(fields, "recommended_micro_scripts");
    fields := WithList(fields, "timeline");
    WithListsUnfold(beforeLists);
    r := JObj(fields);
  }

  /**
   * One nested record: a value that is not a dict is replaced by the
   * defaults, a dict is back-filled key by key.
   */
  method FillNestedRecord(fields: map<string, Json>, key: string, keys: seq<string>, defaults: map<string, Json>)
    returns (r: map<string, Json>)
    requires key in fields
    requires NoNullValues(defaults)
    requires forall k :: k in defaults <==> k in keys
    ensures r == fields[key := NestedFill(fields[key], defaults)]
  {
    var nested := fields[key];
    if !nested.JObj? {
      r := fields[key := JObj(defaults)];
    } else {
      var filled := FillDefaults(nested.fields, keys, defaults);
      r := fields[key := JObj(filled)];
    }
  }


  /** The key lists the loops walk are exactly the keys of the corresponding defaults. */
  lemma KeyListsMatch()
    ensures forall k :: k in SchemaDefaults <==> k in SchemaKeys
    ensures forall k :: k in IntentDefaults <==> k in IntentKeys
    ensures forall k :: k in ScorecardDefaults <==> k in ScorecardKeys
  {
  }


  lemma WithListsUnfold(m: map<string, Json>)
    ensures WithLists(m, ListKeys) ==
      WithList(WithList(WithList(WithList(WithList(WithList(WithList(WithList(m,
        "topics"), "strengths"), "improvements"), "coaching_tips"), "conversion_risks"),
        "missed_questions"), "recommended_micro_scripts"), "timeline")
  {
    var ks := ListKeys;
    assert ks[1..][1..][1..][1..][1..][1..][1..][1..] == [];
  }

  // ---------------------------------------------------------------------
  // Properties of the back-fill

  /** The analysis schema is a valid one. */
  lemma SchemaFacts()
    ensures ValidSchema(AnalysisSchema)
  {
    DefaultsNotNull();
    ListDefaults();
  }

  lemma DefaultsNotNull()
    ensures NoNullValues(SchemaDefaults) && NoNullValues(IntentDefaults) && NoNullValues(ScorecardDefaults)
  {
  }

  lemma ListDefaults()
    ensures forall k :: k in ListKeys ==> k in SchemaDefaults && SchemaDefaults[k] == JArr([])
  {
    forall k | k in ListKeys ensures k in SchemaDefaults && SchemaDefaults[k] == JArr([]) {
      var i :| 0 <= i < |ListKeys| && ListKeys[i] == k;
      assert i < 8;
    }
  }

  /** Every key of the defaults present and non-null, the nested records dicts, the list fields lists. */
  predicate IsComplete(m: map<string, Json>, s: Schema) {
    && HasAll(m, s.top)
    && "client_intent" in m && m["client_intent"].JObj? && HasAll(m["client_intent"].fields, s.intent)
    && "consult_scorecard" in m && m["consult_scorecard"].JObj?
    && HasAll(m["consult_scorecard"].fields, s.scorecard)
    && forall k :: k in s.lists ==> k in m && m[k].JArr?
  }

  /** What every back-filled dict satisfies. */
  predicate IsCompleteAnalysis(data: Json) {
    data.JObj? && IsComplete(data.fields, AnalysisSchema)
  }

  lemma {:induction false} WithListsFacts(m: map<string, Json>, ks: seq<string>)
    ensures forall k :: k in WithLists(m, ks) <==> k in m || k in ks
    ensures forall k :: k in ks ==>
      WithLists(m, ks)[k] == if k in m && m[k].JArr? then m[k] else JArr([])
    ensures forall k :: k in m && (k !in ks || m[k].JArr?) ==> WithLists(m, ks)[k] == m[k]
    decreases |ks|
  {
    if ks != [] {
      WithListsFacts(WithList(m, ks[0]), ks[1..]);
      assert forall k :: k in ks <==> k == ks[0] || k in ks[1..];
    }
  }

  lemma FillOfComplete(m: map<string, Json>, defaults: map<string, Json>)
    requires NoNullValues(defaults)
    requires HasAll(m, defaults)
    ensures Fill(m, defaults) == m
  {
  }

  /** Each entry of the back-filled dict, in terms of the first pass. */
  lemma EntriesAt(m: map<string, Json>, s: Schema, k: string)
    requires ValidSchema(s)
    ensures k in s.lists ==>
      (var filled := Fill(m, s.top);
       BackFillEntries(m, s)[k] == if filled[k].JArr? then filled[k] else JArr([]))
    ensures k !in s.lists && k != "client_intent" && k != "consult_scorecard" && k in Fill(m, s.top) ==>
      BackFillEntries(m, s)[k] == Fill(m, s.top)[k]
    ensures BackFillEntries(m, s)["client_intent"] == NestedFill(Fill(m, s.top)["client_intent"], s.intent)
    ensures BackFillEntries(m, s)["consult_scorecard"] ==
      NestedFill(Fill(m, s.top)["consult_scorecard"], s.scorecard)
  {
    var m1 := Fill(m, s.top);
    var m2 := m1["client_intent" := NestedFill(m1["client_intent"], s.intent)];
    var m3 := m2["consult_scorecard" := NestedFill(m2["consult_scorecard"], s.scorecard)];
    WithListsFacts(m3, s.lists);
    if k in s.lists {
      assert k != "client_intent" && k != "consult_scorecard";
      assert m3[k] == m1[k];
    }
  }

  /** Entries the reply had: what stays and what is replaced. */
  lemma EntriesKeep(m: map<string, Json>, s: Schema, k: string)
    requires ValidSchema(s) && k in m
    ensures k !in s.top ==> BackFillEntries(m, s)[k] == m[k]
    ensures k !in s.lists && k != "client_intent" && k != "consult_scorecard" && !m[k].JNull? ==>
      BackFillEntries(m, s)[k] == m[k]
    ensures k in s.lists ==> BackFillEntries(m, s)[k] == if m[k].JArr? then m[k] else JArr([])
  {
    EntriesAt(m, s, k);
  }

  /** Entries the reply lacked take their default. */
  lemma EntriesMissing(m: map<string, Json>, s: Schema, k: string)
    requires ValidSchema(s) && k !in m && k in s.top
    ensures BackFillEntries(m, s)[k] == s.top[k]
  {
    EntriesAt(m, s, k);
    FillOfComplete(s.intent, s.intent);
    FillOfComplete(s.scorecard, s.scorecard);
  }

  /** The nested records of a reply that has them. */
  lemma EntriesNested(m: map<string, Json>, s: Schema)
    requires ValidSchema(s)
    ensures "client_intent" in m && m["client_intent"].JObj? ==>
      BackFillEntries(m, s)["client_intent"] == JObj(Fill(m["client_intent"].fields, s.intent))
    ensures "client_intent" in m && !m["client_intent"].JObj? ==>
      BackFillEntries(m, s)["client_intent"] == JObj(s.intent)
    ensures "consult_scorecard" in m && m["consult_scorecard"].JObj? ==>
      BackFillEntries(m, s)["consult_scorecard"] == JObj(Fill(m["consult_scorecard"].fields, s.scorecard))
    ensures "consult_scorecard" in m && !m["consult_scorecard"].JObj? ==>
      BackFillEntries(m, s)["consult_scorecard"] == JObj(s.scorecard)
  {
    EntriesAt(m, s, "client_intent");
    FillOfComplete(s.intent, s.intent);
    FillOfComplete(s.scorecard, s.scorecard);
  }

  lemma EntriesComplete(m: map<string, Json>, s: Schema)
    requires ValidSchema(s)
    ensures IsComplete(BackFillEntries(m, s), s)
  {
    var m1 := Fill(m, s.top);
    var m2 := m1["client_intent" := NestedFill(m1["client_intent"], s.intent)];
    var m3 := m2["consult_scorecard" := NestedFill(m2["consult_scorecard"], s.scorecard)];
    WithListsFacts(m3, s.lists);
  }

  lemma EntriesOfComplete(m: map<string, Json>, s: Schema)
    requires ValidSchema(s)
    requires IsComplete(m, s)
    ensures BackFillEntries(m, s) == m
  {
    FillOfComplete(m, s.top);
    FillOfComplete(m["client_intent"].fields, s.intent);
    FillOfComplete(m["consult_scorecard"].fields, s.scorecard);
    assert m["client_intent" := NestedFill(m["client_intent"], s.intent)] == m;
    assert m["consult_scorecard" := NestedFill(m["consult_scorecard"], s.scorecard)] == m;
    WithListsFacts(m, s.lists);
    assert WithLists(m, s.lists) == m;
  }

  /**
   * After back-fill a dict holds every schema key, non-null, with dicts in
   * the nested records and lists in the list fields.
   */
  lemma BackFillComplete(data: Json)
    requires data.JObj?
    ensures IsCompleteAnalysis(BackFill(data))
  {
    SchemaFacts();
    EntriesComplete(data.fields, AnalysisSchema);
  }

  /** A complete dict is a fixed point of back-fill. */
  lemma BackFillOfComplete(data: Json)
    requires IsCompleteAnalysis(data)
    ensures BackFill(data) == data
  {
    SchemaFacts();
    EntriesOfComplete(data.fields, AnalysisSchema);
  }

  /** The fields a complete analysis is sure to have, and the shape of its report lists. */
  lemma CompleteAnalysisFields(data: Json)
    requires IsCompleteAnalysis(data)
    ensures "summary" in data.fields && "sentiment_score" in data.fields
    ensures "strengths" in data.fields && data.fields["strengths"].JArr?
    ensures "improvements" in data.fields && data.fields["improvements"].JArr?
    ensures "coaching_tips" in data.fields && data.fields["coaching_tips"].JArr?
  {
    var s := AnalysisSchema;
    assert HasAll(data.fields, s.top) && forall k :: k in s.lists ==> k in data.fields && data.fields[k].JArr?;
    assert "summary" in s.top && "sentiment_score" in s.top;
    assert s.lists[1] == "strengths" && s.lists[2] == "improvements" && s.lists[3] == "coaching_tips";
  }

  /** Back-filling twice is the same as back-filling once. */
  lemma BackFillIdempotent(data: Json)
    ensures BackFill(BackFill(data)) == BackFill(data)
  {
    if data.JObj? {
      BackFillComplete(data);
      BackFillOfComplete(BackFill(data));
    }
  }

  /** Back-fill keeps every key outside the schema as it is. */
  lemma BackFillKeepsExtraKeys(data: Json, k: string)
    requires data.JObj? && k in data.fields && k !in SchemaDefaults
    ensures BackFill(data).fields[k] == data.fields[k]
  {
    SchemaFacts();
    EntriesKeep(data.fields, AnalysisSchema, k);
  }

  /** A non-null `summary` or `sentiment_score` is kept whatever its type. */
  lemma BackFillKeepsScalars(data: Json, k: string)
    requires data.JObj? && k in data.fields && !data.fields[k].JNull?
    requires k == "summary" || k == "sentiment_score"
    ensures BackFill(data).fields[k] == data.fields[k]
  {
    SchemaFacts();
    assert k !in ListKeys;
    EntriesKeep(data.fields, AnalysisSchema, k);
  }

  /**
   * A list in a list field is kept without looking at its items; anything
   * else there, null included, becomes the empty list.
   */
  lemma BackFillListFields(data: Json, k: string)
    requires data.JObj? && k in data.fields && k in ListKeys
    ensures BackFill(data).fields[k] == if data.fields[k].JArr? then data.fields[k] else JArr([])
  {
    SchemaFacts();
    EntriesKeep(data.fields, AnalysisSchema, k);
  }

  /** A schema key the reply lacks takes its default value. */
  lemma BackFillAddsDefaults(data: Json, k: string)
    requires data.JObj? && k !in data.fields && k in SchemaDefaults
    ensures BackFill(data).fields[k] == SchemaDefaults[k]
  {
    SchemaFacts();
    EntriesMissing(data.fields, AnalysisSchema, k);
  }

  /**
   * A nested record that is a dict keeps its non-null values and extra
   * keys and gains the missing ones; any other value (null included)
   * becomes the defaults.
   */
  lemma BackFillNested(data: Json)
    requires data.JObj?
    ensures "client_intent" in data.fields ==>
      (var v := data.fields["client_intent"];
       BackFill(data).fields["client_intent"] ==
         if v.JObj? then JObj(Fill(v.fields, IntentDefaults)) else JObj(IntentDefaults))
    ensures "consult_scorecard" in data.fields ==>
      (var v := data.fields["consult_scorecard"];
       BackFill(data).fields["consult_scorecard"] ==
         if v.JObj? then JObj(Fill(v.fields, ScorecardDefaults)) else JObj(ScorecardDefaults))
  {
    SchemaFacts();
    EntriesNested(data.fields, AnalysisSchema);
  }

  // ---------------------------------------------------------------------
  // analyze_call, after the model has replied

  /** The failure outcome: the model's reply kept for diagnosis. */
  datatype AnalysisError = AnalysisError(rawResponse: string)

  /**
   * analyze_call from the reply on: carve the JSON text, decode it (the
   * `decode` parameter stands for `json.loads`, `None` for its failure) and
   * back-fill it; a decoding failure gives the error outcome.
   */
  method AnalyzeResponse(responseText: string, decode: string -> Option<Json>)
    returns (r: Result<Json, AnalysisError>)
    ensures
      var decoded := decode(ExtractFirstJson(responseText).0);
      && (decoded.None? ==> r == Err(AnalysisError(responseText)))
      && (decoded.Some? ==> r == Ok(BackFill(decoded.value)))
  {
    var (jsonText, _) := ExtractFirstJson(responseText);
    var decoded := decode(jsonText);
    if decoded.None? {
      return Err(AnalysisError(responseText));
    }
    var data := EnsureAnalysisKeys(decoded.value);
    r := Ok(data);
  }

  // ---------------------------------------------------------------------
  // _question_supported_by_transcript

  /** The question words the gate ignores. */
  predicate IsStopword(w: string) {
    w in {
      "a", "an", "and", "are", "as", "at", "be", "but", "by", "did", "do", "does",
      "for", "from", "had", "has", "have", "he", "her", "hers", "him", "his", "i",
      "if", "in", "is", "it", "its", "me", "my", "not", "of", "on", "or", "our",
      "she", "so", "that", "the", "their", "them", "they", "this", "to", "was",
      "we", "were", "what", "when", "where", "who", "why", "will", "with", "you",
      "your"}
  }

  /** The class `[a-z0-9']`. */
  predicate IsWordChar(c: char) {
    'a' <= c <= 'z' || '0' <= c <= '9' || c == '\''
  }

  predicate IsKeyword(w: string) {
    !IsStopword(w) && |w| > 2
  }

  /** `[w for w in words if w not in stopwords and len(w) > 2]` */
  function KeywordsOf(words: seq<string>): (r: seq<string>)
    ensures |r| <= |words|
    ensures forall w :: w in r <==> w in words && IsKeyword(w)
  {
    if words == [] then []
    else
      var rest := KeywordsOf(words[1..]);
      assert forall w :: w in words <==> w == words[0] || w in words[1..];
      (if IsKeyword(words[0]) then [words[0]] else []) + rest
  }

  /**
   * The keywords of a question: lower-cased `[a-z0-9']+` tokens that are
   * longer than two characters and not stopwords.
   */
  function Keywords(question: string): (r: seq<string>)
    ensures forall k :: 0 <= k < |r| ==> IsRun(r[k], IsWordChar) && IsKeyword(r[k])
  {
    var r := KeywordsOf(Runs(Lower(question), IsWordChar));
    assert forall k :: 0 <= k < |r| ==> r[k] in r;
    r
  }

  /**
   * The relevance gate: false for an empty transcript or question; true
   * when the question has no keywords; otherwise true exactly when some
   * keyword occurs in the lower-cased transcript.
   */
  predicate QuestionSupported(transcript: string, question: string)
    ensures QuestionSupported(transcript, question) <==>
      && transcript != "" && question != ""
      && ((forall w :: w in Runs(Lower(question), IsWordChar) ==> !IsKeyword(w))
          || exists w :: w in Runs(Lower(question), IsWordChar) && IsKeyword(w) && Contains(Lower(transcript), w))
  {
    if transcript == "" || question == "" then false
    else
      var keywords := Keywords(question);
      assert keywords != [] ==> keywords[0] in keywords;
      keywords == [] || exists k :: k in keywords && Contains(Lower(transcript), k)
  }

  /**
   * A keyword is exactly a maximal `[a-z0-9']` run of the lower-cased
   * question that is longer than two characters and not a stopword.
   */
  lemma KeywordsAreFilteredTokens(question: string, w: string)
    ensures w in Keywords(question) <==> w in Runs(Lower(question), IsWordChar) && IsKeyword(w)
    ensures w in Keywords(question) ==> IsRun(w, IsWordChar) && !IsStopword(w) && |w| > 2
  {
  }

  /**
   * A question that is one lower-case keyword passes the gate exactly when
   * that word occurs in the lower-cased transcript.
   */
  lemma GateOnSingleKeyword(transcript: string, w: string)
    requires transcript != ""
    requires IsRun(w, IsWordChar) && IsKeyword(w)
    ensures QuestionSupported(transcript, w) <==> Contains(Lower(transcript), w)
  {
    assert Lower(w) == w;
    RunsOfPrefix(w, [], IsWordChar);
    assert w + [] == w;
    assert Runs(w, IsWordChar) == [w];
    assert [w][1..] == [];
    assert KeywordsOf([w]) == [w];
  }

  /** A made-up word absent from the transcript is refused. */
  lemma GateRejectsAbsentKeyword(transcript: string)
    requires transcript != ""
    requires !Contains(Lower(transcript), "asdfqwer")
    ensures !QuestionSupported(transcript, "asdfqwer")
  {
    var q := "asdfqwer";
    assert IsRun(q, IsWordChar);
    GateOnSingleKeyword(transcript, q);
  }

  // ---------------------------------------------------------------------
  // chat_with_coach

  /** One entry of the chat history: the values of its `role`, `content` and `parts` keys. */
  datatype Message = Message(role: Option<string>, content: Option<string>, parts: Option<seq<string>>)

  const Refusal: string := "That isn't in the transcript."

  /** The refusal, or the conversation that is sent to the model with the transcript. */
  datatype ChatReply = Refused(text: string) | Forwarded(conversation: string)

  /** `content`, or the first of a non-empty `parts` list when `content` is missing or empty. */
  function EffectiveContent(msg: Message): string {
    var content := if msg.content.Some? then msg.content.value else "";
    if content == "" && msg.parts.Some? && msg.parts.value != [] then msg.parts.value[0] else content
  }

  /** The line a history entry contributes: user and assistant turns with content only. */
  function LineOf(msg: Message): seq<string> {
    var content := EffectiveContent(msg);
    if content == "" then []
    else if msg.role == Some("user") then ["User: " + content]
    else if msg.role == Some("assistant") then ["Coach: " + content]
    else []
  }

  /** Each entry contributes at most one line. */
  lemma LineOfAtMostOne(msg: Message)
    ensures |LineOf(msg)| <= 1
  {
  }

  /** The lines of the entries, each entry's lines in turn. */
  function FlatMap<T>(xs: seq<T>, f: T -> seq<string>): seq<string> {
    if xs == [] then [] else FlatMap(xs[..|xs| - 1], f) + f(xs[|xs| - 1])
  }

  lemma FlatMapStep<T>(xs: seq<T>, f: T -> seq<string>, i: nat)
    requires i < |xs|
    ensures FlatMap(xs[..i + 1], f) == FlatMap(xs[..i], f) + f(xs[i])
  {
    assert xs[..i + 1][..i] == xs[..i];
  }

  lemma {:induction false} FlatMapAppend<T>(a: seq<T>, b: seq<T>, f: T -> seq<string>)
    ensures FlatMap(a + b, f) == FlatMap(a, f) + FlatMap(b, f)
    decreases |b|
  {
    if b == [] {
      assert a + b == a;
    } else {
      var b' := b[..|b| - 1];
      assert (a + b)[..|a + b| - 1] == a + b';
      assert (a + b)[|a + b| - 1] == b[|b| - 1];
      FlatMapAppend(a, b', f);
    }
  }

  function HistoryLines(history: seq<Message>): seq<string> {
    FlatMap(history, LineOf)
  }

  /** The conversation has at most one line per history entry. */
  lemma {:induction false} HistoryLinesBound(history: seq<Message>)
    ensures |HistoryLines(history)| <= |history|
    decreases |history|
  {
    if history != [] {
      HistoryLinesBound(history[..|history| - 1]);
      LineOfAtMostOne(history[|history| - 1]);
    }
  }

  /**
   * The history lines followed, unless it is already the last user turn, by
   * the question: the history lines are kept as they are, and at most the
   * one user line with the question is added after them. It is added
   * exactly when the question is non-empty and either the last line is not
   * a user line or the last entry's content differs from the question.
   */
  function ConversationLines(history: seq<Message>, userInput: string): (r: seq<string>)
    ensures r == HistoryLines(history) || r == HistoryLines(history) + ["User: " + userInput]
    ensures r == HistoryLines(history) + ["User: " + userInput] <==>
      userInput != ""
      && (HistoryLines(history) == []
          || !StartsWith(HistoryLines(history)[|HistoryLines(history)| - 1], "User:")
          || history == []
          || history[|history| - 1].content != Some(userInput))
    ensures userInput == "" ==> r == HistoryLines(history)
    ensures |r| <= |history| + 1
  {
    HistoryLinesBound(history);
    var lines := HistoryLines(history);
    if userInput == "" then lines
    else if lines == [] || !StartsWith(lines[|lines| - 1], "User:") then lines + ["User: " + userInput]
    else if history[|history| - 1].content != Some(userInput) then lines + ["User: " + userInput]
    else lines
  }

  /**
   * The conversation text: the lines joined by LF and stripped. It has no
   * surrounding whitespace, and there is none when there are no lines.
   */
  function Conversation(history: seq<Message>, userInput: string): (r: string)
    ensures r != "" ==> !IsSpace(r[0]) && !IsSpace(r[|r| - 1])
    ensures ConversationLines(history, userInput) == [] ==> r == ""
  {
    Strip(Join(ConversationLines(history, userInput), "\n"))
  }

  /**
   * chat_with_coach up to the model call: the refusal when the gate says
   * no, otherwise the conversation built from the history and the question.
   */
  method ChatWithCoach(transcript: string, history: seq<Message>, userInput: string)
    returns (reply: ChatReply)
    ensures reply.Refused? <==> !QuestionSupported(transcript, userInput)
    ensures reply.Refused? ==> reply.text == "That isn't in the transcript."
    ensures reply.Forwarded? ==> reply.conversation == Conversation(history, userInput)
  {
    if !QuestionSupported(transcript, userInput) {
      return Refused(Refusal);
    }
    var historyLines := CollectHistoryLines(history);
    historyLines := AppendQuestion(history, historyLines, userInput);
    reply := Forwarded(Strip(Join(historyLines, "\n")));
  }

  /** The question becomes the last user line unless the history already ends with it. */
  method AppendQuestion(history: seq<Message>, historyLines: seq<string>, userInput: string)
    returns (lines: seq<string>)
    requires historyLines == HistoryLines(history)
    ensures lines == ConversationLines(history, userInput)
  {
    lines := historyLines;
    if userInput != "" {
      if lines == [] || !StartsWith(lines[|lines| - 1], "User:") {
        lines := lines + ["User: " + userInput];
      } else {
        var lastUser := if history != [] then history[|history| - 1].content else None;
        if lastUser != Some(userInput) {
          lines := lines + ["User: " + userInput];
        }
      }
    }
  }

  /** The history loop: one line per user or assistant entry that has content. */
  method CollectHistoryLines(history: seq<Message>) returns (historyLines: seq<string>)
    ensures historyLines == HistoryLines(history)
  {
    historyLines := [];
    for i := 0 to |history|
      invariant historyLines == HistoryLines(history[..i])
    {
      FlatMapStep(history, LineOf, i);
      var msg := history[i];
      var role := msg.role;
      var content := if msg.content.Some? then msg.content.value else "";
      if content == "" && msg.parts.Some? && msg.parts.value != [] {
        content := msg.parts.value[0];
      }
      assert content == EffectiveContent(msg);
      if content == "" {
        continue;
      }
      if role == Some("user") {
        historyLines := historyLines + ["User: " + content];
      } else if role == Some("assistant") {
        historyLines := historyLines + ["Coach: " + content];
      }
    }
    assert history[..|history|] == history;
  }

  /** History entries contribute their lines in order. */
  lemma HistoryLinesAppend(a: seq<Message>, b: seq<Message>)
    ensures HistoryLines(a + b) == HistoryLines(a) + HistoryLines(b)
  {
    FlatMapAppend(a, b, LineOf);
  }

  /** A new question (not the content of the last entry) becomes the last user line. */
  lemma QuestionAppended(history: seq<Message>, userInput: string)
    requires userInput != ""
    requires history == [] || history[|history| - 1].content != Some(userInput)
    ensures ConversationLines(history, userInput) == HistoryLines(history) + ["User: " + userInput]
  {
  }

  /**
   * The caller appends the question to the history before the call; the
   * conversation then ends with that one user line, not with two.
   */
  lemma NoDuplicateFinalUserLine(earlier: seq<Message>, userInput: string)
    requires userInput != ""
    ensures
      var history := earlier + [Message(Some("user"), Some(userInput), None)];
      ConversationLines(history, userInput) == HistoryLines(earlier) + ["User: " + userInput]
  {
    var msg := Message(Some("user"), Some(userInput), None);
    var history := earlier + [msg];
    var line := "User: " + userInput;
    assert LineOf(msg) == [line];
    assert history[..|history| - 1] == earlier;
    assert HistoryLines(history) == HistoryLines(earlier) + [line];
    assert StartsWith(line, "User:") by {
      assert line[..5] == "User:";
    }
  }

  /**
   * After a coach line the question is added even when that coach turn
   * said the same words: the duplicate check applies only after a user line.
   */
  lemma QuestionAppendedAfterCoach(earlier: seq<Message>, userInput: string)
    requires userInput != ""
    ensures
      var history := earlier + [Message(Some("assistant"), Some(userInput), None)];
      ConversationLines(history, userInput)
        == HistoryLines(earlier) + ["Coach: " + userInput, "User: " + userInput]
  {
    var msg := Message(Some("assistant"), Some(userInput), None);
    var history := earlier + [msg];
    var line := "Coach: " + userInput;
    assert LineOf(msg) == [line];
    assert history[..|history| - 1] == earlier;
    assert HistoryLines(history) == HistoryLines(earlier) + [line];
    assert !StartsWith(line, "User:") by {
      assert line[0] == 'C';
    }
  }

  /**
   * The duplicate check compares the question with the last entry whatever
   * its role: after a user line and a final entry of another role with the
   * same content, the question is not added.
   */
  lemma QuestionOmittedAfterOtherRole()
    ensures
      var history := [Message(Some("user"), Some("a"), None), Message(Some("system"), Some("q"), None)];
      ConversationLines(history, "q") == ["User: a"]
  {
    var first := Message(Some("user"), Some("a"), None);
    var second := Message(Some("system"), Some("q"), None);
    var history := [first, second];
    assert EffectiveContent(first) == "a";
    assert "User: " + "a" == "User: a";
    assert LineOf(first) == ["User: a"];
    assert LineOf(second) == [];
    assert history[..1] == [first] && [first][..0] == [];
    assert FlatMap([first], LineOf) == FlatMap([], LineOf) + LineOf(first);
    assert HistoryLines(history) == FlatMap([first], LineOf) + LineOf(second);
    assert StartsWith("User: a", "User:") by {
      assert "User: a"[..5] == "User:";
    }
  }
}
