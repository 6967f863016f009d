/**
 * The AI service: frame analysis (`analyzeFrame`), the legacy privacy
 * wrapper (`analyzePrivacy`) and the map-grounded location check
 * (`verifyLocationContext`). The generation call is the parameter `model`
 * (or `ask` for the location check), and `JSON.parse` is the parameter
 * `parse`, which gives `None` where `JSON.parse` throws.
 */
module Analysis {
  import opened Optional
  import opened JsJson
  import opened JsText
  import Plates

  datatype Mode = OBJECTS | ANOMALY | FACE | ANPR | PRIVACY | SEARCH

  const FlashModel := "gemini-2.5-flash"
  const ProModel := "gemini-3-pro-preview"
  const JpegMime := "image/jpeg"

  /**
   * The instruction sent after the frames. The fixed wording of each mode is
   * not kept, only which one it is; the SEARCH wording embeds the target.
   */
  datatype Prompt = ModePrompt(mode: Mode) | SearchPrompt(target: string)

  datatype Part = InlineImage(mimeType: string, data: string) | TextPart(prompt: Prompt)

  /** One generation call: the model name, the parts in order, and whether a JSON reply is requested. */
  datatype Request = Request(model: string, parts: seq<Part>, jsonResponse: bool)

  /** The reply's `text` (absent when the reply carries none), or the error the call threw. */
  datatype Reply = Replied(text: Option<string>) | CallFailed

  /** The two modes that ask for a JSON reply. */
  predicate Structured(mode: Mode) {
    mode == PRIVACY || mode == SEARCH
  }

  /** A template literal prints an absent target as `undefined`. */
  function Interpolated(target: Option<string>): string {
    if target.Some? then target.value else "undefined"
  }

  /**
   * The frames as JPEG parts in their order, then the prompt; PRIVACY and
   * SEARCH go to the larger model with a JSON reply, every other mode to the
   * default model with free text.
   */
  function BuildRequest(frames: seq<string>, mode: Mode, target: Option<string>): (req: Request)
    ensures |req.parts| == |frames| + 1
    ensures forall i :: 0 <= i < |frames| ==> req.parts[i] == InlineImage(JpegMime, frames[i])
    ensures req.parts[|frames|] == TextPart(if mode == SEARCH then SearchPrompt(Interpolated(target)) else ModePrompt(mode))
    ensures req.jsonResponse <==> Structured(mode)
    ensures req.model == if Structured(mode) then ProModel else FlashModel
  {
    var images := seq(|frames|, i requires 0 <= i < |frames| => InlineImage(JpegMime, frames[i]));
    var prompt := if mode == SEARCH then SearchPrompt(Interpolated(target)) else ModePrompt(mode);
    Request(if Structured(mode) then ProModel else FlashModel, images + [TextPart(prompt)], Structured(mode))
  }

  /**
   * The analysis result. The plate candidates and the two flags are absent
   * from the two degraded results (empty input, and the outer failure).
   * The flags keep the JSON value the source stores (`json.recommendBlur || false`).
   */
  datatype AnalysisResult = AnalysisResult(
    text: string,
    detectedObjects: seq<string>,
    safetyScore: int,
    anprCandidates: Option<seq<string>>,
    privacyRecommendation: Option<Json>,
    matchFound: Option<Json>)

  const EmptyFramesText := "Error: Video frame capture failed. Data is empty."
  const OfflineText := "System offline or analysis failed."
  const ParseErrorText := "Error parsing AI report."
  const AuditDefaultText := "Privacy Audit Completed."
  const MatchedText := "Target matched in video feed."
  const NotFoundText := "Target not found."
  const MatchLabel := "Target Match"

  const DangerKeywords: seq<string> := ["fire", "accident", "weapon", "fighting", "blood", "crash", "robbery", "gun", "knife"]

  const Vocabulary: seq<string> := ["car", "person", "truck", "bus", "fire", "smoke", "weapon", "dog", "cat", "bag", "backpack"]

  function Degraded(text: string): AnalysisResult {
    AnalysisResult(text, [], 0, None, None, None)
  }

  /** Some danger keyword occurs in the lower-cased text. */
  predicate IsDangerous(text: string) {
    exists k :: k in DangerKeywords && Includes(Lower(text), k)
  }

  function SafetyScore(text: string): int {
    if IsDangerous(text) then 30 else 95
  }

  /** The score is 30 exactly when a danger keyword occurs in the lower-cased text, else 95; case does not matter. */
  lemma SafetyScoreMeaning(text: string)
    ensures SafetyScore(text) == 30 <==> exists k, i :: k in DangerKeywords && OccursAt(Lower(text), k, i)
    ensures SafetyScore(text) != 30 ==> SafetyScore(text) == 95
    ensures SafetyScore(Lower(text)) == SafetyScore(text)
  {
    LowerIsLower(text);
  }

  // Free-text labels.

  predicate IsListSeparator(c: char) {
    c == ',' || c == ':' || c == '\n'
  }

  function TrimAll(xs: seq<string>): (r: seq<string>)
    ensures |r| == |xs|
    ensures forall i :: 0 <= i < |xs| ==> r[i] == Trim(xs[i])
  {
    seq(|xs|, i requires 0 <= i < |xs| => Trim(xs[i]))
  }

  /** `xs.filter(s => s.length > 2)` */
  function KeepLong(xs: seq<string>): (r: seq<string>)
    ensures |r| <= |xs|
    ensures forall x :: x in r <==> x in xs && JsLength(x) > 2
  {
    if xs == [] then []
    else
      assert forall x :: x in xs <==> x == xs[0] || x in xs[1..];
      (if JsLength(xs[0]) > 2 then [xs[0]] else []) + KeepLong(xs[1..])
  }

  lemma KeepLongCons(x: string, t: seq<string>)
    ensures KeepLong([x] + t) == (if JsLength(x) > 2 then [x] else []) + KeepLong(t)
  {
    assert ([x] + t)[0] == x && ([x] + t)[1..] == t;
  }

  /** The filter keeps list order and repeats: filtering a concatenation concatenates the filtered parts. */
  lemma {:induction false} KeepLongAppend(a: seq<string>, b: seq<string>)
    ensures KeepLong(a + b) == KeepLong(a) + KeepLong(b)
  {
    if a != [] {
      var t := a[1..];
      var h := if JsLength(a[0]) > 2 then [a[0]] else [];
      calc {
        KeepLong(a + b);
        { assert a + b == [a[0]] + (t + b); }
        KeepLong([a[0]] + (t + b));
        { KeepLongCons(a[0], t + b); }
        h + KeepLong(t + b);
        { KeepLongAppend(t, b); }
        h + (KeepLong(t) + KeepLong(b));
        (h + KeepLong(t)) + KeepLong(b);
        { KeepLongCons(a[0], t); assert a == [a[0]] + t; }
        KeepLong(a) + KeepLong(b);
      }
    } else {
      assert a + b == b;
    }
  }

  /** The trimmed pieces of a comma, colon or newline separated list. */
  function ListItems(text: string): seq<string> {
    TrimAll(SplitWhere(text, IsListSeparator))
  }

  /**
   * OBJECTS labels: the first ten items longer than two code units, in list
   * order, and all of them when there are fewer than ten.
   */
  function ObjectLabels(text: string): (r: seq<string>)
    ensures |r| <= 10
    ensures |r| == if |KeepLong(ListItems(text))| <= 10 then |KeepLong(ListItems(text))| else 10
    ensures r == KeepLong(ListItems(text))[..|r|]
    ensures forall x :: x in r ==> x in ListItems(text) && JsLength(x) > 2
    ensures |r| < 10 ==> forall x :: x in ListItems(text) && JsLength(x) > 2 ==> x in r
  {
    var long := KeepLong(ListItems(text));
    var r := Take(long, 10);
    assert forall x :: x in r ==> x in long;
    r
  }

  predicate IsWordChar(c: char) {
    'a' <= c <= 'z' || 'A' <= c <= 'Z' || '0' <= c <= '9' || c == '_'
  }

  /** `\b` at position `p` of `s`. */
  predicate AtBoundary(s: string, p: nat)
    requires p <= |s|
  {
    (p > 0 && IsWordChar(s[p - 1])) != (p < |s| && IsWordChar(s[p]))
  }

  /** Alternative `w` of `(...)\b` matches at `p`, ignoring ASCII case. */
  predicate WordMatchesAt(s: string, p: nat, w: string) {
    p + |w| <= |s| && Lower(s[p..p + |w|]) == w && AtBoundary(s, p + |w|)
  }

  /** The end of the first alternative, in the order given, that matches at `p`. */
  function WordAt(s: string, p: nat, words: seq<string>): (r: Option<nat>)
    requires p <= |s|
    requires forall i :: 0 <= i < |words| ==> words[i] != []
    ensures r.Some? ==> p < r.value <= |s| && Lower(s[p..r.value]) in words && AtBoundary(s, r.value)
    ensures r.None? ==> forall i :: 0 <= i < |words| ==> !WordMatchesAt(s, p, words[i])
  {
    if words == [] then None
    else if WordMatchesAt(s, p, words[0]) then Some(p + |words[0]|)
    else WordAt(s, p, words[1..])
  }

  /** `(text.match(/\b(car|person|...|backpack)\b/gi) || [])` from position `p`. */
  function VocabScan(s: string, p: nat): (r: seq<string>)
    requires p <= |s|
    ensures forall i :: 0 <= i < |r| ==> Lower(r[i]) in Vocabulary
    decreases |s| - p
  {
    var hit := if AtBoundary(s, p) then WordAt(s, p, Vocabulary) else None;
    match hit
    case Some(e) => [s[p..e]] + VocabScan(s, e)
    case None => if p < |s| then VocabScan(s, p + 1) else []
  }

  /** A vocabulary word standing on its own anywhere from `p` on is reported. */
  lemma {:induction false} VocabularyWordIsFound(s: string, p: nat, i: nat, w: string)
    requires p <= i <= |s| && w in Vocabulary && AtBoundary(s, i) && WordMatchesAt(s, i, w)
    ensures VocabScan(s, p) != []
    decreases i - p
  {
    var hit := if AtBoundary(s, p) then WordAt(s, p, Vocabulary) else None;
    if hit.None? && p < i {
      VocabularyWordIsFound(s, p + 1, i, w);
    }
  }

  // From the reply to the result.

  /**
   * The analysis after the mode-specific step and before the common tail:
   * `finalText` and `detectedObjects` may hold any JSON value at this point.
   */
  datatype Draft = Draft(finalText: Json, labels: seq<Json>, privacy: Json, matched: Json)

  /** `p || fallback` */
  function OrElse(p: Prop, fallback: Json): Json {
    if PropTruthy(p) then p.value else fallback
  }

  function JStrs(xs: seq<string>): (r: seq<Json>)
    ensures |r| == |xs|
    ensures forall i :: 0 <= i < |xs| ==> r[i] == JStr(xs[i])
  {
    seq(|xs|, i requires 0 <= i < |xs| => JStr(xs[i]))
  }

  predicate AllStrings(js: seq<Json>) {
    forall i :: 0 <= i < |js| ==> js[i].JStr?
  }

  function Strings(js: seq<Json>): (r: seq<string>)
    requires AllStrings(js)
    ensures |r| == |js|
    ensures forall i :: 0 <= i < |js| ==> js[i] == JStr(r[i])
  {
    seq(|js|, i requires 0 <= i < |js| => js[i].s)
  }

  const ParseFailed := Draft(JStr(ParseErrorText), [], JBool(false), JBool(false))

  /** The JSON branch; a parse error and a property read on `null` both reach the inner handler. */
  function FromJson(mode: Mode, text: string, parse: string -> Option<Json>): Draft
    requires Structured(mode)
  {
    match parse(text)
    case None => ParseFailed
    case Some(json) =>
      if json.JNull? then ParseFailed
      else if mode == PRIVACY then
        var risks := Get(json, "risks");
        Draft(OrElse(Get(json, "summary"), JStr(AuditDefaultText)),
              if PropTruthy(risks) && risks.value.JArr? then risks.value.items else [],
              OrElse(Get(json, "recommendBlur"), JBool(false)),
              JBool(false))
      else
        var matched := OrElse(Get(json, "matchFound"), JBool(false));
        Draft(OrElse(Get(json, "description"), JStr(if Truthy(matched) then MatchedText else NotFoundText)),
              if Truthy(matched) then [JStr(MatchLabel)] else [],
              JBool(false),
              matched)
  }

  /**
   * What the JSON branch hands on: the parse-error draft for a reply that
   * does not parse or is `null`; no match flag for PRIVACY; for SEARCH no
   * blur advice, and the one label exactly when the flag is truthy.
   */
  lemma JsonDraftShape(mode: Mode, text: string, parse: string -> Option<Json>)
    requires Structured(mode)
    ensures parse(text).None? || parse(text) == Some(JNull) ==> FromJson(mode, text, parse) == ParseFailed
    ensures mode == PRIVACY ==> FromJson(mode, text, parse).matched == JBool(false)
    ensures var d := FromJson(mode, text, parse);
      mode == SEARCH ==> d.privacy == JBool(false) && d.labels == if Truthy(d.matched) then [JStr(MatchLabel)] else []
  {
  }

  /** The free-text branch: OBJECTS splits a list, the other modes pick vocabulary words. */
  function FromText(mode: Mode, text: string): Draft {
    var labels := if mode == OBJECTS then ObjectLabels(text) else VocabScan(text, 0);
    Draft(JStr(text), JStrs(labels), JBool(false), JBool(false))
  }

  /** The free-text draft: the reply is the text, both flags are false, and every label is a string. */
  lemma TextDraftShape(mode: Mode, text: string)
    ensures var d := FromText(mode, text);
      && d.finalText == JStr(text) && d.privacy == JBool(false) && d.matched == JBool(false)
      && AllStrings(d.labels)
      && (mode == OBJECTS ==> |d.labels| <= 10)
  {
  }

  /**
   * The common tail: score the text, lower-case and de-duplicate the labels
   * and scan the text for plates. A text or a label that is not a string has
   * no `toLowerCase`, and the thrown error reaches the outer handler.
   */
  function Finish(d: Draft): (r: AnalysisResult)
    ensures r.anprCandidates.Some? <==> d.finalText.JStr? && AllStrings(d.labels)
    ensures r.anprCandidates.None? ==> r == Degraded(OfflineText)
    ensures r.anprCandidates.Some? ==>
      && d.finalText == JStr(r.text)
      && r.safetyScore == SafetyScore(r.text)
      && r.privacyRecommendation == Some(d.privacy)
      && r.matchFound == Some(d.matched)
    ensures forall i, j :: 0 <= i < j < |r.detectedObjects| ==> r.detectedObjects[i] != r.detectedObjects[j]
    ensures forall i :: 0 <= i < |r.detectedObjects| ==> IsLower(r.detectedObjects[i])
    ensures |r.detectedObjects| <= |d.labels|
    ensures r.anprCandidates.Some? ==> forall x ::
      x in r.detectedObjects <==> exists i :: 0 <= i < |d.labels| && d.labels[i].JStr? && x == Lower(d.labels[i].s)
    ensures r.anprCandidates.Some? ==> forall k :: 0 <= k < |r.anprCandidates.value| ==>
      Plates.PlateShaped(r.anprCandidates.value[k])
  {
    if !d.finalText.JStr? || !AllStrings(d.labels) then Degraded(OfflineText)
    else
      var text := d.finalText.s;
      var lowered := LowerAll(Strings(d.labels));
      var labels := Dedup(lowered);
      assert forall x :: x in labels ==> exists i :: 0 <= i < |lowered| && x == lowered[i];
      assert forall i :: 0 <= i < |labels| ==> IsLower(labels[i]) by {
        forall i | 0 <= i < |labels| ensures IsLower(labels[i]) {
          assert labels[i] in lowered;
          var j :| 0 <= j < |lowered| && labels[i] == lowered[j];
          LowerIsLower(Strings(d.labels)[j]);
        }
      }
      Plates.CandidatesArePlates(text);
      AnalysisResult(text, labels, SafetyScore(text), Some(Plates.Candidates(text)), Some(d.privacy), Some(d.matched))
  }

  /** What the analysis makes of a reply text in a given mode. */
  function Respond(mode: Mode, text: string, parse: string -> Option<Json>): AnalysisResult {
    Finish(if Structured(mode) then FromJson(mode, text, parse) else FromText(mode, text))
  }

  /**
   * `analyzeFrame(frames, mode, target)`. An empty frame list returns before
   * any call; a failed call gives the offline result; otherwise the reply
   * text (empty when absent) is handled by `Respond`.
   */
  function AnalyzeFrame(frames: seq<string>, mode: Mode, target: Option<string>,
                        model: Request -> Reply, parse: string -> Option<Json>): (r: AnalysisResult)
    ensures frames == [] ==> r == Degraded(EmptyFramesText)
    ensures frames != [] && model(BuildRequest(frames, mode, target)).CallFailed? ==> r == Degraded(OfflineText)
    ensures r.safetyScore == 0 || r.safetyScore == 30 || r.safetyScore == 95
    ensures r.safetyScore == 0 <==> r.anprCandidates.None?
    ensures forall i, j :: 0 <= i < j < |r.detectedObjects| ==> r.detectedObjects[i] != r.detectedObjects[j]
    ensures forall i :: 0 <= i < |r.detectedObjects| ==> IsLower(r.detectedObjects[i])
  {
    if frames == [] then Degraded(EmptyFramesText)
    else
      match model(BuildRequest(frames, mode, target))
      case CallFailed => Degraded(OfflineText)
      case Replied(t) => Respond(mode, if t.Some? then t.value else "", parse)
  }

  // Properties of the analysis.

  /** An empty frame list never reaches the model: the result is the same whatever the model and parser do. */
  lemma EmptyFramesSkipModel(mode: Mode, target: Option<string>,
                             m1: Request -> Reply, p1: string -> Option<Json>,
                             m2: Request -> Reply, p2: string -> Option<Json>)
    ensures AnalyzeFrame([], mode, target, m1, p1) == AnalyzeFrame([], mode, target, m2, p2)
    ensures AnalyzeFrame([], mode, target, m1, p1).safetyScore == 0
  {
  }

  /** In the free-text modes the report is the reply itself, scored by its keywords, and both flags are false. */
  lemma FreeTextReport(mode: Mode, text: string, parse: string -> Option<Json>)
    requires !Structured(mode)
    ensures Respond(mode, text, parse).text == text
    ensures Respond(mode, text, parse).safetyScore == (if IsDangerous(text) then 30 else 95)
    ensures Respond(mode, text, parse).privacyRecommendation == Some(JBool(false))
    ensures Respond(mode, text, parse).matchFound == Some(JBool(false))
    ensures Respond(mode, text, parse).anprCandidates == Some(Plates.Candidates(text))
  {
  }

  /** A free-text report's labels are lowered forms of the listed or scanned words, and no more numerous. */
  lemma TextDraftLabels(mode: Mode, text: string, words: seq<string>)
    requires words == if mode == OBJECTS then ObjectLabels(text) else VocabScan(text, 0)
    ensures |Finish(FromText(mode, text)).detectedObjects| <= |words|
    ensures forall x :: x in Finish(FromText(mode, text)).detectedObjects ==>
      exists i :: 0 <= i < |words| && x == Lower(words[i])
  {
    var d := FromText(mode, text);
    assert d.labels == JStrs(words);
    assert AllStrings(d.labels);
    forall x | x in Finish(d).detectedObjects ensures exists i :: 0 <= i < |words| && x == Lower(words[i]) {
      var i :| 0 <= i < |d.labels| && d.labels[i].JStr? && x == Lower(d.labels[i].s);
      assert d.labels[i].s == words[i];
    }
  }

  /** OBJECTS: at most ten labels, each the lower-cased form of a list item longer than two code units. */
  lemma ObjectModeLabels(text: string, parse: string -> Option<Json>)
    ensures |Respond(OBJECTS, text, parse).detectedObjects| <= 10
    ensures forall x :: x in Respond(OBJECTS, text, parse).detectedObjects ==>
      exists y :: y in ListItems(text) && JsLength(y) > 2 && x == Lower(y)
  {
    var items := ObjectLabels(text);
    assert Respond(OBJECTS, text, parse) == Finish(FromText(OBJECTS, text));
    TextDraftLabels(OBJECTS, text, items);
    forall x | x in Respond(OBJECTS, text, parse).detectedObjects
      ensures exists y :: y in ListItems(text) && JsLength(y) > 2 && x == Lower(y)
    {
      var i :| 0 <= i < |items| && x == Lower(items[i]);
      assert items[i] in items;
    }
  }

  /** ANOMALY, FACE and ANPR: every label is a vocabulary word. */
  lemma VocabularyModeLabels(mode: Mode, text: string, parse: string -> Option<Json>)
    requires mode == ANOMALY || mode == FACE || mode == ANPR
    ensures forall x :: x in Respond(mode, text, parse).detectedObjects ==> x in Vocabulary
  {
    var words := VocabScan(text, 0);
    assert Respond(mode, text, parse) == Finish(FromText(mode, text));
    TextDraftLabels(mode, text, words);
  }

  /**
   * SEARCH with an object reply: the flag is the reply's `matchFound` (or
   * false); the only possible label is "target match", present exactly when
   * the flag is truthy; a missing description gives the matching stock text.
   */
  lemma SearchReport(text: string, parse: string -> Option<Json>, fields: map<string, Json>)
    requires parse(text) == Some(JObj(fields))
    ensures var r := Respond(SEARCH, text, parse);
      r.anprCandidates.Some? ==>
        && r.matchFound == Some(OrElse(Get(JObj(fields), "matchFound"), JBool(false)))
        && r.detectedObjects == (if Truthy(r.matchFound.value) then ["target match"] else [])
        && r.text == (if PropTruthy(Get(JObj(fields), "description")) then fields["description"].s
                      else if Truthy(r.matchFound.value) then MatchedText else NotFoundText)
    ensures var r := Respond(SEARCH, text, parse);
      r.anprCandidates.None? <==> PropTruthy(Get(JObj(fields), "description")) && !fields["description"].JStr?
  {
    var json := JObj(fields);
    var matched := OrElse(Get(json, "matchFound"), JBool(false));
    var d := FromJson(SEARCH, text, parse);
    assert d == Draft(OrElse(Get(json, "description"), JStr(if Truthy(matched) then MatchedText else NotFoundText)),
                      if Truthy(matched) then [JStr(MatchLabel)] else [], JBool(false), matched);
    MatchLabelLowered();
    assert Dedup(LowerAll(Strings([]))) == [];
  }

  lemma MatchLabelLowered()
    ensures Dedup(LowerAll(Strings([JStr(MatchLabel)]))) == ["target match"]
  {
    assert Strings([JStr(MatchLabel)]) == [MatchLabel];
    assert Lower(MatchLabel) == "target match";
    assert LowerAll([MatchLabel]) == ["target match"];
    assert ["target match"][..0] == [];
  }

  /**
   * PRIVACY with an object reply: the report is the reply's summary (or the
   * stock text), the recommendation is truthy exactly when `recommendBlur`
   * is, and the labels are the lower-cased risks when `risks` is an array of
   * strings.
   */
  lemma PrivacyReport(text: string, parse: string -> Option<Json>, fields: map<string, Json>)
    requires parse(text) == Some(JObj(fields))
    ensures var r := Respond(PRIVACY, text, parse);
      r.anprCandidates.Some? ==>
        && r.text == (if PropTruthy(Get(JObj(fields), "summary")) then fields["summary"].s else AuditDefaultText)
        && (Truthy(r.privacyRecommendation.value) <==> PropTruthy(Get(JObj(fields), "recommendBlur")))
        && r.matchFound == Some(JBool(false))
    ensures var r := Respond(PRIVACY, text, parse);
      && r.anprCandidates.Some?
      && "risks" in fields && fields["risks"].JArr?
      ==> forall x :: x in r.detectedObjects <==>
            exists i :: 0 <= i < |fields["risks"].items| && fields["risks"].items[i].JStr? && x == Lower(fields["risks"].items[i].s)
    ensures var r := Respond(PRIVACY, text, parse);
      ("risks" !in fields || !fields["risks"].JArr?) ==> r.detectedObjects == []
  {
    var json := JObj(fields);
    var risks := Get(json, "risks");
    var d := Draft(OrElse(Get(json, "summary"), JStr(AuditDefaultText)),
                   if PropTruthy(risks) && risks.value.JArr? then risks.value.items else [],
                   OrElse(Get(json, "recommendBlur"), JBool(false)),
                   JBool(false));
    assert FromJson(PRIVACY, text, parse) == d;
    assert Respond(PRIVACY, text, parse) == Finish(d);
  }

  /**
   * A structured reply that does not parse, or parses to `null`, gives the
   * parse-error report; that text has no danger keyword, so it scores 95.
   */
  lemma ParseFailureReport(mode: Mode, text: string, parse: string -> Option<Json>)
    requires Structured(mode)
    requires parse(text) == None || parse(text) == Some(JNull)
    ensures Respond(mode, text, parse) ==
      AnalysisResult(ParseErrorText, [], 95, Some([]), Some(JBool(false)), Some(JBool(false)))
  {
    assert FromJson(mode, text, parse) == ParseFailed;
    ParseFailedFinish();
  }

  lemma ParseFailedFinish()
    ensures Finish(ParseFailed) ==
      AnalysisResult(ParseErrorText, [], 95, Some([]), Some(JBool(false)), Some(JBool(false)))
  {
    assert forall j :: 0 <= j < |ParseErrorText| ==> !Plates.InClass(ParseErrorText[j], Plates.Digit);
    Plates.NoDigitNoCandidate(ParseErrorText);
    ParseErrorTextIsSafe();
    assert Dedup(LowerAll(Strings([]))) == [];
  }

  /** A keyword that has a character the text lacks does not occur in it. */
  lemma IncludesNeedsChars(s: string, k: string)
    ensures Includes(s, k) ==> forall j :: 0 <= j < |k| ==> k[j] in s
  {
    if Includes(s, k) {
      var i :| OccursAt(s, k, i);
      forall j | 0 <= j < |k| ensures k[j] in s {
        assert k[j] == s[i..i + |k|][j] == s[i + j];
      }
    }
  }

  /** Every danger keyword has one of the letters f, c, w, b, u, k: a text with none of them, in either case, is not dangerous. */
  lemma SafeWithoutKeywordLetters(text: string)
    requires forall j :: 0 <= j < |text| ==> text[j] !in "fFcCwWbBuUkK"
    ensures !IsDangerous(text)
  {
    var t := Lower(text);
    assert forall j :: 0 <= j < |t| ==> t[j] !in "fcwbuk";
    // For each keyword, the position of a letter that the lower-cased text lacks.
    var at := [0, 1, 0, 0, 0, 0, 2, 1, 0];
    forall n | 0 <= n < |DangerKeywords| ensures !Includes(t, DangerKeywords[n]) {
      IncludesNeedsChars(t, DangerKeywords[n]);
      assert DangerKeywords[n][at[n]] in "fcwbuk";
    }
  }

  lemma ParseErrorTextIsSafe()
    ensures !IsDangerous(ParseErrorText)
  {
    assert forall j :: 0 <= j < |ParseErrorText| ==> ParseErrorText[j] !in "fFcCwWbBuUkK";
    SafeWithoutKeywordLetters(ParseErrorText);
  }

  /**
   * The frame analysis does not strip Markdown fences before `JSON.parse`: a
   * fenced structured reply, which `JSON.parse` rejects, gives the parse-error report.
   */
  lemma FencedReplyIsNotCleaned(mode: Mode, text: string, parse: string -> Option<Json>)
    requires Structured(mode)
    requires |text| >= 3 && text[..3] == Fence
    requires forall t :: |t| > 0 && t[0] == '`' ==> parse(t) == None
    ensures Respond(mode, text, parse).text == ParseErrorText
  {
    assert text[0] == '`';
    ParseFailureReport(mode, text, parse);
  }

  // The legacy privacy wrapper.

  datatype PrivacyAdvice = PrivacyAdvice(recommended: Json, reason: string)

  /** `analyzePrivacy(image)`: one frame in PRIVACY mode; `recommended` is `privacyRecommendation || false`. */
  function AnalyzePrivacy(frame: string, model: Request -> Reply, parse: string -> Option<Json>): (a: PrivacyAdvice)
    ensures a.reason == AnalyzeFrame([frame], PRIVACY, None, model, parse).text
  {
    var r := AnalyzeFrame([frame], PRIVACY, None, model, parse);
    PrivacyAdvice(if r.privacyRecommendation.Some? && Truthy(r.privacyRecommendation.value)
                  then r.privacyRecommendation.value else JBool(false), r.text)
  }

  /** A blur is recommended only when the model replied with an object whose `recommendBlur` is truthy. */
  lemma PrivacyAdviceFromAudit(frame: string, model: Request -> Reply, parse: string -> Option<Json>)
    ensures var a := AnalyzePrivacy(frame, model, parse);
      var reply := model(BuildRequest([frame], PRIVACY, None));
      Truthy(a.recommended) ==>
        && reply.Replied?
        && var text := if reply.text.Some? then reply.text.value else "";
           && parse(text).Some? && parse(text).value.JObj?
           && PropTruthy(Get(parse(text).value, "recommendBlur"))
    ensures var a := AnalyzePrivacy(frame, model, parse);
      !Truthy(a.recommended) ==> a.recommended == JBool(false)
  {
  }

  // The location check.

  datatype LocationQuery = LocationQuery(name: string, lat: real, lng: real)

  const ParseFailureSummary := "Verification result parsing failed."
  const ConnectivitySummary := "Could not verify location connectivity."

  /** `{ verified, summary }` */
  function Verdict(verified: bool, summary: string): Json {
    JObj(map["verified" := JBool(verified), "summary" := JStr(summary)])
  }

  function FirstIndexOf(s: string, c: char): (r: Option<nat>)
    ensures r.Some? ==> r.value < |s| && s[r.value] == c && forall j :: 0 <= j < r.value ==> s[j] != c
    ensures r.None? ==> forall j :: 0 <= j < |s| ==> s[j] != c
  {
    if s == [] then None
    else if s[0] == c then Some(0)
    else match FirstIndexOf(s[1..], c)
      case None => None
      case Some(i) => Some(i + 1)
  }

  function LastIndexOf(s: string, c: char): (r: Option<nat>)
    ensures r.Some? ==> r.value < |s| && s[r.value] == c && forall j :: r.value < j < |s| ==> s[j] != c
    ensures r.None? ==> forall j :: 0 <= j < |s| ==> s[j] != c
  {
    if s == [] then None
    else if s[|s| - 1] == c then Some(|s| - 1)
    else LastIndexOf(s[..|s| - 1], c)
  }

  /**
   * `text.match(/\{[\s\S]*\}/)`: the leftmost `{` that has a `}` after it,
   * up to the last `}`; as the first `{` has a `}` after it whenever any
   * `{` does, the match runs from the first `{` to the last `}`.
   */
  function BraceSpan(s: string): (r: Option<(nat, nat)>)
    ensures r.Some? ==> r.value.0 < r.value.1 < |s| && s[r.value.0] == '{' && s[r.value.1] == '}'
    ensures r.Some? ==> forall j :: 0 <= j < r.value.0 ==> s[j] != '{'
    ensures r.Some? ==> forall j :: r.value.1 < j < |s| ==> s[j] != '}'
    ensures r.None? ==> forall i, j :: 0 <= i < j < |s| && s[i] == '{' ==> s[j] != '}'
  {
    match (FirstIndexOf(s, '{'), LastIndexOf(s, '}'))
    case (Some(i), Some(j)) => if i < j then Some((i, j)) else None
    case _ => None
  }

  /** `raw.replace(/```json/g, '').replace(/```/g, '').trim()` */
  function StripFences(raw: string): string {
    Trim(RemoveAll(RemoveAll(raw, "```json"), Fence))
  }

  /** After stripping, the reply holds no fence and has no whitespace at either end. */
  lemma StrippedReplyShape(raw: string)
    ensures var t := StripFences(raw);
      && !Includes(t, Fence)
      && (t != [] ==> !IsSpace(t[0]) && !IsSpace(t[|t| - 1]))
  {
    var w := RemoveAll(raw, "```json");
    var v := RemoveAll(w, Fence);
    assert StripFences(raw) == Trim(v);
    RemoveFenceLeavesNoFence(w);
    TrimKeepsAbsence(v, Fence);
  }

  /** The brace span of `u` when there is one, else `u` itself. */
  function CutToBraces(u: string): (r: string)
    ensures |r| <= |u|
  {
    match BraceSpan(u)
    case Some((i, j)) => u[i..j + 1]
    case None => u
  }

  /** Fences removed, whitespace trimmed, then cut down to the brace span when there is one. */
  function CleanLocationReply(raw: string): string {
    CutToBraces(StripFences(raw))
  }

  /** `verifyLocationContext(name, lat, lng)`: whatever `JSON.parse` gives for the cleaned reply, or a negative verdict. */
  function VerifyLocationContext(name: string, lat: real, lng: real,
                                 ask: LocationQuery -> Reply, parse: string -> Option<Json>): (v: Json)
    ensures ask(LocationQuery(name, lat, lng)).CallFailed? ==> v == Verdict(false, ConnectivitySummary)
    ensures var reply := ask(LocationQuery(name, lat, lng));
      reply.Replied? && parse(CleanLocationReply(if reply.text.Some? && reply.text.value != [] then reply.text.value else "{}")) == None
      ==> v == Verdict(false, ParseFailureSummary)
    ensures var reply := ask(LocationQuery(name, lat, lng));
      var cleaned := CleanLocationReply(if reply.Replied? && reply.text.Some? && reply.text.value != [] then reply.text.value else "{}");
      reply.Replied? && parse(cleaned).Some? ==> v == parse(cleaned).value
  {
    match ask(LocationQuery(name, lat, lng))
    case CallFailed => Verdict(false, ConnectivitySummary)
    case Replied(t) =>
      var raw := if t.Some? && t.value != [] then t.value else "{}";
      match parse(CleanLocationReply(raw))
      case Some(json) => json
      case None => Verdict(false, ParseFailureSummary)
  }

  /** A slice of a text holds no occurrence the text does not. */
  lemma IncludesSlice(s: string, a: nat, b: nat, k: string)
    requires a <= b <= |s|
    ensures Includes(s[a..b], k) ==> Includes(s, k)
  {
    if Includes(s[a..b], k) {
      var i :| OccursAt(s[a..b], k, i);
      forall j | 0 <= j < |k| ensures s[a + i + j] == k[j] {
        assert s[a..b][i..i + |k|][j] == k[j];
      }
      assert s[a + i..a + i + |k|] == k;
      assert OccursAt(s, k, a + i);
    }
  }

  /** The text handed to `JSON.parse` by the location check never holds a Markdown fence. */
  lemma CleanedReplyHasNoFence(raw: string)
    ensures !Includes(CleanLocationReply(raw), Fence)
  {
    StrippedReplyShape(raw);
    CutKeepsAbsence(StripFences(raw), Fence);
  }

  lemma TrimKeepsAbsence(v: string, k: string)
    ensures Includes(Trim(v), k) ==> Includes(v, k)
  {
    var n := LeadingSpaces(v);
    var t := v[n..];
    var u := t[..|t| - TrailingSpaces(t)];
    assert Trim(v) == u;
    assert v[n..|v|] == t;
    assert t[0..|u|] == u;
    IncludesSlice(v, n, |v|, k);
    IncludesSlice(t, 0, |u|, k);
  }

  lemma CutKeepsAbsence(u: string, k: string)
    ensures Includes(CutToBraces(u), k) ==> Includes(u, k)
  {
    match BraceSpan(u)
    case Some((i, j)) => IncludesSlice(u, i, j + 1, k);
    case None =>
  }

  /** A stripped reply holding a `{` before a `}` is cut to run from `{` to `}`; any other is kept whole. */
  lemma CutToBracesShape(u: string)
    ensures (exists i, j :: 0 <= i < j < |u| && u[i] == '{' && u[j] == '}') ==>
      var r := CutToBraces(u);
      r != [] && r[0] == '{' && r[|r| - 1] == '}'
    ensures !(exists i, j :: 0 <= i < j < |u| && u[i] == '{' && u[j] == '}') ==> CutToBraces(u) == u
  {
    match BraceSpan(u) {
      case Some((i, j)) =>
        var r := u[i..j + 1];
        assert r[0] == u[i] && r[|r| - 1] == u[j];
      case None =>
    }
  }

  /** A reply without text is read as `"{}"`, which is what the parser sees. */
  lemma MissingReplyIsEmptyObject(name: string, lat: real, lng: real,
                                  ask: LocationQuery -> Reply, parse: string -> Option<Json>)
    requires ask(LocationQuery(name, lat, lng)) == Replied(None)
    ensures VerifyLocationContext(name, lat, lng, ask, parse) ==
      if parse("{}").Some? then parse("{}").value else Verdict(false, ParseFailureSummary)
  {
    EmptyObjectIsClean();
  }

  lemma EmptyObjectIsClean()
    ensures CleanLocationReply("{}") == "{}"
  {
    var e := "{}";
    EmptyObjectStrips();
    EmptyObjectSpan();
    assert e[0..2] == e;
  }

  /** `"{}"` has no fence and no surrounding whitespace. */
  lemma EmptyObjectStrips()
    ensures StripFences("{}") == "{}"
  {
    var e := "{}";
    assert RemoveAll(e, "```json") == e;
    assert RemoveAll(e, Fence) == e;
    assert LeadingSpaces(e) == 0 && TrailingSpaces(e) == 0 by {
      assert !IsSpace(e[0]) && !IsSpace(e[1]);
    }
    assert e[0..] == e && e[..2] == e;
  }

  /** In `"{}"` the brace span is the whole text. */
  lemma EmptyObjectSpan()
    ensures BraceSpan("{}") == Some((0, 1))
  {
    var e := "{}";
    assert FirstIndexOf(e, '{') == Some(0);
    assert LastIndexOf(e, '}') == Some(1);
  }

  /** A value other than the two verdicts came from parsing a fence-free reply. */
  lemma LocationVerdictSources(name: string, lat: real, lng: real,
                               ask: LocationQuery -> Reply, parse: string -> Option<Json>)
    ensures var v := VerifyLocationContext(name, lat, lng, ask, parse);
      v != Verdict(false, ConnectivitySummary) && v != Verdict(false, ParseFailureSummary) ==>
        && ask(LocationQuery(name, lat, lng)).Replied?
        && var t := ask(LocationQuery(name, lat, lng)).text;
           var cleaned := CleanLocationReply(if t.Some? && t.value != [] then t.value else "{}");
           parse(cleaned) == Some(v) && !Includes(cleaned, Fence)
  {
    var q := LocationQuery(name, lat, lng);
    if ask(q).Replied? {
      var t := ask(q).text;
      CleanedReplyHasNoFence(if t.Some? && t.value != [] then t.value else "{}");
    }
  }
}
