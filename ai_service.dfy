/**
 * The extraction coordinator of the service (src/services/aiService.js): the request
 * it sends to the extraction model and the sanitise/parse/fallback pipeline applied
 * to the model's answer.
 *
 * Foreign pieces are parameters: `JSON.parse` is `parse` (None for a thrown
 * SyntaxError), the Gemini call is `generate` (None for a rejected call), the base64
 * file read is `readBase64` (None for a thrown read error), and the formatted parts
 * of the current instant are `nowParts`; the two environment variables are inputs.
 */
module AiService {
  import opened Wrappers
  import opened Text
  import opened PromptComposer

  // ---------------------------------------------------------------------------
  // Results

  const ClarificationStatus: string := "needs clarification"
  const AmbiguousMessage: string := "Ambiguous date/time or department"

  /** The clarification record `{ status, message, raw_text }`. */
  datatype Clarification = Clarification(status: string, message: string, rawText: string)

  /** A JSON value as `JSON.parse` produces it (numbers as mathematical reals). */
  datatype Json =
    | JNull
    | JBool(b: bool)
    | JNumber(n: real)
    | JString(s: string)
    | JArray(items: seq<Json>)
    | JObject(members: seq<(string, Json)>)

  /** What `parseModelJson` returns: the parsed value itself, or the clarification record. */
  datatype Reply = PassThrough(value: Json) | Clarify(record: Clarification)

  /** JavaScript truthiness of an optional string: present and non-empty. */
  predicate Truthy(o: Option<string>) {
    o.Some? && o.value != ""
  }

  /** `o || d` for an optional string. */
  function OrElse(o: Option<string>, d: string): (r: string)
    ensures Truthy(o) ==> r == o.value
    ensures !Truthy(o) ==> r == d
  {
    if Truthy(o) then o.value else d
  }

  /** `buildNeedsClarification(rawText)` of the service: the fixed ambiguity record. */
  function BuildNeedsClarification(rawText: Option<string>): (c: Clarification)
    ensures c.status == "needs clarification"
    ensures c.message == "Ambiguous date/time or department"
    ensures c.rawText == rawText.GetOr("")
  {
    Clarification(ClarificationStatus, AmbiguousMessage, OrElse(rawText, ""))
  }

  /** The instruction names the exact status and message of the clarification record above. */
  lemma PromptAgreesWithClarification()
    ensures FixedSentences[4] == "If the input is ambiguous or missing critical info, return status '" + ClarificationStatus + "'"
    ensures FixedSentences[5] == "with message '" + AmbiguousMessage + "'."
  {
  }

  // ---------------------------------------------------------------------------
  // Sanitising the model's answer

  const Fence: string := "```"

  predicate StartsWithFence(t: string) {
    |t| >= 3 && t[..3] == Fence
  }

  predicate EndsWithFence(t: string) {
    |t| >= 3 && t[|t| - 3..] == Fence
  }

  /** A four-character language tag that reads "json" in any letter case. */
  predicate IsJsonTag(tag: string) {
    |tag| == 4 && AsciiLower(tag[0]) == 'j' && AsciiLower(tag[1]) == 's'
    && AsciiLower(tag[2]) == 'o' && AsciiLower(tag[3]) == 'n'
  }

  /** The text matches `/^```json/i`. */
  predicate StartsWithJsonFence(t: string) {
    |t| >= 7 && t[..3] == Fence && IsJsonTag(t[3..7])
  }

  /** The case-insensitive replacement of `^```json\s*` by "": the tagged opening fence and the white space after it. */
  function StripJsonFence(t: string): (r: string)
    ensures |r| <= |t| && r == t[|t| - |r|..]
  {
    if StartsWithJsonFence(t) then TrimStart(t[7..]) else t
  }

  /** `.replace(/^```/i, "")`. */
  function StripOpeningFence(t: string): (r: string)
    ensures |r| <= |t| && r == t[|t| - |r|..]
  {
    if StartsWithFence(t) then t[3..] else t
  }

  /** `.replace(/```$/i, "")`. */
  function StripClosingFence(t: string): (r: string)
    ensures |r| <= |t| && r == t[..|r|]
  {
    if EndsWithFence(t) then t[..|t| - 3] else t
  }

  /** The three fence-removing replacements, in the order `cleanJsonText` applies them. */
  function Unfence(t: string): string {
    StripClosingFence(StripOpeningFence(StripJsonFence(t)))
  }

  /**
   * `cleanJsonText(text)`: trim; drop a leading "```json" (any case) with the white space
   * after it, then a leading "```", then a trailing "```"; trim again.
   */
  function CleanJsonText(text: string): (r: string)
    ensures text == [] ==> r == []
    ensures Trimmed(r)
    ensures |r| <= |text|
  {
    if text == [] then [] else Trim(Unfence(Trim(text)))
  }

  /** A text made only of white space cleans to the empty string. */
  lemma CleanBlank(text: string)
    requires AllWhitespace(text)
    ensures CleanJsonText(text) == []
  {
    TrimEmptyIff(text);
  }

  /** The fence-stripping steps keep a contiguous window of their argument. */
  lemma UnfenceWindow(t: string) returns (i: nat, j: nat)
    ensures i <= j <= |t| && Unfence(t) == t[i..j]
  {
    var t2 := StripJsonFence(t);
    var t3 := StripOpeningFence(t2);
    i, j := SuffixSuffixPrefix(t, t2, t3, StripClosingFence(t3));
  }

  /** Cleaning only removes characters: the result is a contiguous piece of the input. */
  lemma CleanIsInfix(text: string) returns (i: nat, j: nat)
    ensures i <= j <= |text| && CleanJsonText(text) == text[i..j]
  {
    if text == [] {
      i, j := 0, 0;
    } else {
      var a0, b0 := TrimWindow(text);
      var a1, b1 := UnfenceWindow(Trim(text));
      var a2, b2 := TrimWindow(Unfence(Trim(text)));
      var c, d := WindowOfWindow(text, Trim(text), a0, b0, a1, b1);
      i, j := WindowOfWindow(text, Unfence(Trim(text)), c, d, a2, b2);
    }
  }

  /** A window of a window is a window; used twice by `CleanIsInfix`. */
  lemma WindowOfWindow(s: string, t: string, a: nat, b: nat, c: nat, d: nat) returns (i: nat, j: nat)
    requires a <= b <= |s| && t == s[a..b] && c <= d <= |t|
    ensures i <= j <= |s| && t[c..d] == s[i..j] && i == a + c && j == a + d
  {
    SliceOfSlice(s, a, b, c, d);
    i, j := a + c, a + d;
  }

  // ---------------------------------------------------------------------------
  // Fences are transparent

  /** The opening-fence forms the sanitiser is meant for: "```" or "```json" in any case. */
  predicate OpeningTag(tag: string) {
    tag == [] || IsJsonTag(tag)
  }

  /** A non-empty run of white space, such as the newline after a fence. */
  predicate Gap(w: string) {
    w != [] && AllWhitespace(w)
  }

  /** Text that does not itself begin or end with three backticks. */
  predicate Unfenced(x: string) {
    !StartsWithFence(x) && !EndsWithFence(x)
  }

  /** White space right after a prefix shorter than a fence keeps the fence from matching. */
  lemma GapBlocksOpening(a: string, w: string, b: string)
    requires Gap(w)
    ensures StartsWithFence(a + w + b) ==> StartsWithFence(a)
  {
    if |a| >= 3 {
      assert (a + w + b)[..3] == a[..3];
    } else {
      assert (a + w + b)[|a|] == w[0];
    }
  }

  /** White space right before a suffix shorter than a fence keeps the fence from matching. */
  lemma GapBlocksClosing(b: string, w: string, a: string)
    requires Gap(w)
    ensures EndsWithFence(b + w + a) ==> EndsWithFence(a)
  {
    var t := b + w + a;
    if |a| >= 3 {
      assert t[|t| - 3..] == a[|a| - 3..];
    } else if |t| >= 3 {
      assert t[|t| - 1 - |a|] == w[|w| - 1];
      assert t[|t| - 3..][2 - |a|] == t[|t| - 1 - |a|];
    }
  }

  /** An opening fence followed by white space is never the tagged fence. */
  lemma UntaggedIsNotJson(w: string, y: string)
    requires Gap(w)
    ensures !StartsWithJsonFence(Fence + w + y)
  {
    var t := Fence + w + y;
    if |t| >= 7 {
      assert t[3] == w[0];
      assert t[3..7][0] == w[0];
    }
  }

  /** Unfenced text passes the fence-stripping steps untouched. */
  lemma StripsKeep(x: string)
    requires Unfenced(x)
    ensures Unfence(x) == x
  {
  }

  /** Plain text: cleaning is just trimming. */
  lemma CleanPlain(s: string)
    requires Unfenced(Trim(s))
    ensures CleanJsonText(s) == Trim(s)
  {
    if s != [] {
      StripsKeep(Trim(s));
      TrimIdempotent(s);
    }
  }

  /** A bare fence is removed entirely. */
  lemma UnfenceBare()
    ensures Unfence(Fence) == []
  {
  }

  /** An opening fence, bare or tagged, with nothing after it is removed entirely. */
  lemma UnfenceHeadOnly(tag: string)
    requires OpeningTag(tag)
    ensures Unfence(Fence + tag) == []
  {
    var t := Fence + tag;
    if tag == [] {
      assert t == Fence;
    } else {
      assert t[..3] == Fence && t[3..7] == tag && t[7..] == [];
    }
  }

  /** An opening fence, bare or tagged, is trimmed. */
  lemma HeadTrimmed(tag: string)
    requires OpeningTag(tag)
    ensures Trimmed(Fence + tag)
  {
    var t := Fence + tag;
    if tag == [] {
      assert t == Fence;
    } else {
      assert t[0] == '`' && t[|t| - 1] == tag[3];
    }
  }

  /** A string beginning and ending with a backtick is trimmed. */
  lemma FencedTrimmed(tag: string, u: string)
    ensures Trim(Fence + tag + u + Fence) == Fence + tag + u + Fence
  {
    var t := Fence + tag + u + Fence;
    assert t[0] == '`' && t[|t| - 1] == '`';
    TrimKeeps(t);
  }

  /** Text ending in a closing fence, after the gap before it, loses only the fence. */
  lemma OpenKeepsClose(x: string, g: string)
    requires Gap(g) && Unfenced(x)
    ensures StripClosingFence(StripOpeningFence(x + g + Fence)) == x + g
  {
    var z := x + g + Fence;
    GapBlocksOpening(x, g, Fence);
    assert z[|z| - 3..] == Fence;
    assert z[..|z| - 3] == x + g;
  }

  /** What the tagged fence's replacement leaves, "text, white space, fence", cleans to the text. */
  lemma AfterTag(x: string, g: string)
    requires Gap(g) && Trimmed(x) && Unfenced(x)
    ensures Trim(StripClosingFence(StripOpeningFence(TrimStart(x + g + Fence)))) == x
  {
    if x == [] {
      assert x + g + Fence == g + Fence;
      TrimStartAt(g, Fence);
    } else {
      assert [] + (x + g + Fence) == x + g + Fence;
      TrimStartAt([], x + g + Fence);
      OpenKeepsClose(x, g);
      TrimTrailing(x, g);
    }
  }

  /** Both fences, untagged: the fence-stripping steps leave exactly the text between. */
  lemma UnfenceUntagged(g1: string, x: string, g2: string)
    requires Gap(g1)
    ensures Unfence(Fence + [] + (g1 + x + g2) + Fence) == g1 + x + g2
  {
    var t := Fence + [] + (g1 + x + g2) + Fence;
    assert t == Fence + g1 + (x + g2 + Fence);
    UntaggedIsNotJson(g1, x + g2 + Fence);
    assert t[..3] == Fence && t[3..] == g1 + x + g2 + Fence;
    var u := g1 + x + g2 + Fence;
    assert u[|u| - 3..] == Fence && u[..|u| - 3] == g1 + x + g2;
  }

  /** Both fences, tagged: the tagged fence goes together with all the white space after it. */
  lemma UnfenceTagged(tag: string, g1: string, x: string, g2: string)
    requires IsJsonTag(tag) && AllWhitespace(g1)
    ensures Unfence(Fence + tag + (g1 + x + g2) + Fence)
         == StripClosingFence(StripOpeningFence(TrimStart(x + g2 + Fence)))
  {
    TaggedSplit(tag, g1, x, g2);
    TrimStartSkips(g1, x + g2 + Fence);
  }

  /** The slices of a tagged two-fence text. */
  lemma TaggedSplit(tag: string, g1: string, x: string, g2: string)
    requires |tag| == 4
    ensures var t := Fence + tag + (g1 + x + g2) + Fence;
      |t| >= 7 && t[..3] == Fence && t[3..7] == tag && t[7..] == g1 + (x + g2 + Fence)
  {
  }

  /** The two-fence case, untagged, on the pieces of the trimmed text. */
  lemma CleanBothUntagged(g1: string, x: string, g2: string)
    requires Gap(g1) && Gap(g2) && Trimmed(x)
    ensures CleanJsonText(Fence + [] + (g1 + x + g2) + Fence) == x
  {
    var t := Fence + [] + (g1 + x + g2) + Fence;
    FencedTrimmed([], g1 + x + g2);
    UnfenceUntagged(g1, x, g2);
    TrimPadded(g1, x, g2);
  }

  /** The two-fence case, tagged, on the pieces of the trimmed text. */
  lemma CleanBothTagged(tag: string, g1: string, x: string, g2: string)
    requires IsJsonTag(tag) && Gap(g1) && Gap(g2) && Trimmed(x) && Unfenced(x)
    ensures CleanJsonText(Fence + tag + (g1 + x + g2) + Fence) == x
  {
    var t := Fence + tag + (g1 + x + g2) + Fence;
    FencedTrimmed(tag, g1 + x + g2);
    UnfenceTagged(tag, g1, x, g2);
    AfterTag(x, g2);
  }

  /** The two-fence case on the pieces of the trimmed text. */
  lemma CleanBothCore(tag: string, g1: string, x: string, g2: string)
    requires OpeningTag(tag) && Gap(g1) && Gap(g2) && Trimmed(x) && Unfenced(x)
    ensures CleanJsonText(Fence + tag + (g1 + x + g2) + Fence) == x
  {
    if tag == [] {
      CleanBothUntagged(g1, x, g2);
    } else {
      CleanBothTagged(tag, g1, x, g2);
    }
  }

  /** Fences at both ends: "```" or "```json" (any case), white space, the text, white space, "```". */
  lemma CleanBothFences(tag: string, w1: string, s: string, w2: string)
    requires OpeningTag(tag) && Gap(w1) && Gap(w2) && Unfenced(Trim(s))
    ensures CleanJsonText(Fence + tag + w1 + s + w2 + Fence) == Trim(s)
  {
    var x := Trim(s);
    var l, r := TrimShape(s);
    AllWhitespaceAppend(w1, l);
    AllWhitespaceAppend(r, w2);
    SplitAround(Fence + tag, w1, s, w2, Fence, l, x, r);
    CleanBothCore(tag, w1 + l, x, r + w2);
  }

  /** After an untagged opening fence and its gap, with no closing fence, only the fence goes. */
  lemma UnfenceOpeningUntagged(g: string, x: string)
    requires Gap(g) && Unfenced(x)
    ensures Unfence(Fence + [] + (g + x)) == g + x
  {
    var t := Fence + [] + (g + x);
    assert t == Fence + g + x;
    UntaggedIsNotJson(g, x);
    assert t[..3] == Fence && t[3..] == g + x;
    GapBlocksClosing([], g, x);
    assert [] + g + x == g + x;
  }

  /** After a tagged opening fence, the white space goes with it. */
  lemma UnfenceOpeningTagged(tag: string, g: string, x: string)
    requires IsJsonTag(tag) && AllWhitespace(g) && Unfenced(x) && (x == [] || !IsWhitespace(x[0]))
    ensures Unfence(Fence + tag + (g + x)) == x
  {
    var t := Fence + tag + (g + x);
    assert t[..3] == Fence && t[3..7] == tag && t[7..] == g + x;
    TrimStartAt(g, x);
  }

  /** The opening-fence case with nothing but white space after the fence. */
  lemma CleanOpeningBlank(tag: string, g: string, r: string)
    requires OpeningTag(tag) && Gap(g) && AllWhitespace(r)
    ensures CleanJsonText(Fence + tag + (g + [] + r)) == []
  {
    HeadTrimmed(tag);
    AllWhitespaceAppend(g, r);
    assert Fence + tag + (g + [] + r) == [] + (Fence + tag) + (g + r);
    TrimPadded([], Fence + tag, g + r);
    UnfenceHeadOnly(tag);
  }

  /** The opening-fence case with a non-empty text after the fence. */
  lemma CleanOpeningText(tag: string, g: string, x: string, r: string)
    requires OpeningTag(tag) && Gap(g) && AllWhitespace(r) && Trimmed(x) && Unfenced(x) && x != []
    ensures CleanJsonText(Fence + tag + (g + x + r)) == x
  {
    var core := Fence + tag + (g + x);
    assert Fence + tag + (g + x + r) == [] + core + r;
    assert core[0] == '`' && core[|core| - 1] == x[|x| - 1];
    TrimPadded([], core, r);
    if tag == [] {
      UnfenceOpeningUntagged(g, x);
      TrimAbsorbs(g, x, []);
      assert g + x + [] == g + x;
    } else {
      UnfenceOpeningTagged(tag, g, x);
    }
    TrimKeeps(x);
  }

  /** The opening-fence case on the pieces of the trimmed text. */
  lemma CleanOpeningCore(tag: string, g: string, x: string, r: string)
    requires OpeningTag(tag) && Gap(g) && AllWhitespace(r) && Trimmed(x) && Unfenced(x)
    ensures CleanJsonText(Fence + tag + (g + x + r)) == x
  {
    if x == [] {
      CleanOpeningBlank(tag, g, r);
    } else {
      CleanOpeningText(tag, g, x, r);
    }
  }

  /** A fence at the start only: "```" or "```json" (any case), white space, the text. */
  lemma CleanOpeningFenceOnly(tag: string, w1: string, s: string)
    requires OpeningTag(tag) && Gap(w1) && Unfenced(Trim(s))
    ensures CleanJsonText(Fence + tag + w1 + s) == Trim(s)
  {
    var x := Trim(s);
    var l, r := TrimShape(s);
    AllWhitespaceAppend(w1, l);
    SplitAfterHead(Fence + tag, w1, s, l, x, r);
    CleanOpeningCore(tag, w1 + l, x, r);
  }

  /** The closing-fence case on the pieces of the trimmed text. */
  lemma CleanClosingCore(l: string, x: string, g: string)
    requires AllWhitespace(l) && Gap(g) && Trimmed(x) && Unfenced(x)
    ensures CleanJsonText(l + (x + g + Fence)) == x
  {
    if x == [] {
      AllWhitespaceAppend(l, g);
      assert l + (x + g + Fence) == (l + g) + Fence + [];
      assert Trimmed(Fence);
      TrimPadded(l + g, Fence, []);
      UnfenceBare();
    } else {
      var core := x + g + Fence;
      assert l + core == l + core + [];
      assert core[0] == x[0] && core[|core| - 1] == '`';
      TrimPadded(l, core, []);
      GapBlocksOpening(x, g, Fence);
      assert StripJsonFence(core) == core;
      OpenKeepsClose(x, g);
      TrimTrailing(x, g);
    }
  }

  /** A fence at the end only: the text, white space, "```". */
  lemma CleanClosingFenceOnly(s: string, w2: string)
    requires Gap(w2) && Unfenced(Trim(s))
    ensures CleanJsonText(s + w2 + Fence) == Trim(s)
  {
    var x := Trim(s);
    var l, r := TrimShape(s);
    AllWhitespaceAppend(r, w2);
    SplitBeforeTail(s, w2, Fence, l, x, r);
    CleanClosingCore(l, x, r + w2);
  }

  // ---------------------------------------------------------------------------
  // Parsing with fallback

  /**
   * `parseModelJson(text, rawTextFallback)`: the parsed value of the cleaned text, whatever
   * its shape, or the clarification record when the cleaned text is empty or does not parse.
   */
  function ParseModelJson(text: string, fallback: string, parse: string -> Option<Json>): (r: Reply)
    ensures r.PassThrough? <==> CleanJsonText(text) != [] && parse(CleanJsonText(text)).Some?
    ensures r.PassThrough? ==> r.value == parse(CleanJsonText(text)).value
    ensures r.Clarify? ==> r.record == BuildNeedsClarification(Some(fallback))
  {
    var cleaned := CleanJsonText(text);
    if cleaned == [] then Clarify(BuildNeedsClarification(Some(fallback)))
    else match parse(cleaned)
      case Some(v) => PassThrough(v)
      case None => Clarify(BuildNeedsClarification(Some(fallback)))
  }

  /** An answer with nothing but white space gets the clarification record, whatever the parser does. */
  lemma ParseBlank(text: string, fallback: string, parse: string -> Option<Json>)
    requires AllWhitespace(text)
    ensures ParseModelJson(text, fallback, parse)
         == Clarify(Clarification("needs clarification", "Ambiguous date/time or department", fallback))
  {
    CleanBlank(text);
  }

  /** A fenced answer parses as the text inside the fences, for each of the three fence forms. */
  lemma ParseIgnoresFences(tag: string, w1: string, s: string, w2: string, fallback: string, parse: string -> Option<Json>)
    requires OpeningTag(tag) && Gap(w1) && Gap(w2) && Unfenced(Trim(s))
    ensures ParseModelJson(Fence + tag + w1 + s + w2 + Fence, fallback, parse) == ParseModelJson(s, fallback, parse)
    ensures ParseModelJson(Fence + tag + w1 + s, fallback, parse) == ParseModelJson(s, fallback, parse)
    ensures ParseModelJson(s + w2 + Fence, fallback, parse) == ParseModelJson(s, fallback, parse)
  {
    CleanPlain(s);
    CleanBothFences(tag, w1, s, w2);
    SameCleanSameReply(Fence + tag + w1 + s + w2 + Fence, s, fallback, parse);
    CleanOpeningFenceOnly(tag, w1, s);
    SameCleanSameReply(Fence + tag + w1 + s, s, fallback, parse);
    CleanClosingFenceOnly(s, w2);
    SameCleanSameReply(s + w2 + Fence, s, fallback, parse);
  }

  /** `parseModelJson` sees its argument only through the cleaned text; used by `ParseIgnoresFences`. */
  lemma SameCleanSameReply(a: string, b: string, fallback: string, parse: string -> Option<Json>)
    requires CleanJsonText(a) == CleanJsonText(b)
    ensures ParseModelJson(a, fallback, parse) == ParseModelJson(b, fallback, parse)
  {
  }

  // ---------------------------------------------------------------------------
  // The extraction request

  const MissingKeyMessage: string := "GEMINI_API_KEY is not configured"
  const DefaultModel: string := "gemini-flash-latest"
  const ImageMarker: string := "Input image contains the appointment request."
  const DefaultImageType: string := "image/png"
  const TextPrefix: string := "Input text: "

  /** A content part: a text, or base64 inline data with its MIME type. */
  datatype Part = TextPart(text: string) | InlineData(data: string, mimeType: string)

  /**
   * The request handed to the model: key, model name, system instruction, the user's parts
   * and the integral part of the generation settings.
   */
  datatype ModelRequest = ModelRequest(
    apiKey: string, model: string, systemInstruction: string, parts: seq<Part>,
    maxOutputTokens: nat, responseMimeType: string)

  /** Why `processInput` rejects: a missing key, a failed file read, or a failed model call. */
  datatype ServiceError = ConfigurationError(message: string) | ImageReadError | ExternalServiceError

  /** `MODEL_NAME`: the configured model, or the default when the variable is unset or empty. */
  function ModelName(env: Option<string>): (m: string)
    ensures Truthy(env) ==> m == env.value
    ensures !Truthy(env) ==> m == "gemini-flash-latest"
  {
    OrElse(env, DefaultModel)
  }

  /** The parts `processInput` pushes, given the text and, when an image was read, its data. */
  function ContentParts(text: Option<string>, image: Option<string>, mimeType: Option<string>): (ps: seq<Part>)
    ensures |ps| == (if Truthy(text) then 1 else 0) + (if image.Some? then 2 else 0)
    ensures Truthy(text) <==> |ps| > 0 && ps[0].TextPart? && |ps[0].text| >= 12 && ps[0].text[..12] == "Input text: "
    ensures Truthy(text) ==> ps[0] == TextPart("Input text: " + text.value)
    ensures image.Some? ==> ps[|ps| - 2] == TextPart("Input image contains the appointment request.")
    ensures image.Some? ==> ps[|ps| - 1] == InlineData(image.value, if Truthy(mimeType) then mimeType.value else "image/png")
    ensures image.None? ==> forall i :: 0 <= i < |ps| ==> ps[i].TextPart?
  {
    MarkerIsNotText();
    var withText := if Truthy(text) then [TextPart(TextPrefix + text.value)] else [];
    if image.Some? then withText + [TextPart(ImageMarker)] + [InlineData(image.value, OrElse(mimeType, DefaultImageType))]
    else withText
  }

  /** The image marker does not begin like a text part. */
  lemma MarkerIsNotText()
    ensures ImageMarker[..12] != TextPrefix
  {
    assert ImageMarker[6] == 'i' && TextPrefix[6] == 't';
    assert ImageMarker[..12][6] == ImageMarker[6];
  }

  /** The image data `processInput` reads: None when there is no path or the read fails. */
  function ImageData(imagePath: Option<string>, readBase64: string -> Option<string>): Option<string> {
    if Truthy(imagePath) then readBase64(imagePath.value) else None
  }

  /**
   * The `parts` array of `processInput`, pushed to step by step: the text part, then the
   * image marker and the inline data. A failed file read throws, which is `ImageReadError`.
   */
  method CollectParts(
    text: Option<string>, imagePath: Option<string>, mimeType: Option<string>,
    readBase64: string -> Option<string>)
    returns (result: Result<seq<Part>, ServiceError>)
    ensures Truthy(imagePath) && readBase64(imagePath.value).None? ==> result == Failure(ImageReadError)
    ensures !(Truthy(imagePath) && readBase64(imagePath.value).None?) ==>
              result == Success(ContentParts(text, ImageData(imagePath, readBase64), mimeType))
  {
    var parts: seq<Part> := [];
    if Truthy(text) {
      parts := parts + [TextPart(TextPrefix + text.value)];
    }
    assert parts == (if Truthy(text) then [TextPart(TextPrefix + text.value)] else []);
    if Truthy(imagePath) {
      var imageData := readBase64(imagePath.value);
      if imageData.None? {
        return Failure(ImageReadError);
      }
      parts := parts + [TextPart(ImageMarker)];
      parts := parts + [InlineData(imageData.value, OrElse(mimeType, DefaultImageType))];
    }
    return Success(parts);
  }

  /**
   * `processInput({ text, imagePath, mimeType })`. The API key and the model variable are the
   * two environment reads; `nowParts` is what the formatter yields for the current instant;
   * `readBase64`, `generate` and `parse` are the file read, the model call and `JSON.parse`.
   * `sent` is the request passed to the model, if one was.
   */
  method ProcessInput(
    text: Option<string>, imagePath: Option<string>, mimeType: Option<string>,
    apiKey: Option<string>, modelEnv: Option<string>, nowParts: seq<DatePart>,
    readBase64: string -> Option<string>, generate: ModelRequest -> Option<string>,
    parse: string -> Option<Json>)
    returns (r: Result<Reply, ServiceError>, sent: Option<ModelRequest>)
    ensures !Truthy(apiKey) ==> r == Failure(ConfigurationError("GEMINI_API_KEY is not configured")) && sent == None
    ensures Truthy(apiKey) && Truthy(imagePath) && readBase64(imagePath.value).None? ==>
              r == Failure(ImageReadError) && sent == None
    ensures sent.Some? <==> Truthy(apiKey) && (!Truthy(imagePath) || readBase64(imagePath.value).Some?)
    ensures sent.Some? ==> sent.value == ModelRequest(
              apiKey.value, ModelName(modelEnv), BuildSystemPrompt(IsoFromParts(nowParts)),
              ContentParts(text, ImageData(imagePath, readBase64), mimeType), 1024, "application/json")
    ensures sent.Some? && generate(sent.value).None? ==> r == Failure(ExternalServiceError)
    ensures sent.Some? && generate(sent.value).Some? ==>
              r == Success(ParseModelJson(generate(sent.value).value, OrElse(text, ""), parse))
  {
    if !Truthy(apiKey) {
      return Failure(ConfigurationError(MissingKeyMessage)), None;
    }
    var nowIso := GetKolkataIsoString(nowParts);
    var systemInstruction := BuildSystemPrompt(nowIso);
    var parts := CollectParts(text, imagePath, mimeType, readBase64);
    if parts.Failure? {
      return Failure(parts.error), None;
    }
    var request := ModelRequest(apiKey.value, ModelName(modelEnv), systemInstruction, parts.value, 1024, "application/json");
    sent := Some(request);
    var responseText := generate(request);
    if responseText.None? {
      r := Failure(ExternalServiceError);
    } else {
      r := Success(ParseModelJson(responseText.value, OrElse(text, ""), parse));
    }
  }

  /** The clarification record the service can return always echoes the caller's text, or "". */
  lemma FallbackEchoesText(resp: string, text: Option<string>, parse: string -> Option<Json>)
    ensures var reply := ParseModelJson(resp, OrElse(text, ""), parse);
      reply.Clarify? ==> reply.record.rawText == (if Truthy(text) then text.value else "")
  {
  }
}
