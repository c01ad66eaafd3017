/**
 * The prompt composer of the extraction service (src/services/aiService.js): the
 * Asia/Kolkata timestamp of the current instant and the system instruction built
 * around it. The time-zone conversion itself (`Intl.DateTimeFormat`) is not modelled:
 * its output, the list of formatted parts, is the input here.
 */
module PromptComposer {
  import opened Wrappers
  import opened Text

  // ---------------------------------------------------------------------------
  // The Asia/Kolkata timestamp

  /** One entry of `formatter.formatToParts(date)`: `{ type, value }`. */
  datatype DatePart = DatePart(kind: string, value: string)

  /** The value the `reduce` leaves under `kind`: that of the last part of that type. */
  function LastValue(parts: seq<DatePart>, kind: string): Option<string>
  {
    if parts == [] then None
    else if parts[|parts| - 1].kind == kind then Some(parts[|parts| - 1].value)
    else LastValue(parts[..|parts| - 1], kind)
  }

  /** A template-literal hole: a missing property prints as "undefined". */
  function Interpolate(v: Option<string>): string {
    match v
    case Some(s) => s
    case None => "undefined"
  }

  /** The string assembled from the folded parts. */
  function IsoFromParts(parts: seq<DatePart>): string {
    Interpolate(LastValue(parts, "year")) + "-" + Interpolate(LastValue(parts, "month")) + "-"
    + Interpolate(LastValue(parts, "day")) + "T" + Interpolate(LastValue(parts, "hour")) + ":"
    + Interpolate(LastValue(parts, "minute")) + ":" + Interpolate(LastValue(parts, "second")) + "+05:30"
  }

  function Lookup(acc: map<string, string>, kind: string): Option<string> {
    if kind in acc then Some(acc[kind]) else None
  }

  /** `getKolkataISOString`: fold the formatter's parts into an object, then assemble the timestamp. */
  method GetKolkataIsoString(parts: seq<DatePart>) returns (iso: string)
    ensures iso == IsoFromParts(parts)
  {
    var acc: map<string, string> := map[];
    var i := 0;
    while i < |parts|
      invariant 0 <= i <= |parts|
      invariant forall k :: Lookup(acc, k) == LastValue(parts[..i], k)
    {
      assert parts[..i + 1][..i] == parts[..i];
      acc := acc[parts[i].kind := parts[i].value];
      i := i + 1;
    }
    assert parts[..i] == parts;
    iso := Interpolate(Lookup(acc, "year")) + "-" + Interpolate(Lookup(acc, "month")) + "-"
      + Interpolate(Lookup(acc, "day")) + "T" + Interpolate(Lookup(acc, "hour")) + ":"
      + Interpolate(Lookup(acc, "minute")) + ":" + Interpolate(Lookup(acc, "second")) + "+05:30";
  }

  /** The padded civil fields of an instant in Asia/Kolkata. */
  datatype CivilFields = CivilFields(year: string, month: string, day: string,
                                     hour: string, minute: string, second: string)

  /** The parts the "en-CA" formatter with two-digit fields and `hourCycle: "h23"` yields. */
  function FormatterParts(f: CivilFields): seq<DatePart> {
    [ DatePart("year", f.year), DatePart("literal", "-"), DatePart("month", f.month),
      DatePart("literal", "-"), DatePart("day", f.day), DatePart("literal", ", "),
      DatePart("hour", f.hour), DatePart("literal", ":"), DatePart("minute", f.minute),
      DatePart("literal", ":"), DatePart("second", f.second) ]
  }

  /** The literal separators of the formatter are overwritten under "literal" and never reach the result. */
  lemma IsoOfFormatterParts(f: CivilFields)
    ensures IsoFromParts(FormatterParts(f))
         == f.year + "-" + f.month + "-" + f.day + "T" + f.hour + ":" + f.minute + ":" + f.second + "+05:30"
  {
    var ps := FormatterParts(f);
    assert LastValue(ps, "year") == Some(f.year) by { LastValueFound(ps, 0); }
    assert LastValue(ps, "month") == Some(f.month) by { LastValueFound(ps, 2); }
    assert LastValue(ps, "day") == Some(f.day) by { LastValueFound(ps, 4); }
    assert LastValue(ps, "hour") == Some(f.hour) by { LastValueFound(ps, 6); }
    assert LastValue(ps, "minute") == Some(f.minute) by { LastValueFound(ps, 8); }
    assert LastValue(ps, "second") == Some(f.second) by { LastValueFound(ps, 10); }
  }

  /** A part whose type no later part repeats is the one the fold keeps. */
  lemma {:induction false} LastValueFound(parts: seq<DatePart>, i: nat)
    requires i < |parts|
    requires forall j :: i < j < |parts| ==> parts[j].kind != parts[i].kind
    ensures LastValue(parts, parts[i].kind) == Some(parts[i].value)
  {
    if i < |parts| - 1 {
      var front := parts[..|parts| - 1];
      assert front[i] == parts[i];
      LastValueFound(front, i);
    }
  }

  predicate IsDigit(c: char) {
    '0' <= c <= '9'
  }

  predicate DigitField(s: string, width: nat) {
    |s| == width && forall i :: 0 <= i < |s| ==> IsDigit(s[i])
  }

  predicate Padded(f: CivilFields) {
    DigitField(f.year, 4) && DigitField(f.month, 2) && DigitField(f.day, 2)
    && DigitField(f.hour, 2) && DigitField(f.minute, 2) && DigitField(f.second, 2)
  }

  /** With padded fields the timestamp has the fixed `YYYY-MM-DDTHH:MM:SS+05:30` layout. */
  lemma IsoLayout(f: CivilFields)
    requires Padded(f)
    ensures var iso := IsoFromParts(FormatterParts(f));
      && |iso| == 25
      && iso[..4] == f.year && iso[4] == '-' && iso[5..7] == f.month && iso[7] == '-'
      && iso[8..10] == f.day && iso[10] == 'T' && iso[11..13] == f.hour && iso[13] == ':'
      && iso[14..16] == f.minute && iso[16] == ':' && iso[17..19] == f.second
      && iso[19..] == "+05:30"
  {
    IsoOfFormatterParts(f);
    FieldLayout(f.year, f.month, f.day, f.hour, f.minute, f.second);
  }

  /** Where each field lands in the assembled string, for fields of widths 4, 2, 2, 2, 2, 2. */
  lemma FieldLayout(y: string, mo: string, d: string, h: string, mi: string, s: string)
    requires |y| == 4 && |mo| == 2 && |d| == 2 && |h| == 2 && |mi| == 2 && |s| == 2
    ensures var iso := y + "-" + mo + "-" + d + "T" + h + ":" + mi + ":" + s + "+05:30";
      && |iso| == 25
      && iso[..4] == y && iso[4] == '-' && iso[5..7] == mo && iso[7] == '-'
      && iso[8..10] == d && iso[10] == 'T' && iso[11..13] == h && iso[13] == ':'
      && iso[14..16] == mi && iso[16] == ':' && iso[17..19] == s
      && iso[19..] == "+05:30"
  {
    var p1 := y + "-";
    var p2 := p1 + mo + "-";
    var p3 := p2 + d + "T";
    var p4 := p3 + h + ":";
    var p5 := p4 + mi + ":";
    var iso := p5 + s + "+05:30";
    assert iso == y + "-" + mo + "-" + d + "T" + h + ":" + mi + ":" + s + "+05:30";
    InfixAt([], y, "-" + mo + "-" + d + "T" + h + ":" + mi + ":" + s + "+05:30");
    InfixAt(p1, mo, "-" + d + "T" + h + ":" + mi + ":" + s + "+05:30");
    InfixAt(p2, d, "T" + h + ":" + mi + ":" + s + "+05:30");
    InfixAt(p3, h, ":" + mi + ":" + s + "+05:30");
    InfixAt(p4, mi, ":" + s + "+05:30");
    InfixAt(p5, s, "+05:30");
  }

  // ---------------------------------------------------------------------------
  // The system instruction

  /** Everything before the timestamp: the first sentence and the start of the second. */
  const PromptHead: string := "You are an appointment scheduler." + " " + "Today's date and time in Asia/Kolkata is "

  /** The sentences after the timestamp, in order. */
  const FixedSentences: seq<string> := [
    "Analyze the user input (text or image OCR).",
    "Extract raw text, then extract entities date_phrase, time_phrase, department.",
    "Normalize date to YYYY-MM-DD and time to HH:MM using Asia/Kolkata timezone.",
    "Normalize department to a clean title-case value (example: dentist -> Dentistry).",
    "If the input is ambiguous or missing critical info, return status '" + "needs clarification" + "'",
    "with message '" + "Ambiguous date/time or department" + "'.",
    "Return JSON only and match exactly one of the schemas:",
    "Success schema: {\"appointment\":{\"department\":\"Dentistry\",\"date\":\"YYYY-MM-DD\",\"time\":\"HH:MM\",\"tz\":\"Asia/Kolkata\",\"status\":\"ok\"},\"metadata\":{\"raw_text\":\"...\",\"confidence\":0.0}}",
    "Needs clarification schema: {\"status\":\"needs clarification\",\"message\":\"Ambiguous date/time or department\",\"raw_text\":\"...\"}",
    "Do not include any extra keys, markdown, or commentary." ]

  /** The sentences of the instruction, in order. */
  function PromptSentences(nowIso: string): seq<string> {
    ["You are an appointment scheduler.", "Today's date and time in Asia/Kolkata is " + nowIso + "."] + FixedSentences
  }

  /** Everything after the timestamp. */
  const PromptTail: string := "." + " " + Join(FixedSentences, " ")

  /**
   * `buildSystemPrompt(nowIso)`: the sentences joined by single spaces, which is a fixed head,
   * the timestamp verbatim, and a fixed tail.
   */
  function BuildSystemPrompt(nowIso: string): (r: string)
    ensures r == PromptHead + nowIso + PromptTail
  {
    JoinTwo("You are an appointment scheduler.", "Today's date and time in Asia/Kolkata is " + nowIso + ".", FixedSentences, " ");
    Regroup("You are an appointment scheduler.", " ", "Today's date and time in Asia/Kolkata is ",
            nowIso, ".", " ", Join(FixedSentences, " "));
    Join(PromptSentences(nowIso), " ")
  }

  /** Two steps of `join`: the head sentence, the timestamp sentence, then the fixed sentences. */
  lemma PromptUnfolds(nowIso: string)
    ensures BuildSystemPrompt(nowIso)
         == "You are an appointment scheduler." + " "
            + ("Today's date and time in Asia/Kolkata is " + nowIso + "." + " " + Join(FixedSentences, " "))
  {
    JoinTwo("You are an appointment scheduler.", "Today's date and time in Asia/Kolkata is " + nowIso + ".", FixedSentences, " ");
  }

  /**
   * The instruction depends on `nowIso` only through one verbatim occurrence: it is a
   * fixed head, the timestamp, and a fixed tail.
   */
  lemma PromptShape(nowIso: string)
    ensures BuildSystemPrompt(nowIso) == PromptHead + nowIso + PromptTail
    ensures |PromptHead| == 75
    ensures BuildSystemPrompt(nowIso)[75..75 + |nowIso|] == nowIso
  {
    InfixAt(PromptHead, nowIso, PromptTail);
  }

  /**
   * For a formatter run with padded fields, the instruction holds the 25-character timestamp
   * at characters 75 to 99, right after "Today's date and time in Asia/Kolkata is ".
   */
  lemma PromptCarriesTimestamp(f: CivilFields)
    requires Padded(f)
    ensures var iso := IsoFromParts(FormatterParts(f));
      var prompt := BuildSystemPrompt(iso);
      |iso| == 25 && |prompt| >= 100 && prompt[75..100] == iso
  {
    var iso := IsoFromParts(FormatterParts(f));
    IsoLayout(f);
    PromptShape(iso);
  }
}
