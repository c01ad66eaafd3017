/**
 * The upload rules of the `/schedule` route (src/routes/schedulerRoutes.js): the name a
 * stored upload gets, the MIME-type filter, and the size limit.
 *
 * JavaScript strings are sequences of UTF-16 code units and a regular expression without
 * the `u` flag matches one code unit at a time, so names and MIME types are modelled as
 * sequences of code units; a character outside the Basic Multilingual Plane is two units.
 */
module SchedulerRoutes {
  import opened Wrappers

  newtype CodeUnit = x: int | 0 <= x < 0x1_0000

  const Underscore: CodeUnit := 0x5F
  const Hyphen: CodeUnit := 0x2D
  const Slash: CodeUnit := 0x2F

  /** "image/" as code units. */
  const ImagePrefix: seq<CodeUnit> := [0x69, 0x6D, 0x61, 0x67, 0x65, 0x2F]

  // ---------------------------------------------------------------------------
  // Stored file names

  /** A unit of the class `[a-zA-Z0-9._-]`. */
  predicate IsSafeUnit(u: CodeUnit) {
    (0x61 <= u <= 0x7A) || (0x41 <= u <= 0x5A) || (0x30 <= u <= 0x39) || u == 0x2E || u == Underscore || u == Hyphen
  }

  predicate AllSafe(s: seq<CodeUnit>) {
    forall i :: 0 <= i < |s| ==> IsSafeUnit(s[i])
  }

  /** `originalname.replace(/[^a-zA-Z0-9._-]/g, "_")`: each unit outside the class becomes "_". */
  function SafeName(name: seq<CodeUnit>): (r: seq<CodeUnit>)
    ensures |r| == |name|
    ensures forall i :: 0 <= i < |name| ==> r[i] == (if IsSafeUnit(name[i]) then name[i] else Underscore)
  {
    if name == [] then []
    else (if IsSafeUnit(name[0]) then [name[0]] else [Underscore]) + SafeName(name[1..])
  }

  /** A sanitised name consists of permitted units only. */
  lemma SafeNameIsSafe(name: seq<CodeUnit>)
    ensures AllSafe(SafeName(name))
  {
  }

  /** A sanitised name contains no "/", so it cannot leave the upload directory. */
  lemma SafeNameHasNoSlash(name: seq<CodeUnit>)
    ensures Slash !in SafeName(name)
  {
    SafeNameIsSafe(name);
    assert !IsSafeUnit(Slash);
  }

  /** A name is left unchanged exactly when all its units are permitted. */
  lemma SafeNameFixedIff(name: seq<CodeUnit>)
    ensures SafeName(name) == name <==> AllSafe(name)
  {
    if SafeName(name) == name {
      SafeNameIsSafe(name);
    } else {
      var r := SafeName(name);
      var i :| 0 <= i < |name| && r[i] != name[i];
      assert !IsSafeUnit(name[i]);
    }
  }

  /** Sanitising twice is sanitising once. */
  lemma SafeNameIdempotent(name: seq<CodeUnit>)
    ensures SafeName(SafeName(name)) == SafeName(name)
  {
    SafeNameIsSafe(name);
    SafeNameFixedIff(SafeName(name));
  }

  predicate IsDigitUnit(u: CodeUnit) {
    0x30 <= u <= 0x39
  }

  /** The decimal digits of `n` as `String(n)` writes them: no leading zero, "0" for zero. */
  function Decimal(n: nat): (r: seq<CodeUnit>)
    ensures |r| >= 1
    ensures forall i :: 0 <= i < |r| ==> IsDigitUnit(r[i])
    ensures (r[0] == 0x30) <==> n == 0
    ensures n < 10 ==> |r| == 1
  {
    if n < 10 then [(0x30 + n) as CodeUnit] else Decimal(n / 10) + [(0x30 + n % 10) as CodeUnit]
  }

  /** The number a string of decimal digits denotes. */
  function DecimalValue(s: seq<CodeUnit>): nat
    requires forall i :: 0 <= i < |s| ==> IsDigitUnit(s[i])
  {
    if s == [] then 0
    else
      var last := s[|s| - 1];
      assert IsDigitUnit(last);
      10 * DecimalValue(s[..|s| - 1]) + (last as int - 0x30)
  }

  /** Reading the digits back gives the number. */
  lemma {:induction false} DecimalRoundTrip(n: nat)
    ensures DecimalValue(Decimal(n)) == n
  {
    if n >= 10 {
      DecimalRoundTrip(n / 10);
      var d := Decimal(n);
      assert d[..|d| - 1] == Decimal(n / 10);
    }
  }

  /** The stored file name: `${Date.now()}-${safe}`, with the clock reading as a parameter. */
  function StoredFilename(now: nat, originalName: seq<CodeUnit>): seq<CodeUnit> {
    Decimal(now) + [Hyphen] + SafeName(originalName)
  }

  /**
   * The stored name splits at its first "-" into the clock reading and the sanitised
   * original name, and uses only permitted units.
   */
  lemma StoredFilenameSplits(now: nat, originalName: seq<CodeUnit>)
    ensures var f := StoredFilename(now, originalName);
      var k := |Decimal(now)|;
      && k < |f| && f[k] == Hyphen
      && (forall i :: 0 <= i < k ==> f[i] != Hyphen && IsDigitUnit(f[i]))
      && DecimalValue(f[..k]) == now
      && f[k + 1..] == SafeName(originalName)
      && AllSafe(f)
  {
    var f := StoredFilename(now, originalName);
    var d := Decimal(now);
    assert f[..|d|] == d;
    assert f[|d| + 1..] == SafeName(originalName);
    DecimalRoundTrip(now);
    SafeNameIsSafe(originalName);
    forall i | 0 <= i < |f| ensures IsSafeUnit(f[i]) {
      if i < |d| {
        assert f[i] == d[i];
      } else if i > |d| {
        assert f[i] == SafeName(originalName)[i - |d| - 1];
      }
    }
  }

  // ---------------------------------------------------------------------------
  // The MIME-type filter and the size limit

  /** What `fileFilter` reports to `cb`: accept the file, or an error with a message. */
  datatype FilterDecision = Accept | Reject(message: string)

  /** `fileFilter`: only a present MIME type that begins with "image/" is accepted. */
  function FileFilter(mimeType: Option<seq<CodeUnit>>): (d: FilterDecision)
    ensures d.Accept? <==> mimeType.Some? && |mimeType.value| >= 6 && mimeType.value[..6] == ImagePrefix
    ensures d.Reject? ==> d.message == "Only image uploads are allowed."
  {
    match mimeType
    case Some(m) =>
      if m != [] && StartsWith(m, ImagePrefix) then Accept else Reject("Only image uploads are allowed.")
    case None => Reject("Only image uploads are allowed.")
  }

  /** `s.startsWith(p)`. */
  predicate StartsWith(s: seq<CodeUnit>, p: seq<CodeUnit>) {
    |p| <= |s| && s[..|p|] == p
  }

  /** `limits.fileSize`: five mebibytes. */
  function FileSizeLimit(): (bytes: nat)
    ensures bytes == 5242880
  {
    5 * 1024 * 1024
  }
}
