/**
 * Validation of downloaded files: the ordered checks on a PDF file (exists,
 * large enough, `%PDF-` header), on the HTML text (no error pattern, long
 * enough) and their combination for one download. A file is its contents as
 * bytes, or absent; the error patterns are regular expressions of words
 * separated by `\s+`, modelled as word lists.
 */
module Validator {
  import opened Wrappers
  import opened Strings

  newtype byte = x: int | 0 <= x < 256

  datatype ValidationStatus = Valid | Invalid | Warning

  /** The `details` dictionary of a result: a size or a pattern, when present. */
  datatype Detail = SizeDetail(size: nat) | PatternDetail(pattern: string)

  datatype ValidationResult = ValidationResult(status: ValidationStatus, message: string, details: Option<Detail>)

  /** A file on disk: its bytes, and the error text when opening it for reading fails. */
  datatype DiskFile = DiskFile(contents: seq<byte>, readError: Option<string>)

  /** `%PDF-` as bytes. */
  const PdfHeader: seq<byte> := [0x25, 0x50, 0x44, 0x46, 0x2D]

  const MinSizeBytes: nat := 10 * 1024

  /** The minimum length of HTML content, in characters. */
  const MinHtmlLength: nat := 1000

  // ---------------------------------------------------------------------------
  // `\s+`-separated word patterns
  // ---------------------------------------------------------------------------

  /** A pattern `w0\s+w1\s+...`: its words, none empty and none starting with whitespace. */
  type Pattern = seq<string>

  predicate WellFormed(p: Pattern) {
    p != [] && forall i :: 0 <= i < |p| ==> p[i] != [] && !IsSpace(p[i][0])
  }

  const ErrorPatterns: seq<Pattern> := [
    ["no", "record", "found"],
    ["error", "occurred"],
    ["session", "expired"],
    ["please", "login"],
    ["access", "denied"]
  ]

  /** The regular expression's own text, as it appears in the message: the words joined by `\s+`. */
  function PatternText(p: Pattern): string
    decreases |p|
  {
    if p == [] then "" else if |p| == 1 then p[0] else p[0] + "\\s+" + PatternText(p[1..])
  }

  /**
   * What the regular expression means: `p` matches `t` starting at `i` when
   * its first word occurs there and, if more words follow, one or more
   * whitespace characters lead to a match of the rest.
   */
  ghost predicate MatchFrom(t: string, i: nat, p: Pattern)
    decreases |p|
  {
    p != [] && OccursAt(t, p[0], i)
    && (|p| == 1
        || exists j :: i + |p[0]| < j <= |t| && AllSpace(t[i + |p[0]|..j]) && MatchFrom(t, j, p[1..]))
  }

  /** `re.search(p, t)` succeeds. */
  ghost predicate RegexFound(t: string, p: Pattern)
  {
    exists i: nat :: MatchFrom(t, i, p)
  }

  /** The first index at or after `k` that is not whitespace, or the end. */
  function SkipSpaces(t: string, k: nat): (j: nat)
    requires k <= |t|
    ensures k <= j <= |t| && AllSpace(t[k..j])
    ensures j < |t| ==> !IsSpace(t[j])
    decreases |t| - k
  {
    if k < |t| && IsSpace(t[k]) then
      var j := SkipSpaces(t, k + 1);
      assert t[k..j] == [t[k]] + t[k + 1..j];
      j
    else k
  }

  /** The matcher: after each word, skip the whole whitespace run. */
  function GreedyMatch(t: string, i: nat, p: Pattern): bool
    decreases |p|
  {
    p != [] && OccursAt(t, p[0], i)
    && (|p| == 1
        || (var k := i + |p[0]|; var j := SkipSpaces(t, k); k < j && GreedyMatch(t, j, p[1..])))
  }

  /** A whitespace run that ends before a non-space character ends where `SkipSpaces` stops. */
  lemma {:induction false} SkipSpacesUnique(t: string, k: nat, j: nat)
    requires k <= j < |t| && AllSpace(t[k..j]) && !IsSpace(t[j])
    ensures SkipSpaces(t, k) == j
    decreases j - k
  {
    if k < j {
      assert t[k] == t[k..j][0];
      assert t[k + 1..j] == t[k..j][1..];
      SkipSpacesUnique(t, k + 1, j);
    }
  }

  /** The matcher decides the regular expression: skipping the whole run loses no match. */
  lemma {:induction false} GreedyMatchIff(t: string, i: nat, p: Pattern)
    requires WellFormed(p)
    ensures GreedyMatch(t, i, p) <==> MatchFrom(t, i, p)
    decreases |p|
  {
    if |p| > 1 && OccursAt(t, p[0], i) {
      var k := i + |p[0]|;
      var rest := p[1..];
      assert WellFormed(rest) by {
        forall m | 0 <= m < |rest| ensures rest[m] != [] && !IsSpace(rest[m][0]) {
          assert rest[m] == p[m + 1];
        }
      }
      var s := SkipSpaces(t, k);
      if GreedyMatch(t, i, p) {
        GreedyMatchIff(t, s, rest);
      }
      if MatchFrom(t, i, p) {
        var j :| k < j <= |t| && AllSpace(t[k..j]) && MatchFrom(t, j, rest);
        assert OccursAt(t, rest[0], j);
        assert t[j..j + |rest[0]|][0] == rest[0][0];
        SkipSpacesUnique(t, k, j);
        GreedyMatchIff(t, j, rest);
      }
    }
  }

  /** The first start at or after `from` where the matcher succeeds (the scan of `re.search`). */
  function SearchFrom(t: string, p: Pattern, from: nat): (r: Option<nat>)
    ensures r.Some? ==> from <= r.value && GreedyMatch(t, r.value, p)
    ensures r.None? ==> forall i: nat :: from <= i ==> !GreedyMatch(t, i, p)
    decreases |t| + 1 - from
  {
    if from > |t| then None
    else if GreedyMatch(t, from, p) then Some(from)
    else SearchFrom(t, p, from + 1)
  }

  function Search(t: string, p: Pattern): bool
  {
    SearchFrom(t, p, 0).Some?
  }

  lemma SearchIff(t: string, p: Pattern)
    requires WellFormed(p)
    ensures Search(t, p) <==> RegexFound(t, p)
  {
    var r := SearchFrom(t, p, 0);
    if r.Some? {
      GreedyMatchIff(t, r.value, p);
    }
    if RegexFound(t, p) {
      var i: nat :| MatchFrom(t, i, p);
      GreedyMatchIff(t, i, p);
    }
  }

  predicate AllWellFormed(ps: seq<Pattern>) {
    forall i :: 0 <= i < |ps| ==> WellFormed(ps[i])
  }

  lemma ErrorPatternsWellFormed()
    ensures AllWellFormed(ErrorPatterns)
  {
    forall i | 0 <= i < |ErrorPatterns| ensures WellFormed(ErrorPatterns[i]) {
      var p := ErrorPatterns[i];
      forall m | 0 <= m < |p| ensures p[m] != [] && !IsSpace(p[m][0]) {
      }
    }
  }

  /** The index of the first pattern of the list that is found in `t`. */
  function FirstFound(t: string, ps: seq<Pattern>): (r: Option<nat>)
    requires AllWellFormed(ps)
    ensures r.Some? ==> r.value < |ps| && RegexFound(t, ps[r.value])
                        && forall m :: 0 <= m < r.value ==> !RegexFound(t, ps[m])
    ensures r.None? ==> forall m :: 0 <= m < |ps| ==> !RegexFound(t, ps[m])
  {
    if ps == [] then None
    else
      SearchIff(t, ps[0]);
      if Search(t, ps[0]) then Some(0)
      else
        assert AllWellFormed(ps[1..]) by {
          forall m | 0 <= m < |ps| - 1 ensures WellFormed(ps[1..][m]) {
            assert ps[1..][m] == ps[m + 1];
          }
        }
        match FirstFound(t, ps[1..])
        case Some(m) => Some(m + 1)
        case None => None
  }

  // ---------------------------------------------------------------------------
  // The validators
  // ---------------------------------------------------------------------------

  predicate HasPdfHeader(contents: seq<byte>) {
    |contents| >= |PdfHeader| && contents[..|PdfHeader|] == PdfHeader
  }

  /** `validate_pdf(path)`, with `None` for a path that does not exist. */
  function ValidatePdf(file: Option<DiskFile>): ValidationResult
  {
    match file
    case None => ValidationResult(Invalid, "File does not exist", None)
    case Some(f) =>
      var size := |f.contents|;
      if size < MinSizeBytes then
        ValidationResult(Warning, "File too small (" + NatToString(size) + " bytes)", Some(SizeDetail(size)))
      else if f.readError.Some? then
        ValidationResult(Invalid, "Read error: " + f.readError.value, None)
      else
        var header := f.contents[..8];
        if !(|PdfHeader| <= |header| && header[..|PdfHeader|] == PdfHeader) then
          ValidationResult(Invalid, "Invalid PDF header", None)
        else ValidationResult(Valid, "PDF is valid", Some(SizeDetail(size)))
  }

  /** `validate_html_content(html)`. */
  function ValidateHtmlContent(html: string): ValidationResult
  {
    ErrorPatternsWellFormed();
    match FirstFound(Lower(html), ErrorPatterns)
    case Some(i) =>
      var text := PatternText(ErrorPatterns[i]);
      ValidationResult(Invalid, "Error pattern found: " + text, Some(PatternDetail(text)))
    case None =>
      if |html| < MinHtmlLength then
        ValidationResult(Warning, "Content too short (" + NatToString(|html|) + " chars)", None)
      else ValidationResult(Valid, "HTML is valid", None)
  }

  /** `validate_download(html, pdf_path)`; `pdf` is `None` when no path is given. */
  function ValidateDownload(html: string, pdf: Option<Option<DiskFile>>): ValidationResult
  {
    var htmlResult := ValidateHtmlContent(html);
    if htmlResult.status == Invalid then htmlResult
    else if pdf.Some? && ValidatePdf(pdf.value).status != Valid then ValidatePdf(pdf.value)
    else ValidationResult(Valid, "Download validated", None)
  }

  // ---------------------------------------------------------------------------
  // Properties
  // ---------------------------------------------------------------------------

  /**
   * The outcome of `validate_pdf`, case by case: a missing file is invalid; a
   * file under 10240 bytes (an empty one too) is only a warning, whatever its
   * header; a large enough file is valid exactly when it can be read and starts
   * with `%PDF-`.
   */
  lemma ValidatePdfCases(file: Option<DiskFile>)
    ensures var r := ValidatePdf(file);
      (file.None? ==> r == ValidationResult(Invalid, "File does not exist", None))
      && (file.Some? && |file.value.contents| < MinSizeBytes ==>
            r.status == Warning && r.details == Some(SizeDetail(|file.value.contents|)))
      && (r.status == Valid <==>
            file.Some? && |file.value.contents| >= MinSizeBytes && file.value.readError.None?
            && HasPdfHeader(file.value.contents))
      && (r.status == Valid ==> r.details == Some(SizeDetail(|file.value.contents|)))
  {
    if file.Some? && |file.value.contents| >= MinSizeBytes {
      var c := file.value.contents;
      assert c[..8][..|PdfHeader|] == c[..|PdfHeader|];
    }
  }

  /**
   * The outcome of `validate_html_content`: invalid, naming the first pattern
   * in list order, exactly when some error pattern is found in the lower-cased
   * text; otherwise a warning exactly when the original text is shorter than
   * 1000 characters.
   */
  lemma ValidateHtmlCases(html: string)
    ensures var r := ValidateHtmlContent(html);
      var found := exists m :: 0 <= m < |ErrorPatterns| && RegexFound(Lower(html), ErrorPatterns[m]);
      (r.status == Invalid <==> found)
      && (r.status == Invalid ==>
            exists i :: (0 <= i < |ErrorPatterns|
              && RegexFound(Lower(html), ErrorPatterns[i])
              && (forall m :: 0 <= m < i ==> !RegexFound(Lower(html), ErrorPatterns[m]))
              && r.message == "Error pattern found: " + PatternText(ErrorPatterns[i])))
      && (r.status == Warning <==> !found && |html| < MinHtmlLength)
  {
    ErrorPatternsWellFormed();
    var f := FirstFound(Lower(html), ErrorPatterns);
    if f.Some? {
      assert 0 <= f.value < |ErrorPatterns| && RegexFound(Lower(html), ErrorPatterns[f.value]);
    }
  }

  /** `\s+` spans any run of whitespace, and case does not matter: "No  Record\nFound" is an error page. */
  lemma NoRecordAcrossWhitespace()
    ensures ValidateHtmlContent("No  Record\nFound").status == Invalid
  {
    assert Lower("No  Record\nFound") == "no  record\nfound";
    NoRecordFound();
    ValidateHtmlCases("No  Record\nFound");
  }

  lemma NoRecordFound()
    ensures RegexFound("no  record\nfound", ErrorPatterns[0])
  {
    var t := "no  record\nfound";
    assert MatchFrom(t, 11, ["found"]) by {
      assert t[11..16] == "found";
    }
    assert MatchFrom(t, 4, ["record", "found"]) by {
      assert t[4..10] == "record";
      assert AllSpace(t[10..11]);
      assert ["record", "found"][1..] == ["found"];
    }
    assert MatchFrom(t, 0, ["no", "record", "found"]) by {
      assert t[0..2] == "no";
      assert AllSpace(t[2..4]);
      assert ["no", "record", "found"][1..] == ["record", "found"];
    }
  }

  /**
   * `validate_download`: an invalid HTML result is returned as it is; then a
   * non-valid PDF result; otherwise the download is valid, even when the HTML
   * check gave only a warning.
   */
  lemma ValidateDownloadCases(html: string, pdf: Option<Option<DiskFile>>)
    ensures var r := ValidateDownload(html, pdf);
      (ValidateHtmlContent(html).status == Invalid ==> r == ValidateHtmlContent(html))
      && ((ValidateHtmlContent(html).status != Invalid && pdf.Some? && ValidatePdf(pdf.value).status != Valid)
            ==> r == ValidatePdf(pdf.value))
      && (r.status == Valid <==>
            ValidateHtmlContent(html).status != Invalid && (pdf.None? || ValidatePdf(pdf.value).status == Valid))
      && (r.status == Valid ==> r.message == "Download validated")
  {
  }
}
