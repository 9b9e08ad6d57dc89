/**
 * The logic of the scraper's window, without the widgets: where downloads
 * go, the migration of a saved window configuration from the old two-field
 * layout, the name of the progress file, the counting of the scraper's output
 * lines for the progress bar, and the checks and command line of "start
 * scraping". The project directory, the parsed configuration file, whether a
 * process is running and whether the scraper's source could be patched are
 * parameters. Paths are POSIX paths joined with `/`.
 */
module Gui {
  import opened Wrappers
  import opened Strings
  import opened Configuration

  // ---------------------------------------------------------------------------
  // Paths
  // ---------------------------------------------------------------------------

  /** `Path(p).is_absolute()` on POSIX. */
  predicate IsAbsolute(p: string) {
    p != [] && p[0] == '/'
  }

  /** `Path(base) / name` for a relative `name`. */
  function JoinPath(base: string, name: string): string {
    base + "/" + name
  }

  /**
   * `_resolve_downloads_dir`: a non-blank `downloads_dir` is used as given
   * when absolute and under the project directory otherwise; a blank one
   * becomes `downloads_<village>` (or `downloads` without a village code)
   * under the project directory.
   */
  function ResolveDownloadsDir(projectDir: string, downloadsDir: string, villageCode: string): string {
    var user := Strip(downloadsDir);
    if user != [] then
      if IsAbsolute(user) then user else JoinPath(projectDir, user)
    else
      var village := Strip(villageCode);
      if village != [] then JoinPath(projectDir, "downloads_" + village) else JoinPath(projectDir, "downloads")
  }

  /** The directory name chosen under the project directory when the setting is not absolute. */
  function RelativeDownloadsName(downloadsDir: string, villageCode: string): string {
    if Strip(downloadsDir) != [] then Strip(downloadsDir)
    else if Strip(villageCode) != [] then "downloads_" + Strip(villageCode)
    else "downloads"
  }

  /**
   * An absolute setting is kept; anything else lands directly under the
   * project directory, under the stripped setting, `downloads_<village>`
   * or `downloads`.
   */
  lemma ResolveMeaning(projectDir: string, downloadsDir: string, villageCode: string)
    ensures var r := ResolveDownloadsDir(projectDir, downloadsDir, villageCode);
      && (IsAbsolute(Strip(downloadsDir)) ==> r == Strip(downloadsDir))
      && (!IsAbsolute(Strip(downloadsDir)) ==>
            StartsWith(r, projectDir + "/")
            && r[|projectDir| + 1..] == RelativeDownloadsName(downloadsDir, villageCode))
  {
    var r := ResolveDownloadsDir(projectDir, downloadsDir, villageCode);
    if !IsAbsolute(Strip(downloadsDir)) {
      assert r == projectDir + "/" + RelativeDownloadsName(downloadsDir, villageCode);
    }
  }

  /** With an absolute project directory the result is absolute. */
  lemma ResolveAbsolute(projectDir: string, downloadsDir: string, villageCode: string)
    requires IsAbsolute(projectDir)
    ensures IsAbsolute(ResolveDownloadsDir(projectDir, downloadsDir, villageCode))
  {
  }

  /**
   * Feeding the resolved directory back in as `downloads_dir` gives it again,
   * whatever the village code: resolution is idempotent.
   */
  lemma {:induction false} ResolveStable(projectDir: string, downloadsDir: string, villageCode: string, otherVillage: string)
    requires IsAbsolute(projectDir)
    ensures var r := ResolveDownloadsDir(projectDir, downloadsDir, villageCode);
      ResolveDownloadsDir(projectDir, r, otherVillage) == r
  {
    var r := ResolveDownloadsDir(projectDir, downloadsDir, villageCode);
    var name := RelativeDownloadsName(downloadsDir, villageCode);
    StripEnds(downloadsDir);
    StripEnds(villageCode);
    if !IsAbsolute(Strip(downloadsDir)) {
      assert r == projectDir + "/" + name;
      assert name != [] && !IsSpace(name[|name| - 1]);
      assert r[|r| - 1] == name[|name| - 1];
    }
    assert r != [] && !IsSpace(r[0]) && !IsSpace(r[|r| - 1]);
    StripUnpadded(r);
  }

  /** Without a `downloads_dir`, two different village codes get two different directories. */
  lemma VillageDirsDistinct(projectDir: string, v1: string, v2: string)
    requires Strip(v1) != [] && Strip(v2) != [] && Strip(v1) != Strip(v2)
    ensures ResolveDownloadsDir(projectDir, "", v1) != ResolveDownloadsDir(projectDir, "", v2)
  {
    assert Strip("") == [];
    var r1, r2 := ResolveDownloadsDir(projectDir, "", v1), ResolveDownloadsDir(projectDir, "", v2);
    var n := |projectDir| + 11;
    assert r1 == projectDir + "/downloads_" + Strip(v1) && r1[n..] == Strip(v1);
    assert r2 == projectDir + "/downloads_" + Strip(v2) && r2[n..] == Strip(v2);
  }

  /** The progress file `<downloads_dir>/progress_<village or "unknown">.json`. */
  function ProgressFile(downloadsDir: string, villageCode: string): string {
    var village := if Strip(villageCode) != [] then Strip(villageCode) else "unknown";
    JoinPath(downloadsDir, "progress_" + village + ".json")
  }

  /** The file sits directly in the downloads directory and names the village, or `unknown`. */
  lemma ProgressFileMeaning(downloadsDir: string, villageCode: string)
    ensures var r := ProgressFile(downloadsDir, villageCode);
      && StartsWith(r, downloadsDir + "/progress_") && |r| >= |downloadsDir| + 15
      && r[|downloadsDir| + 10..|r| - 5] == (if Strip(villageCode) != [] then Strip(villageCode) else "unknown")
      && r[|r| - 5..] == ".json"
  {
    var r := ProgressFile(downloadsDir, villageCode);
    var t := if Strip(villageCode) != [] then Strip(villageCode) else "unknown";
    assert r == (downloadsDir + "/progress_") + t + ".json";
  }

  /** Different villages never share a progress file. */
  lemma ProgressFileDistinct(downloadsDir: string, v1: string, v2: string)
    requires Strip(v1) != [] && Strip(v2) != [] && Strip(v1) != Strip(v2)
    ensures ProgressFile(downloadsDir, v1) != ProgressFile(downloadsDir, v2)
  {
    ProgressFileMeaning(downloadsDir, v1);
    ProgressFileMeaning(downloadsDir, v2);
  }

  // ---------------------------------------------------------------------------
  // The saved window configuration
  // ---------------------------------------------------------------------------

  /** `DEFAULTS`: the window's variables and their initial values. */
  const DefaultVars: map<string, Value> := map[
    "district_code" := Str("17"),
    "tehsil_code" := Str("102"),
    "village_code" := Str(""),
    "period" := Str("2024-2025"),
    "khewat_start" := Int(1),
    "khewat_end" := Int(100),
    "downloads_dir" := Str(""),
    "session_cookie" := Str(""),
    "concurrent_enabled" := Bool(false),
    "concurrent_workers" := Int(3),
    "min_delay" := Real(1.0),
    "max_delay" := Real(2.5),
    "max_retries" := Int(3),
    "page_load_timeout" := Int(30),
    "form_postback_sleep" := Real(0.25),
    "auto_convert_pdf" := Bool(true),
    "pdf_input_dir" := Str(""),
    "pdf_output_dir" := Str(""),
    "pdf_workers" := Int(4)]

  /**
   * The migration step of `_load_config`: `save_path` is removed; a set save
   * path and a bare folder name (no `/` or `\`) in `downloads_dir` are joined
   * into `downloads_dir`; a set save path with an empty folder becomes
   * `downloads_dir`; otherwise `downloads_dir` is left alone. `None` when
   * `save_path`, or `downloads_dir` beside it, is not text: the load is
   * abandoned.
   */
  function Migrated(cfg: map<string, Value>): Option<map<string, Value>> {
    if "save_path" !in cfg then Some(cfg)
    else if !cfg["save_path"].Str? then None
    else
      var rest := cfg - {"save_path"};
      var folderValue := if "downloads_dir" in rest then rest["downloads_dir"] else Str("");
      if !folderValue.Str? then None
      else
        var oldSave := Strip(cfg["save_path"].s);
        var oldFolder := Strip(folderValue.s);
        if oldSave != [] && oldFolder != [] && '/' !in oldFolder && '\\' !in oldFolder then
          Some(rest["downloads_dir" := Str(JoinPath(oldSave, oldFolder))])
        else if oldSave != [] && oldFolder == [] then
          Some(rest["downloads_dir" := Str(oldSave)])
        else Some(rest)
  }

  /** The migration step of `_load_config`, on the loaded document's entries. */
  method MigrateLayout(entries: map<string, Value>) returns (r: Option<map<string, Value>>)
    ensures r == Migrated(entries)
  {
    var cfg := entries;
    if "save_path" in cfg {
      var saved := cfg["save_path"];
      cfg := cfg - {"save_path"};
      if !saved.Str? {
        return None;
      }
      var oldSave := Strip(saved.s);
      var folder := if "downloads_dir" in cfg then cfg["downloads_dir"] else Str("");
      if !folder.Str? {
        return None;
      }
      var oldFolder := Strip(folder.s);
      if oldSave != [] && oldFolder != [] && '/' !in oldFolder && '\\' !in oldFolder {
        cfg := cfg["downloads_dir" := Str(JoinPath(oldSave, oldFolder))];
      } else if oldSave != [] && oldFolder == [] {
        cfg := cfg["downloads_dir" := Str(oldSave)];
      }
    }
    return Some(cfg);
  }

  /**
   * A document without `save_path` passes unchanged; otherwise the migration
   * fails exactly when one of the fields it reads is not text, and on success
   * `save_path` is gone and every key other than it and `downloads_dir` is
   * untouched.
   */
  lemma MigratedMeaning(cfg: map<string, Value>)
    ensures "save_path" !in cfg ==> Migrated(cfg) == Some(cfg)
    ensures Migrated(cfg).None? <==>
              "save_path" in cfg && (!cfg["save_path"].Str? || ("downloads_dir" in cfg && !cfg["downloads_dir"].Str?))
    ensures Migrated(cfg).Some? ==>
              var m := Migrated(cfg).value;
              "save_path" !in m
              && forall k :: k != "save_path" && k != "downloads_dir" ==>
                   (k in m <==> k in cfg) && (k in cfg ==> m[k] == cfg[k])
  {
  }

  /** What the migration makes of `downloads_dir` from the old save path and folder. */
  lemma MigratedDownloadsDir(cfg: map<string, Value>, save: string, folder: string)
    requires "save_path" in cfg && cfg["save_path"] == Str(save)
    requires if "downloads_dir" in cfg then cfg["downloads_dir"] == Str(folder) else folder == ""
    ensures Migrated(cfg).Some?
    ensures var m := Migrated(cfg).value;
      var s, f := Strip(save), Strip(folder);
      && (s != [] && f != [] && '/' !in f && '\\' !in f ==> m["downloads_dir"] == Str(s + "/" + f))
      && (s != [] && f == [] ==> m["downloads_dir"] == Str(s))
      && (s == [] || (f != [] && ('/' in f || '\\' in f)) ==>
            ("downloads_dir" in m <==> "downloads_dir" in cfg)
            && ("downloads_dir" in cfg ==> m["downloads_dir"] == cfg["downloads_dir"]))
  {
    if "downloads_dir" !in cfg {
      assert Strip(folder) == [];
    }
  }

  /** A migrated configuration needs no further migration. */
  lemma MigrationIdempotent(cfg: map<string, Value>)
    requires Migrated(cfg).Some?
    ensures Migrated(Migrated(cfg).value) == Migrated(cfg)
  {
    MigratedMeaning(cfg);
  }

  /** The loop of `_load_config`: every key the window has a variable for takes the file's value. */
  function Applied(vars: map<string, Value>, cfg: map<string, Value>): map<string, Value> {
    map k | k in vars :: if k in cfg then cfg[k] else vars[k]
  }

  /**
   * `_load_config` on the parsed file: `None` for a missing or unparsable
   * file; a document that is not a mapping, or whose migration fails, changes
   * nothing.
   */
  function LoadedVars(vars: map<string, Value>, doc: Option<Value>): map<string, Value> {
    match doc
    case Some(Dict(cfg)) =>
      (match Migrated(cfg)
       case Some(m) => Applied(vars, m)
       case None => vars)
    case _ => vars
  }

  /**
   * Loading never adds or removes a variable, sets each one from the file
   * when the (migrated) file has it, and keeps it otherwise; loading the same
   * file twice is loading it once.
   */
  lemma LoadedVarsMeaning(vars: map<string, Value>, doc: Option<Value>)
    ensures LoadedVars(vars, doc).Keys == vars.Keys
    ensures doc.Some? && doc.value.Dict? && Migrated(doc.value.entries).Some? ==>
              forall k :: k in vars ==>
                LoadedVars(vars, doc)[k] == if k in Migrated(doc.value.entries).value then Migrated(doc.value.entries).value[k] else vars[k]
    ensures LoadedVars(LoadedVars(vars, doc), doc) == LoadedVars(vars, doc)
  {
    if doc.Some? && doc.value.Dict? && Migrated(doc.value.entries).Some? {
      var m := Migrated(doc.value.entries).value;
      assert Applied(Applied(vars, m), m) == Applied(vars, m);
    }
  }

  /**
   * Saving writes every variable and loading reads them back: a file written
   * by `_save_config` restores the window exactly (the variables, like the
   * defaults, never include `save_path`).
   */
  lemma SaveLoadRoundTrip(saved: map<string, Value>, current: map<string, Value>)
    requires saved.Keys == current.Keys && "save_path" !in saved
    ensures LoadedVars(current, Some(Dict(saved))) == saved
  {
    assert Applied(current, saved) == saved;
  }

  // ---------------------------------------------------------------------------
  // Reading the scraper's output
  // ---------------------------------------------------------------------------

  predicate AllDigitsIn(line: string, from: int, to: int)
    requires 0 <= from <= to <= |line|
  {
    forall j :: from <= j < to ==> IsDigit(line[j])
  }

  /** `\s*` followed by a digit, starting at `from` and ending (after the digit) at `to`. */
  predicate SpacedDigit(line: string, from: int, to: int) {
    0 <= from < to <= |line| && AllSpace(line[from..to - 1]) && IsDigit(line[to - 1])
  }

  /** `\s+` followed by a character that `.` matches (anything but a newline), starting at `from`. */
  predicate SpacesThenText(line: string, from: int) {
    exists k | 0 <= from < k < |line| :: AllSpace(line[from..k]) && line[k] != '\n'
  }

  /** `\s+` followed by a digit, starting at `from`. */
  predicate SpacesThenDigit(line: string, from: int) {
    exists k | 0 <= from < k < |line| :: AllSpace(line[from..k]) && IsDigit(line[k])
  }

  /** `.*?`: no newline from `from` to `to`. */
  predicate NoNewline(line: string, from: int, to: int) {
    0 <= from <= to <= |line| && forall j :: from <= j < to ==> line[j] != '\n'
  }

  /** `\s*(\d+)` starting at `from`. */
  predicate NumberAt(line: string, from: int) {
    exists e | 0 <= e <= |line| :: SpacedDigit(line, from, e)
  }

  /** The part of `_RE_PROGRESS` after its second number: `.*?Pending:\s*(\d+)`. */
  predicate PendingAfter(line: string, from: int) {
    exists p | 0 <= p <= |line| :: NoNewline(line, from, p) && OccursAt(line, "Pending:", p) && NumberAt(line, p + 8)
  }

  /** `.*?Failed:\s*(\d+).*?Pending:\s*(\d+)` starting at `from`. */
  predicate FailedAfter(line: string, from: int) {
    exists f | 0 <= f <= |line| :: NoNewline(line, from, f) && OccursAt(line, "Failed:", f)
      && exists b | 0 <= b <= |line| :: SpacedDigit(line, f + 7, b) && PendingAfter(line, b)
  }

  /** `_RE_PROGRESS.search(line)`: `Completed:\s*(\d+).*?Failed:\s*(\d+).*?Pending:\s*(\d+)`. */
  predicate ProgressMatch(line: string) {
    exists c | 0 <= c <= |line| :: OccursAt(line, "Completed:", c)
      && exists a | 0 <= a <= |line| :: SpacedDigit(line, c + 10, a) && FailedAfter(line, a)
  }

  /** The literal text that starts `_RE_KHEWAT`. */
  const KhewatText: string := "Processing khewat"

  /** `_RE_KHEWAT.search(line)`: `Processing khewat\s+(\d+)`. */
  predicate KhewatMatch(line: string) {
    exists i | 0 <= i <= |line| :: OccursAt(line, KhewatText, i) && SpacesThenDigit(line, i + |KhewatText|)
  }

  /** `_RE_SAVED.search(line)`: `Saved:\s+(.+)`. */
  predicate SavedMatch(line: string) {
    exists i | 0 <= i <= |line| :: OccursAt(line, "Saved:", i) && SpacesThenText(line, i + 6)
  }

  /** The literal text that starts `_RE_NO_RECORD`. */
  const NoRecordText: string := "No record found for khewat"

  /** `_RE_NO_RECORD.search(line)`: `No record found for khewat\s+(\d+)`. */
  predicate NoRecordMatch(line: string) {
    exists i | 0 <= i <= |line| :: OccursAt(line, NoRecordText, i) && SpacesThenDigit(line, i + |NoRecordText|)
  }

  datatype LineKind = ProgressLine | KhewatLine | SavedLine | NoRecordLine | OtherLine

  /** Which branch of `_parse_progress_line` a line takes: the patterns are tried in this order. */
  function Classify(line: string): LineKind {
    if ProgressMatch(line) then ProgressLine
    else if KhewatMatch(line) then KhewatLine
    else if SavedMatch(line) then SavedLine
    else if NoRecordMatch(line) then NoRecordLine
    else OtherLine
  }

  /** A saved file and a missing record both count as one khewat processed. */
  predicate CountsAsProcessed(line: string) {
    Classify(line) == SavedLine || Classify(line) == NoRecordLine
  }

  /** A pattern cannot occur where its first character does not. */
  lemma AbsentInitial(line: string, pat: string)
    requires pat != [] && pat[0] !in line
    ensures forall i :: !OccursAt(line, pat, i)
  {
  }

  /** Without a capital `C` a line is no progress summary, and without a capital `P` no khewat line. */
  lemma NotProgressNorKhewat(line: string)
    requires 'C' !in line && 'P' !in line
    ensures !ProgressMatch(line) && !KhewatMatch(line)
  {
    AbsentInitial(line, "Completed:");
    AbsentInitial(line, KhewatText);
  }

  /**
   * The scraper's `Saved: <file> (<n> bytes)` line counts as one khewat
   * processed, for any file name free of capital `C` and `P` and of newlines
   * (the scraper's `nakal_khewat_NNNN` names are).
   */
  lemma SavedLineCounts(name: string, size: nat)
    requires 'C' !in name && 'P' !in name && '\n' !in name
    ensures CountsAsProcessed("    Saved: " + name + " (" + NatToString(size) + " bytes)\n")
  {
    var digits := NatToString(size);
    var line := "    Saved: " + name + " (" + digits + " bytes)\n";
    assert 'C' !in digits && 'P' !in digits;
    NotProgressNorKhewat(line);
    assert line[4..10] == "Saved:";
    assert line[10..11] == " ";
    assert line[11] != '\n' by {
      if name != [] {
        assert line[11] == name[0];
      } else {
        assert line[11] == ' ';
      }
    }
    assert SpacesThenText(line, 10);
    assert OccursAt(line, "Saved:", 4);
  }

  /** The scraper's `No record found for khewat <k>` line counts as one khewat processed. */
  lemma NoRecordLineCounts(k: nat)
    ensures CountsAsProcessed("    " + NoRecordText + " " + NatToString(k) + "\n")
  {
    var digits := NatToString(k);
    var line := "    " + NoRecordText + " " + digits + "\n";
    assert 'C' !in digits && 'P' !in digits;
    NotProgressNorKhewat(line);
    NoRecordPieces(line, digits);
  }

  lemma NoRecordPieces(line: string, digits: string)
    requires digits != [] && IsDigit(digits[0])
    requires line == "    " + NoRecordText + " " + digits + "\n"
    ensures NoRecordMatch(line)
  {
    assert |NoRecordText| == 26;
    assert line[4..30] == NoRecordText;
    assert line[30..31] == " " && line[31] == digits[0];
    assert SpacesThenDigit(line, 30);
    assert OccursAt(line, NoRecordText, 4);
  }

  /** The scraper's `Processing khewat <k>...` line only updates the status: it is not counted. */
  lemma KhewatLineNotCounted(k: nat)
    ensures Classify("  Processing khewat " + NatToString(k) + "...\n") == KhewatLine
  {
    var digits := NatToString(k);
    assert "  Processing khewat " == "  " + KhewatText + " ";
    KhewatLineClassified("  Processing khewat " + digits + "...\n", digits);
  }

  lemma KhewatLineClassified(line: string, digits: string)
    requires digits != [] && forall i :: 0 <= i < |digits| ==> IsDigit(digits[i])
    requires line == "  " + KhewatText + " " + digits + "...\n"
    ensures Classify(line) == KhewatLine
  {
    assert 'C' !in digits;
    assert 'C' !in KhewatText;
    assert 'C' !in line;
    AbsentInitial(line, "Completed:");
    KhewatPieces(line, digits);
  }

  lemma KhewatPieces(line: string, digits: string)
    requires digits != [] && IsDigit(digits[0])
    requires line == "  " + KhewatText + " " + digits + "...\n"
    ensures KhewatMatch(line)
  {
    assert |KhewatText| == 17;
    assert line[2..19] == KhewatText;
    assert line[19..20] == " " && line[20] == digits[0];
    assert SpacesThenDigit(line, 19);
    assert OccursAt(line, KhewatText, 2);
  }

  /**
   * The scraper's `Completed: c, Failed: f, Pending: p` summary, after any
   * prefix, is read as overall progress and never counted as a processed khewat.
   */
  lemma SummaryLineNotCounted(prefix: string, c: nat, f: nat, p: nat)
    ensures Classify(prefix + "Completed: " + NatToString(c) + ", Failed: " + NatToString(f)
                     + ", Pending: " + NatToString(p) + "\n") == ProgressLine
  {
    var dc, df, dp := NatToString(c), NatToString(f), NatToString(p);
    DigitsNoNewline(dc);
    DigitsNoNewline(df);
    SummaryMatches(prefix + "Completed: " + dc + ", Failed: " + df + ", Pending: " + dp + "\n", prefix, dc, df, dp);
  }

  /** A summary line matches `_RE_PROGRESS`, so it takes the first branch. */
  lemma SummaryMatches(line: string, prefix: string, dc: string, df: string, dp: string)
    requires line == prefix + "Completed: " + dc + ", Failed: " + df + ", Pending: " + dp + "\n"
    requires dc != [] && df != [] && dp != [] && IsDigit(dc[0]) && IsDigit(df[0]) && IsDigit(dp[0])
    requires '\n' !in dc && '\n' !in df
    ensures Classify(line) == ProgressLine
  {
    CompletedSlices(line, prefix, dc, df, dp);
    FailedSlices(line, prefix, dc, df, dp);
    PendingSlices(line, prefix, dc, df, dp);
    ProgressFromPieces(line, |prefix|, dc, df, dp);
    ProgressClassified(line);
  }

  lemma DigitsNoNewline(d: string)
    requires forall i :: 0 <= i < |d| ==> IsDigit(d[i])
    ensures '\n' !in d
  {
  }

  lemma ProgressClassified(line: string)
    requires ProgressMatch(line)
    ensures Classify(line) == ProgressLine
  {
  }

  /** Where the pieces of a summary line sit: the `Completed:` part. */
  lemma CompletedSlices(line: string, prefix: string, dc: string, df: string, dp: string)
    requires line == prefix + "Completed: " + dc + ", Failed: " + df + ", Pending: " + dp + "\n"
    requires dc != [] && df != [] && dp != []
    ensures var c0 := |prefix|; var f0 := c0 + 13 + |dc|;
      && |line| == f0 + 20 + |df| + |dp|
      && OccursAt(line, "Completed:", c0) && line[c0 + 10] == ' ' && line[c0 + 11] == dc[0]
      && line[c0 + 12..f0] == dc[1..] + ", "
  {
    var c0 := |prefix|;
    assert line[c0..c0 + 11] == "Completed: ";
    assert line[c0 + 11..c0 + 11 + |dc|] == dc;
    assert line[c0 + 11 + |dc|..c0 + 13 + |dc|] == ", ";
  }

  /** The `Failed:` part of a summary line. */
  lemma FailedSlices(line: string, prefix: string, dc: string, df: string, dp: string)
    requires line == prefix + "Completed: " + dc + ", Failed: " + df + ", Pending: " + dp + "\n"
    requires dc != [] && df != [] && dp != []
    ensures var f0 := |prefix| + 13 + |dc|; var p0 := f0 + 10 + |df|;
      && |line| == p0 + 10 + |dp|
      && OccursAt(line, "Failed:", f0) && line[f0 + 7] == ' ' && line[f0 + 8] == df[0]
      && line[f0 + 9..p0] == df[1..] + ", "
  {
    var f0 := |prefix| + 13 + |dc|;
    assert line[f0..f0 + 8] == "Failed: ";
    assert line[f0 + 8..f0 + 8 + |df|] == df;
    assert line[f0 + 8 + |df|..f0 + 10 + |df|] == ", ";
  }

  /** The `Pending:` part of a summary line. */
  lemma PendingSlices(line: string, prefix: string, dc: string, df: string, dp: string)
    requires line == prefix + "Completed: " + dc + ", Failed: " + df + ", Pending: " + dp + "\n"
    requires dc != [] && df != [] && dp != []
    ensures var p0 := |prefix| + 23 + |dc| + |df|;
      && |line| == p0 + 10 + |dp|
      && OccursAt(line, "Pending:", p0) && line[p0 + 8] == ' ' && line[p0 + 9] == dp[0]
  {
    var p0 := |prefix| + 23 + |dc| + |df|;
    assert line[p0..p0 + 9] == "Pending: ";
    assert line[p0 + 9..p0 + 9 + |dp|] == dp;
  }

  /** A stretch of text without a newline is a `.*?`. */
  lemma NoNewlineSlice(line: string, from: int, to: int)
    requires 0 <= from <= to <= |line| && '\n' !in line[from..to]
    ensures NoNewline(line, from, to)
  {
    forall j | from <= j < to
      ensures line[j] != '\n'
    {
      assert line[j] == line[from..to][j - from];
    }
  }

  /** A text laid out like a summary line matches `_RE_PROGRESS`. */
  lemma ProgressFromPieces(line: string, c0: nat, dc: string, df: string, dp: string)
    requires dc != [] && df != [] && dp != [] && IsDigit(dc[0]) && IsDigit(df[0]) && IsDigit(dp[0])
    requires '\n' !in dc && '\n' !in df
    requires var f0 := c0 + 13 + |dc|;
      var p0 := f0 + 10 + |df|;
      && |line| == p0 + 10 + |dp|
      && OccursAt(line, "Completed:", c0) && line[c0 + 10] == ' ' && line[c0 + 11] == dc[0]
      && line[c0 + 12..f0] == dc[1..] + ", "
      && OccursAt(line, "Failed:", f0) && line[f0 + 7] == ' ' && line[f0 + 8] == df[0]
      && line[f0 + 9..p0] == df[1..] + ", "
      && OccursAt(line, "Pending:", p0) && line[p0 + 8] == ' ' && line[p0 + 9] == dp[0]
    ensures ProgressMatch(line)
  {
    var f0 := c0 + 13 + |dc|;
    var p0 := f0 + 10 + |df|;
    assert line[p0 + 8..p0 + 9] == [' '];
    assert SpacedDigit(line, p0 + 8, p0 + 10);
    assert NumberAt(line, p0 + 8);
    assert '\n' !in df[1..] + ", ";
    NoNewlineSlice(line, f0 + 9, p0);
    assert PendingAfter(line, f0 + 9);
    assert line[f0 + 7..f0 + 8] == [' '];
    assert SpacedDigit(line, f0 + 7, f0 + 9);
    assert '\n' !in dc[1..] + ", ";
    NoNewlineSlice(line, c0 + 12, f0);
    assert FailedAfter(line, c0 + 12);
    assert line[c0 + 10..c0 + 11] == [' '];
    assert SpacedDigit(line, c0 + 10, c0 + 12);
  }

  /** `\s+(.+)` needs something after the blank: a bare `Saved:` line is not counted. */
  lemma BareSavedNotCounted()
    ensures !SavedMatch("Saved:\n")
  {
  }

  // ---------------------------------------------------------------------------
  // Starting the scraper
  // ---------------------------------------------------------------------------

  /** `max(3, min(8, workers))`: the concurrent worker count is held to 3..8. */
  function ClampWorkers(workers: int): (r: int)
    ensures 3 <= r <= 8
    ensures 3 <= workers <= 8 ==> r == workers
    ensures workers < 3 ==> r == 3
    ensures workers > 8 ==> r == 8
  {
    if workers > 8 then 8 else if workers < 3 then 3 else workers
  }

  /** The settings `_start_scraping` reads from the window. */
  datatype ScrapeSettings = ScrapeSettings(
    sessionCookie: string,
    villageCode: string,
    khewatStart: int,
    khewatEnd: int,
    concurrentEnabled: bool,
    concurrentWorkers: int,
    autoConvertPdf: bool)

  /** What `_start_scraping` does: refuses, or launches the scraper with these arguments (after the script path). */
  datatype StartOutcome =
    | Busy
    | MissingCookie
    | MissingVillage
    | PatchFailed
    | Launched(args: seq<string>, convertAfter: bool)

  /** The scraper's command-line arguments. */
  function ScrapeArgs(s: ScrapeSettings): seq<string> {
    ["--cookie", Strip(s.sessionCookie), "--start", IntToString(s.khewatStart), "--end", IntToString(s.khewatEnd)]
    + (if s.concurrentEnabled then ["--workers", IntToString(ClampWorkers(s.concurrentWorkers))] else [])
  }

  /**
   * The guards of `_start_scraping` in order: a running process, a blank
   * cookie, a blank village code, a failed patch of the scraper's settings;
   * otherwise the launch.
   */
  function StartOutcomeOf(busy: bool, s: ScrapeSettings, patched: bool): StartOutcome {
    if busy then Busy
    else if Strip(s.sessionCookie) == [] then MissingCookie
    else if Strip(s.villageCode) == [] then MissingVillage
    else if !patched then PatchFailed
    else Launched(ScrapeArgs(s), s.autoConvertPdf)
  }

  /**
   * A launch happens only with no process running, a cookie, a village code
   * and a successful patch; it passes the stripped cookie and the range, adds
   * `--workers` with a count in 3..8 exactly when concurrency is on, and
   * chains the PDF conversion exactly when it is enabled.
   */
  lemma StartMeaning(busy: bool, s: ScrapeSettings, patched: bool)
    ensures var o := StartOutcomeOf(busy, s, patched);
      && (o.Launched? <==> !busy && Strip(s.sessionCookie) != [] && Strip(s.villageCode) != [] && patched)
      && (busy ==> o == Busy)
      && (o.Launched? ==>
            && |o.args| == (if s.concurrentEnabled then 8 else 6)
            && o.args[..6] == ["--cookie", Strip(s.sessionCookie), "--start", IntToString(s.khewatStart),
                               "--end", IntToString(s.khewatEnd)]
            && (s.concurrentEnabled ==>
                  (o.args[6] == "--workers" && exists w :: 3 <= w <= 8 && o.args[7] == IntToString(w)))
            && o.convertAfter == s.autoConvertPdf)
  {
    var o := StartOutcomeOf(busy, s, patched);
    if o.Launched? && s.concurrentEnabled {
      var w := ClampWorkers(s.concurrentWorkers);
      assert o.args[7] == IntToString(w);
    }
  }

  // ---------------------------------------------------------------------------
  // The window
  // ---------------------------------------------------------------------------

  class JamabandiGui {
    /** The window's variables by setting name. */
    var vars: map<string, Value>
    /** `_scrape_total`: the number of khewats in the running scrape. */
    var scrapeTotal: int
    /** `_scrape_done_count`: the khewats the scraper has reported on. */
    var scrapeDoneCount: int

    /** `__init__`: the defaults, then the saved configuration (`None` for a missing or unparsable file). */
    constructor (saved: Option<Value>)
      ensures vars == LoadedVars(DefaultVars, saved)
      ensures scrapeTotal == 0 && scrapeDoneCount == 0
    {
      vars := DefaultVars;
      scrapeTotal := 0;
      scrapeDoneCount := 0;
      new;
      LoadConfig(saved);
    }

    /** `_load_config`: migrate the old layout in the parsed document, then set every known variable from it. */
    method LoadConfig(doc: Option<Value>)
      modifies this
      ensures vars == LoadedVars(old(vars), doc)
      ensures scrapeTotal == old(scrapeTotal) && scrapeDoneCount == old(scrapeDoneCount)
    {
      if doc.None? || !doc.value.Dict? {
        return;
      }
      var migrated := MigrateLayout(doc.value.entries);
      if migrated.None? {
        return;
      }
      var cfg := migrated.value;
      var updated := vars;
      var todo := cfg.Keys;
      while todo != {}
        invariant todo <= cfg.Keys
        invariant updated.Keys == vars.Keys
        invariant forall k :: k in updated ==> updated[k] == if k in cfg && k !in todo then cfg[k] else vars[k]
        decreases todo
      {
        var key :| key in todo;
        if key in updated {
          updated := updated[key := cfg[key]];
        }
        todo := todo - {key};
      }
      assert updated == Applied(vars, cfg);
      vars := updated;
    }

    /** The counting part of `_parse_progress_line`: a saved file or a missing record adds one. */
    method ParseProgressLine(line: string)
      modifies this
      ensures scrapeDoneCount == old(scrapeDoneCount) + (if CountsAsProcessed(line) then 1 else 0)
      ensures vars == old(vars) && scrapeTotal == old(scrapeTotal)
    {
      if ProgressMatch(line) {
        return;
      }
      if KhewatMatch(line) {
        return;
      }
      if SavedMatch(line) {
        scrapeDoneCount := scrapeDoneCount + 1;
        return;
      }
      if NoRecordMatch(line) {
        scrapeDoneCount := scrapeDoneCount + 1;
        return;
      }
    }

    /**
     * `_start_scraping`: on a launch the progress counters are reset for the
     * range `khewat_start..khewat_end`; a refusal changes nothing.
     */
    method StartScraping(busy: bool, s: ScrapeSettings, patched: bool) returns (outcome: StartOutcome)
      modifies this
      ensures outcome == StartOutcomeOf(busy, s, patched)
      ensures outcome.Launched? ==> scrapeTotal == s.khewatEnd - s.khewatStart + 1 && scrapeDoneCount == 0
      ensures !outcome.Launched? ==> scrapeTotal == old(scrapeTotal) && scrapeDoneCount == old(scrapeDoneCount)
      ensures vars == old(vars)
    {
      if busy {
        return Busy;
      }
      var cookie := Strip(s.sessionCookie);
      if cookie == [] {
        return MissingCookie;
      }
      if Strip(s.villageCode) == [] {
        return MissingVillage;
      }
      if !patched {
        return PatchFailed;
      }
      scrapeTotal := s.khewatEnd - s.khewatStart + 1;
      scrapeDoneCount := 0;
      var cmd := ["--cookie", cookie, "--start", IntToString(s.khewatStart), "--end", IntToString(s.khewatEnd)];
      if s.concurrentEnabled {
        var workers := s.concurrentWorkers;
        workers := if 8 < workers then 8 else workers;
        workers := if 3 > workers then 3 else workers;
        cmd := cmd + ["--workers", IntToString(workers)];
      }
      return Launched(cmd, s.autoConvertPdf);
    }
  }
}
