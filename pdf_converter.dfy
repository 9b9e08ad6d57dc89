/**
 * The batch converter: the round-robin split of the work list into one batch
 * per worker, a worker's pass over its batch (the HTML-to-PDF conversion
 * itself is a parameter), and the selection of the pairs to convert.
 */
module PdfConverter {

  // ---------------------------------------------------------------------------
  // Round-robin batches
  // ---------------------------------------------------------------------------

  /** The total number of items in a list of batches. */
  function TotalLen<T>(batches: seq<seq<T>>): nat {
    if batches == [] then 0 else TotalLen(batches[..|batches| - 1]) + |batches[|batches| - 1]|
  }

  /** Appending to one batch adds one to the total. */
  lemma {:induction false} TotalLenAppend<T>(batches: seq<seq<T>>, b: nat, x: T)
    requires b < |batches|
    ensures TotalLen(batches[b := batches[b] + [x]]) == TotalLen(batches) + 1
    decreases |batches|
  {
    var u := batches[b := batches[b] + [x]];
    var last := |batches| - 1;
    assert u[..last] == if b < last then batches[..last][b := batches[b] + [x]] else batches[..last];
    if b < last {
      TotalLenAppend(batches[..last], b, x);
    }
  }

  /** `n` empty batches hold nothing. */
  lemma {:induction false} TotalLenEmpty<T>(n: nat)
    ensures TotalLen(seq<seq<T>>(n, _ => [])) == 0
  {
    if n > 0 {
      assert seq<seq<T>>(n, _ => [])[..n - 1] == seq<seq<T>>(n - 1, _ => []);
      TotalLenEmpty<T>(n - 1);
    }
  }

  /** A positive multiple of `n` is at least `n`. */
  lemma {:induction false} MulAtLeast(a: int, n: int)
    requires a >= 1 && n > 0
    ensures a * n >= n
    decreases a
  {
    if a > 1 {
      MulAtLeast(a - 1, n);
      assert a * n == (a - 1) * n + n;
    }
  }

  /** Quotient and remainder are the unique `q`, `r` with `k == q * n + r` and `0 <= r < n`. */
  lemma DivModUnique(k: int, n: int, q: int, r: int)
    requires n > 0 && 0 <= r < n && k == q * n + r
    ensures k / n == q && k % n == r
  {
    var q', r' := k / n, k % n;
    assert k == q' * n + r';
    assert (q - q') * n == r' - r;
    if q > q' {
      MulAtLeast(q - q', n);
    } else if q' > q {
      MulAtLeast(q' - q, n);
    }
  }

  /** The remainder and quotient of `k + 1` from those of `k`. */
  lemma DivModNext(k: nat, n: nat)
    requires n > 0
    ensures k % n + 1 < n ==> (k + 1) % n == k % n + 1 && (k + 1) / n == k / n
    ensures k % n + 1 == n ==> (k + 1) % n == 0 && (k + 1) / n == k / n + 1
  {
    var q, r := k / n, k % n;
    assert k == q * n + r;
    if r + 1 < n {
      DivModUnique(k + 1, n, q, r + 1);
    } else {
      assert k + 1 == (q + 1) * n + 0;
      DivModUnique(k + 1, n, q + 1, 0);
    }
  }

  /** The first `idx` items sit at their round-robin places: item `i` at position `i / n` of batch `i % n`. */
  ghost predicate Placed<T>(items: seq<T>, n: int, idx: nat, batches: seq<seq<T>>) {
    n > 0 && |batches| == n && idx <= |items|
    && forall i :: 0 <= i < idx ==> i / n < |batches[i % n]| && batches[i % n][i / n] == items[i]
  }

  /** Every batch holds `q` items, the first `r` of them one more. */
  predicate Sized<T>(n: int, q: int, r: int, batches: seq<seq<T>>) {
    |batches| == n && forall b :: 0 <= b < n ==> |batches[b]| == q + (if b < r then 1 else 0)
  }

  /** Appending item `idx` to batch `idx % n` places it and keeps the earlier items where they were. */
  lemma PlacedStep<T>(items: seq<T>, n: int, idx: nat, batches: seq<seq<T>>)
    requires Placed(items, n, idx, batches) && idx < |items|
    requires Sized(n, idx / n, idx % n, batches)
    ensures Placed(items, n, idx + 1, batches[idx % n := batches[idx % n] + [items[idx]]])
  {
    var b' := batches[idx % n := batches[idx % n] + [items[idx]]];
    assert |batches[idx % n]| == idx / n;
    forall i | 0 <= i < idx + 1
      ensures i / n < |b'[i % n]| && b'[i % n][i / n] == items[i]
    {
      if i < idx && i % n == idx % n {
        assert b'[i % n][i / n] == batches[i % n][i / n];
      }
    }
  }

  /** Appending to batch `r` moves the size pattern one batch on, to the next round after the last batch. */
  lemma SizedStep<T>(n: int, q: int, r: int, batches: seq<seq<T>>, x: T)
    requires Sized(n, q, r, batches) && 0 <= r < n
    ensures r + 1 < n ==> Sized(n, q, r + 1, batches[r := batches[r] + [x]])
    ensures r + 1 == n ==> Sized(n, q + 1, 0, batches[r := batches[r] + [x]])
  {
  }

  /**
   * `split_into_batches(items, n)`: for `n <= 0` the whole list as one batch;
   * otherwise exactly `n` batches, item `i` going to batch `i % n` at position
   * `i / n`, so the batches keep the items' order, together hold every item
   * once, and their sizes differ by at most one (the first `len % n` batches
   * have one more).
   */
  method SplitIntoBatches<T>(items: seq<T>, n: int) returns (batches: seq<seq<T>>)
    ensures n <= 0 ==> batches == [items]
    ensures n > 0 ==> |batches| == n
    ensures n > 0 ==> forall i :: 0 <= i < |items| ==>
                        i / n < |batches[i % n]| && batches[i % n][i / n] == items[i]
    ensures n > 0 ==> forall b :: 0 <= b < n ==>
                        |batches[b]| == |items| / n + (if b < |items| % n then 1 else 0)
    ensures n > 0 ==> TotalLen(batches) == |items|
  {
    if n <= 0 {
      return [items];
    }
    batches := seq(n, _ => []);
    TotalLenEmpty<T>(n);
    var idx := 0;
    ghost var q, r := 0, 0;
    while idx < |items|
      invariant 0 <= r < n && q == idx / n && r == idx % n
      invariant Placed(items, n, idx, batches) && Sized(n, q, r, batches)
      invariant TotalLen(batches) == idx
    {
      TotalLenAppend(batches, idx % n, items[idx]);
      PlacedStep(items, n, idx, batches);
      SizedStep(n, q, r, batches, items[idx]);
      batches := batches[idx % n := batches[idx % n] + [items[idx]]];
      DivModNext(idx, n);
      if r + 1 < n {
        r := r + 1;
      } else {
        q, r := q + 1, 0;
      }
      idx := idx + 1;
    }
  }

  /** Batch sizes given by the split's formula differ by at most one, and batches past the item count are empty. */
  lemma BalancedSizes(len: nat, n: nat, b: nat, c: nat)
    requires n > 0 && b < n && c < n
    ensures var size := (b': nat) => len / n + (if b' < len % n then 1 else 0);
      -1 <= size(b) - size(c) <= 1 && (n > len && b >= len ==> size(b) == 0)
  {
    if n > len {
      assert len / n == 0 && len % n == len;
    }
  }

  // ---------------------------------------------------------------------------
  // One worker's batch
  // ---------------------------------------------------------------------------

  /** An `(html_path, pdf_path)` pair. */
  type FilePair = (string, string)

  /** The dictionary `process_batch` returns, plus the HTML files it removes. */
  datatype BatchResult = BatchResult(
    workerId: int,
    successCount: nat,
    failCount: nat,
    failedFiles: seq<string>,
    deleted: seq<string>)

  /** The HTML paths of the pairs whose conversion failed, in order. */
  function FailedFiles(pairs: seq<FilePair>, convert: FilePair -> bool): seq<string> {
    if pairs == [] then []
    else FailedFiles(pairs[..|pairs| - 1], convert)
         + (if convert(pairs[|pairs| - 1]) then [] else [pairs[|pairs| - 1].0])
  }

  /** The HTML paths of the pairs that converted, in order. */
  function ConvertedFiles(pairs: seq<FilePair>, convert: FilePair -> bool): seq<string> {
    if pairs == [] then []
    else ConvertedFiles(pairs[..|pairs| - 1], convert)
         + (if convert(pairs[|pairs| - 1]) then [pairs[|pairs| - 1].0] else [])
  }

  /**
   * `process_batch`: every pair is converted in turn; successes are counted
   * (and their HTML deleted when `delete_html` is set), failures are counted
   * and listed. `convert` is the outcome of converting each pair.
   */
  method ProcessBatch(workerId: int, pairs: seq<FilePair>, convert: FilePair -> bool, deleteHtml: bool)
    returns (result: BatchResult)
    ensures result.workerId == workerId
    ensures result.failedFiles == FailedFiles(pairs, convert) && result.failCount == |result.failedFiles|
    ensures result.successCount == |ConvertedFiles(pairs, convert)|
    ensures result.deleted == if deleteHtml then ConvertedFiles(pairs, convert) else []
  {
    var successCount := 0;
    var failCount := 0;
    var failedFiles := [];
    var deleted := [];
    for i := 0 to |pairs|
      invariant failedFiles == FailedFiles(pairs[..i], convert) && failCount == |failedFiles|
      invariant successCount == |ConvertedFiles(pairs[..i], convert)|
      invariant deleted == if deleteHtml then ConvertedFiles(pairs[..i], convert) else []
    {
      assert pairs[..i + 1][..i] == pairs[..i];
      var htmlPath := pairs[i].0;
      var ok := convert(pairs[i]);
      if ok {
        successCount := successCount + 1;
        if deleteHtml {
          deleted := deleted + [htmlPath];
        }
      } else {
        failCount := failCount + 1;
        failedFiles := failedFiles + [htmlPath];
      }
    }
    assert pairs[..|pairs|] == pairs;
    return BatchResult(workerId, successCount, failCount, failedFiles, deleted);
  }

  /** Every pair is either converted or failed: the two counts add up to the batch size. */
  lemma {:induction false} CountsCoverBatch(pairs: seq<FilePair>, convert: FilePair -> bool)
    ensures |ConvertedFiles(pairs, convert)| + |FailedFiles(pairs, convert)| == |pairs|
  {
    if pairs != [] {
      CountsCoverBatch(pairs[..|pairs| - 1], convert);
    }
  }

  /** A file is listed as failed exactly when some pair with that HTML path failed to convert. */
  lemma {:induction false} FailedFilesMeaning(pairs: seq<FilePair>, convert: FilePair -> bool, h: string)
    ensures h in FailedFiles(pairs, convert) <==> exists p :: p in pairs && p.0 == h && !convert(p)
  {
    if pairs != [] {
      var init, last := pairs[..|pairs| - 1], pairs[|pairs| - 1];
      FailedFilesMeaning(init, convert, h);
      assert pairs == init + [last];
      assert forall p :: p in pairs <==> p in init || p == last;
    }
  }

  // ---------------------------------------------------------------------------
  // Choosing the work in `main`
  // ---------------------------------------------------------------------------

  /** An input HTML file: its path and its stem (the file name without `.html`). */
  datatype HtmlFile = HtmlFile(path: string, stem: string)

  /** The PDF written for a file: `output_dir / (stem + ".pdf")`. */
  function PdfPathFor(outputDir: string, stem: string): string {
    outputDir + "/" + stem + ".pdf"
  }

  /** The pairs still to convert: with `skip_existing`, those whose PDF already exists are dropped. */
  function Kept(files: seq<HtmlFile>, outputDir: string, skipExisting: bool, exists_: string -> bool): seq<FilePair> {
    if files == [] then []
    else
      var init := Kept(files[..|files| - 1], outputDir, skipExisting, exists_);
      var f := files[|files| - 1];
      var pdf := PdfPathFor(outputDir, f.stem);
      if skipExisting && exists_(pdf) then init else init + [(f.path, pdf)]
  }

  /** How many files already have their PDF on disk. */
  function ExistingCount(files: seq<HtmlFile>, outputDir: string, exists_: string -> bool): (n: nat)
    ensures n <= |files|
  {
    if files == [] then 0
    else ExistingCount(files[..|files| - 1], outputDir, exists_)
         + (if exists_(PdfPathFor(outputDir, files[|files| - 1].stem)) then 1 else 0)
  }

  /**
   * The pair-building loop of `main`: the pairs kept and the number skipped.
   * `exists_` says which paths already exist on disk.
   */
  method BuildPairs(files: seq<HtmlFile>, outputDir: string, skipExisting: bool, exists_: string -> bool)
    returns (pairs: seq<FilePair>, skipped: nat)
    ensures pairs == Kept(files, outputDir, skipExisting, exists_)
    ensures skipped + |pairs| == |files|
    ensures skipped == if skipExisting then ExistingCount(files, outputDir, exists_) else 0
  {
    pairs := [];
    skipped := 0;
    for i := 0 to |files|
      invariant pairs == Kept(files[..i], outputDir, skipExisting, exists_)
      invariant skipped + |pairs| == i
      invariant skipped == if skipExisting then ExistingCount(files[..i], outputDir, exists_) else 0
    {
      assert files[..i + 1][..i] == files[..i];
      var pdfPath := PdfPathFor(outputDir, files[i].stem);
      if skipExisting && exists_(pdfPath) {
        skipped := skipped + 1;
        continue;
      }
      pairs := pairs + [(files[i].path, pdfPath)];
    }
    assert files[..|files|] == files;
  }

  /** Without `skip_existing` every file is converted, pair `i` coming from file `i`. */
  lemma {:induction false} KeptAll(files: seq<HtmlFile>, outputDir: string, exists_: string -> bool)
    ensures |Kept(files, outputDir, false, exists_)| == |files|
    ensures forall i :: 0 <= i < |files| ==>
              Kept(files, outputDir, false, exists_)[i] == (files[i].path, PdfPathFor(outputDir, files[i].stem))
  {
    if files != [] {
      var init := files[..|files| - 1];
      KeptAll(init, outputDir, exists_);
      forall i | 0 <= i < |init| ensures init[i] == files[i] { }
    }
  }

  /** Every kept pair comes from a file, and with `skip_existing` its PDF does not exist. */
  lemma {:induction false} KeptSound(files: seq<HtmlFile>, outputDir: string, skipExisting: bool, exists_: string -> bool)
    ensures skipExisting ==> forall p :: p in Kept(files, outputDir, skipExisting, exists_) ==> !exists_(p.1)
    ensures forall p :: p in Kept(files, outputDir, skipExisting, exists_) ==>
              exists f :: f in files && p == (f.path, PdfPathFor(outputDir, f.stem))
  {
    if files != [] {
      var init := files[..|files| - 1];
      KeptSound(init, outputDir, skipExisting, exists_);
      assert forall f :: f in init ==> f in files;
    }
  }

  /** Every file whose PDF is not skipped is kept. */
  lemma {:induction false} KeptComplete(files: seq<HtmlFile>, outputDir: string, skipExisting: bool, exists_: string -> bool)
    ensures forall f :: f in files && !(skipExisting && exists_(PdfPathFor(outputDir, f.stem))) ==>
              (f.path, PdfPathFor(outputDir, f.stem)) in Kept(files, outputDir, skipExisting, exists_)
  {
    if files != [] {
      var init := files[..|files| - 1];
      KeptComplete(init, outputDir, skipExisting, exists_);
      assert files == init + [files[|files| - 1]];
      assert forall f :: f in files ==> f in init || f == files[|files| - 1];
    }
  }

  /**
   * The pairs `main` converts: without `skip_existing` one per file in order;
   * with it exactly the files whose PDF does not yet exist.
   */
  lemma KeptMeaning(files: seq<HtmlFile>, outputDir: string, skipExisting: bool, exists_: string -> bool)
    ensures !skipExisting ==> |Kept(files, outputDir, skipExisting, exists_)| == |files|
    ensures !skipExisting ==> forall i :: 0 <= i < |files| ==>
              Kept(files, outputDir, skipExisting, exists_)[i] == (files[i].path, PdfPathFor(outputDir, files[i].stem))
    ensures skipExisting ==> forall p :: p in Kept(files, outputDir, skipExisting, exists_) ==> !exists_(p.1)
    ensures forall p :: p in Kept(files, outputDir, skipExisting, exists_) ==>
              exists f :: f in files && p == (f.path, PdfPathFor(outputDir, f.stem))
    ensures forall f :: f in files && !(skipExisting && exists_(PdfPathFor(outputDir, f.stem))) ==>
              (f.path, PdfPathFor(outputDir, f.stem)) in Kept(files, outputDir, skipExisting, exists_)
  {
    if !skipExisting {
      KeptAll(files, outputDir, exists_);
    }
    KeptSound(files, outputDir, skipExisting, exists_);
    KeptComplete(files, outputDir, skipExisting, exists_);
  }

  /** `num_workers = min(workers, total_files)`: no more workers than files. */
  function WorkerCount(requested: int, total: nat): (w: int)
    ensures w <= total && w <= requested && (w == requested || w == total)
  {
    if requested < total then requested else total
  }
}
