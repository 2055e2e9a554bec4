/**
 * The change fetcher: the list of changed files of a pull request is filtered
 * down to reviewable text files, their patches are concatenated into one diff
 * text, and an over-long text is truncated. Fetching itself (Octokit) is a
 * function parameter that yields the files or throws.
 */
module GitHubService {
  import opened Wrappers
  import opened Text
  import opened Js
  import opened GitHubTypes

  /** One changed-file record of the listing, with the fields the service reads. */
  datatype ChangedFile = ChangedFile(
    filename: string,
    status: string,
    additions: int,
    deletions: int,
    patch: Option<string>)

  datatype PullRequestDiff = PullRequestDiff(content: string, files: seq<ChangedFile>)

  /** The pull-request record as the host returns it; `body` may be null. */
  datatype PullRequestData = PullRequestData(
    title: string,
    body: Option<string>,
    state: string,
    head: GitRef,
    base: GitRef)

  datatype PullRequestDetails = PullRequestDetails(
    title: string,
    body: string,
    state: string,
    head: GitRef,
    base: GitRef)

  /** The host's file listing for (owner, repo, pull number): one page of files, or a thrown error. */
  type FileLister = (string, string, int) -> Result<seq<ChangedFile>, Exception>

  /** The host's pull-request lookup for (owner, repo, pull number). */
  type PullRequestFetcher = (string, string, int) -> Result<PullRequestData, Exception>

  const MaxFileChanges := 1000
  const MaxDiffLength := 50000
  const TruncationMarker := "\n\n... (diff truncated due to size)"
  const SkipExtensions: seq<string> :=
    [".jpg", ".jpeg", ".png", ".gif", ".svg", ".ico", ".pdf", ".zip", ".tar", ".gz"]
  const ApiErrorPrefix := "GitHub API error: "

  /** Every upstream failure is rethrown as one error kind carrying the cause's message. */
  function ApiError(cause: Exception): (e: Exception)
    ensures e.Error? && StartsWith(e.message, ApiErrorPrefix)
    ensures e.message[|ApiErrorPrefix|..] == MessageOf(cause)
  {
    Error(ApiErrorPrefix + MessageOf(cause))
  }

  // ---------------------------------------------------------------- filtering

  /** The lower-cased name ends in one of the binary-like extensions. */
  predicate HasSkipExtension(filename: string) {
    exists i :: 0 <= i < |SkipExtensions| && EndsWith(ToLower(filename), SkipExtensions[i])
  }

  /** The filter's verdict on one file. */
  predicate IsReviewable(f: ChangedFile) {
    && f.status != "removed"
    && f.additions + f.deletions <= MaxFileChanges
    && !HasSkipExtension(f.filename)
  }

  /** The files kept by the filter, in listing order. */
  function ReviewableFiles(files: seq<ChangedFile>): (kept: seq<ChangedFile>)
    ensures |kept| <= |files|
    ensures forall f :: f in kept ==> f in files && IsReviewable(f)
    ensures forall f :: f in files && IsReviewable(f) ==> f in kept
  {
    if files == [] then []
    else (if IsReviewable(files[0]) then [files[0]] else []) + ReviewableFiles(files[1..])
  }

  /** Filtering a concatenation filters each part: the filter keeps the listing's order. */
  lemma {:induction false} ReviewableFilesAppend(a: seq<ChangedFile>, b: seq<ChangedFile>)
    ensures ReviewableFiles(a + b) == ReviewableFiles(a) + ReviewableFiles(b)
  {
    if a == [] {
      assert a + b == b;
    } else {
      assert (a + b)[0] == a[0];
      assert (a + b)[1..] == a[1..] + b;
      ReviewableFilesAppend(a[1..], b);
    }
  }

  /** The listing positions from `from` on that the filter keeps, in increasing order. */
  function KeptPositions(files: seq<ChangedFile>, from: nat): (idx: seq<nat>)
    requires from <= |files|
    ensures forall k :: 0 <= k < |idx| ==> from <= idx[k] < |files| && IsReviewable(files[idx[k]])
    ensures forall k, l :: 0 <= k < l < |idx| ==> idx[k] < idx[l]
    ensures forall i :: from <= i < |files| && IsReviewable(files[i]) ==> i in idx
    decreases |files| - from
  {
    if from == |files| then []
    else (if IsReviewable(files[from]) then [from] else []) + KeptPositions(files, from + 1)
  }

  /** The kept files from `from` on are exactly the files at the positions kept from `from` on. */
  predicate KeptAt(files: seq<ChangedFile>, from: nat)
    requires from <= |files|
  {
    var kept, idx := ReviewableFiles(files[from..]), KeptPositions(files, from);
    |kept| == |idx| && forall k :: 0 <= k < |idx| ==> kept[k] == files[idx[k]]
  }

  /**
   * The kept files are exactly the files at the kept positions: an
   * order-preserving subsequence of the listing, each record unchanged.
   */
  lemma {:induction false} ReviewableFilesAtKeptPositions(files: seq<ChangedFile>, from: nat)
    requires from <= |files|
    ensures |ReviewableFiles(files[from..])| == |KeptPositions(files, from)|
    ensures forall k :: 0 <= k < |KeptPositions(files, from)| ==>
              ReviewableFiles(files[from..])[k] == files[KeptPositions(files, from)[k]]
    decreases |files| - from
  {
    if from < |files| {
      ReviewableFilesAtKeptPositions(files, from + 1);
      KeptStep(files, from);
    }
  }

  lemma KeptStep(files: seq<ChangedFile>, from: nat)
    requires from < |files| && KeptAt(files, from + 1)
    ensures KeptAt(files, from)
  {
    var suffix := files[from..];
    assert suffix[0] == files[from];
    assert suffix[1..] == files[from + 1..];
    if IsReviewable(files[from]) {
      KeptStepReviewable(files, from);
    }
  }

  lemma KeptStepReviewable(files: seq<ChangedFile>, from: nat)
    requires from < |files| && KeptAt(files, from + 1) && IsReviewable(files[from])
    requires ReviewableFiles(files[from..]) == [files[from]] + ReviewableFiles(files[from + 1..])
    ensures KeptAt(files, from)
  {
    var rest, restIdx := ReviewableFiles(files[from + 1..]), KeptPositions(files, from + 1);
    var kept, idx := [files[from]] + rest, [from] + restIdx;
    forall k | 0 < k < |idx|
      ensures kept[k] == files[idx[k]]
    {
      assert kept[k] == rest[k - 1] && idx[k] == restIdx[k - 1];
    }
  }

  /** A file with exactly 1000 changed lines is still reviewed; one more line and it is dropped. */
  lemma ChangeLimitIsInclusive(f: ChangedFile)
    requires f.status != "removed" && !HasSkipExtension(f.filename)
    ensures f.additions + f.deletions == 1000 ==> IsReviewable(f)
    ensures f.additions + f.deletions == 1001 ==> !IsReviewable(f)
  {
  }

  /** Every denylisted extension is written without upper-case letters. */
  lemma SkipExtensionsAreLowerCase(ext: string)
    requires ext in SkipExtensions
    ensures forall k :: 0 <= k < |ext| ==> !('A' <= ext[k] <= 'Z')
  {
  }

  /**
   * The extension test ignores case: a name that ends in a denylisted
   * extension, with any of its letters in upper case, is dropped.
   */
  lemma {:induction false} SkipExtensionIgnoresCase(name: string, ending: string, ext: string)
    requires ext in SkipExtensions
    requires EndsWith(name, ending) && CaseVariant(ending, ext)
    ensures HasSkipExtension(name)
    ensures forall f: ChangedFile :: f.filename == name ==> !IsReviewable(f)
  {
    SkipExtensionsAreLowerCase(ext);
    LowerOfCaseVariant(ending, ext);
    ToLowerSuffix(name, |ending|);
    var i :| 0 <= i < |SkipExtensions| && SkipExtensions[i] == ext;
    assert EndsWith(ToLower(name), SkipExtensions[i]);
  }

  /** `LOGO.PNG` and `photo.Jpg` are skipped like `logo.png` and `photo.jpg`. */
  lemma UpperCaseImagesAreSkipped()
    ensures HasSkipExtension("LOGO.PNG") && HasSkipExtension("photo.Jpg")
  {
    assert EndsWith("LOGO.PNG", ".PNG") && CaseVariant(".PNG", ".png");
    SkipExtensionIgnoresCase("LOGO.PNG", ".PNG", ".png");
    assert EndsWith("photo.Jpg", ".Jpg") && CaseVariant(".Jpg", ".jpg");
    SkipExtensionIgnoresCase("photo.Jpg", ".Jpg", ".jpg");
  }

  // ------------------------------------------------------------- concatenation

  /** The patch is truthy: present and non-empty. */
  predicate HasPatch(f: ChangedFile) {
    f.patch.Some? && f.patch.value != ""
  }

  /** What one kept file adds to the diff text. */
  function Section(f: ChangedFile): (s: string)
    ensures s == "" <==> !HasPatch(f)
    ensures HasPatch(f) ==> |s| > 1 && s[0] == '\n' && s[1] == '-'
    ensures HasPatch(f) ==>
              && StartsWith(s, "\n--- a/" + f.filename + "\n+++ b/" + f.filename + "\n")
              && EndsWith(s, f.patch.value + "\n")
  {
    if HasPatch(f) then
      var header := "\n--- a/" + f.filename + "\n+++ b/" + f.filename + "\n";
      var tail := f.patch.value + "\n";
      var s := header + tail;
      assert s[..|header|] == header;
      assert s[|s| - |tail|..] == tail;
      assert header[0] == '\n' && header[1] == '-';
      s
    else ""
  }

  /** Appending a file's header and patch piece by piece appends its section. */
  lemma AppendSection(text: string, f: ChangedFile)
    requires HasPatch(f)
    ensures text + "\n--- a/" + f.filename + "\n+++ b/" + f.filename + "\n" + f.patch.value + "\n" == text + Section(f)
  {
  }

  /**
   * The diff text of a list of files, before truncation: their sections in
   * order. Files without a truthy patch add nothing, so the text is empty
   * exactly when no file has one.
   */
  function CombinedDiff(files: seq<ChangedFile>): (s: string)
    ensures s == "" <==> NoPatch(files)
  {
    if files == [] then "" else CombinedDiff(files[..|files| - 1]) + Section(files[|files| - 1])
  }

  /** No file of the list has a truthy patch, read from the end as `CombinedDiff` reads the list. */
  predicate NoPatch(files: seq<ChangedFile>) {
    files == [] || (NoPatch(files[..|files| - 1]) && !HasPatch(files[|files| - 1]))
  }

  /** `NoPatch` says that no file has a truthy patch. */
  lemma {:induction false} NoPatchIffNoFileHasPatch(files: seq<ChangedFile>)
    ensures NoPatch(files) <==> forall k :: 0 <= k < |files| ==> !HasPatch(files[k])
  {
    if files != [] {
      var init := files[..|files| - 1];
      NoPatchIffNoFileHasPatch(init);
      assert forall k :: 0 <= k < |init| ==> init[k] == files[k];
    }
  }

  lemma {:induction false} CombinedDiffAppend(a: seq<ChangedFile>, b: seq<ChangedFile>)
    ensures CombinedDiff(a + b) == CombinedDiff(a) + CombinedDiff(b)
    decreases |b|
  {
    if b == [] {
      assert a + b == a;
    } else {
      var b', last := b[..|b| - 1], b[|b| - 1];
      assert (a + b)[..|a + b| - 1] == a + b';
      assert (a + b)[|a + b| - 1] == last;
      assert CombinedDiff(a + b) == CombinedDiff(a + b') + Section(last);
      CombinedDiffAppend(a, b');
      assert CombinedDiff(b) == CombinedDiff(b') + Section(last);
    }
  }

  /**
   * The text starts with the section of the first file that has a patch, so
   * it starts with a header: a newline, then `-`.
   */
  lemma {:induction false} CombinedDiffWithPatch(files: seq<ChangedFile>, i: nat)
    requires i < |files| && HasPatch(files[i])
    requires forall k :: 0 <= k < i ==> !HasPatch(files[k])
    ensures CombinedDiff(files) == Section(files[i]) + CombinedDiff(files[i + 1..])
    ensures |CombinedDiff(files)| > 1 && CombinedDiff(files)[0] == '\n' && CombinedDiff(files)[1] == '-'
  {
    var before, rest := files[..i], files[i + 1..];
    assert files == before + [files[i]] + rest;
    NoPatchIffNoFileHasPatch(before);
    CombinedDiffAppend(before + [files[i]], rest);
    CombinedDiffAppend(before, [files[i]]);
    assert CombinedDiff([files[i]]) == Section(files[i]) by {
      assert [files[i]][..0] == [];
    }
  }

  /** The text is blank exactly when no file has a truthy patch. */
  lemma CombinedDiffBlankIffNoPatch(files: seq<ChangedFile>)
    ensures IsBlank(CombinedDiff(files)) <==> forall f :: f in files ==> !HasPatch(f)
  {
    if exists f :: f in files && HasPatch(f) {
      var i := FirstPatched(files);
      CombinedDiffWithPatch(files, i);
    } else {
      NoPatchIffNoFileHasPatch(files);
    }
  }

  function FirstPatched(files: seq<ChangedFile>): (i: nat)
    requires exists f :: f in files && HasPatch(f)
    ensures i < |files| && HasPatch(files[i])
    ensures forall k :: 0 <= k < i ==> !HasPatch(files[k])
  {
    if HasPatch(files[0]) then 0
    else
      assert exists f :: f in files[1..] && HasPatch(f) by {
        var f :| f in files && HasPatch(f);
        var j :| 0 <= j < |files| && files[j] == f;
        assert files[1..][j - 1] == f;
      }
      1 + FirstPatched(files[1..])
  }

  // --------------------------------------------------------------- truncation

  /** The size cap: a longer text keeps its first 50,000 characters and gets the marker. */
  function Truncate(content: string): (r: string)
    ensures |content| <= MaxDiffLength ==> r == content
    ensures |content| > MaxDiffLength ==>
              |r| == MaxDiffLength + |TruncationMarker|
              && r[..MaxDiffLength] == content[..MaxDiffLength]
              && r[MaxDiffLength..] == TruncationMarker
    ensures |r| <= MaxDiffLength + |TruncationMarker|
  {
    if |content| > MaxDiffLength then content[..MaxDiffLength] + TruncationMarker else content
  }

  /** Truncation keeps a text blank or non-blank. */
  lemma TruncatedDiffBlankIffNoPatch(files: seq<ChangedFile>)
    ensures IsBlank(Truncate(CombinedDiff(files))) <==> forall f :: f in files ==> !HasPatch(f)
  {
    var c := CombinedDiff(files);
    CombinedDiffBlankIffNoPatch(files);
    if exists f :: f in files && HasPatch(f) {
      CombinedDiffWithPatch(files, FirstPatched(files));
      var t := Truncate(c);
      assert |t| > 1 && t[1] == '-' by {
        assert |c| > 1 && c[1] == '-';
      }
      assert !IsSpace(t[1]);
    } else {
      NoPatchIffNoFileHasPatch(files);
      assert c == "";
    }
  }

  // ------------------------------------------------------------------ results

  /** The diff the service returns for a given listing. */
  function DiffOf(files: seq<ChangedFile>): PullRequestDiff {
    var kept := ReviewableFiles(files);
    PullRequestDiff(Truncate(CombinedDiff(kept)), kept)
  }

  /**
   * What a caller of `getPullRequestDiff` gets: exactly the reviewable files,
   * in listing order and unchanged; a content that is blank exactly when none
   * of them has a patch; and a content no longer than the cap plus the marker.
   */
  lemma DiffOfIsFilteredAndCapped(files: seq<ChangedFile>)
    ensures var d := DiffOf(files);
            && (forall f :: f in d.files ==> f in files && IsReviewable(f))
            && (forall f :: f in files && IsReviewable(f) ==> f in d.files)
            && |d.files| == |KeptPositions(files, 0)|
            && (forall k :: 0 <= k < |d.files| ==> d.files[k] == files[KeptPositions(files, 0)[k]])
            && (IsBlank(d.content) <==> forall f :: f in d.files ==> !HasPatch(f))
            && |d.content| <= MaxDiffLength + |TruncationMarker|
  {
    assert files[0..] == files;
    ReviewableFilesAtKeptPositions(files, 0);
    TruncatedDiffBlankIffNoPatch(ReviewableFiles(files));
  }

  /** The outcome of `getPullRequestDiff` for the listing outcome. */
  function DiffResult(listing: Result<seq<ChangedFile>, Exception>): (r: Result<PullRequestDiff, Exception>)
    ensures r.Ok? <==> listing.Ok?
    ensures listing.Ok? ==> r.value == DiffOf(listing.value)
    ensures listing.Err? ==> r.error == ApiError(listing.error)
  {
    match listing
    case Ok(files) => Ok(DiffOf(files))
    case Err(e) => Err(ApiError(e))
  }

  /** Fetches the changed files and builds the reviewable diff. */
  method GetPullRequestDiff(listFiles: FileLister, owner: string, repo: string, pullNumber: int)
    returns (r: Result<PullRequestDiff, Exception>)
    ensures r == DiffResult(listFiles(owner, repo, pullNumber))
  {
    var listing := listFiles(owner, repo, pullNumber);
    if listing.Err? {
      return Err(ApiError(listing.error));
    }
    var textFiles := ReviewableFiles(listing.value);
    var combinedDiff := "";
    for i := 0 to |textFiles|
      invariant combinedDiff == CombinedDiff(textFiles[..i])
    {
      var file := textFiles[i];
      ghost var before := combinedDiff;
      if file.patch.Some? && file.patch.value != "" {
        combinedDiff := combinedDiff + "\n--- a/" + file.filename + "\n+++ b/" + file.filename + "\n";
        combinedDiff := combinedDiff + file.patch.value + "\n";
      }
      if HasPatch(file) {
        AppendSection(before, file);
      }
      assert combinedDiff == before + Section(file);
      assert textFiles[..i + 1][..i] == textFiles[..i];
      assert CombinedDiff(textFiles[..i + 1]) == CombinedDiff(textFiles[..i]) + Section(file);
    }
    assert textFiles[..|textFiles|] == textFiles;
    if |combinedDiff| > MaxDiffLength {
      combinedDiff := combinedDiff[..MaxDiffLength] + TruncationMarker;
    }
    r := Ok(PullRequestDiff(combinedDiff, textFiles));
  }

  /** The outcome of `getPullRequestDetails`: a null body becomes the empty text. */
  function PullRequestDetailsOf(fetched: Result<PullRequestData, Exception>): (r: Result<PullRequestDetails, Exception>)
    ensures r.Ok? <==> fetched.Ok?
    ensures fetched.Ok? ==>
              && r.value.title == fetched.value.title
              && r.value.state == fetched.value.state
              && r.value.body == fetched.value.body.GetOr("")
              && r.value.head == fetched.value.head && r.value.base == fetched.value.base
    ensures fetched.Err? ==> r.error == ApiError(fetched.error)
  {
    match fetched
    case Ok(data) =>
      Ok(PullRequestDetails(data.title, if data.body.Some? then data.body.value else "", data.state, data.head, data.base))
    case Err(e) => Err(ApiError(e))
  }
}
