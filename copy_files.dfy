/**
 * The key handling of the bucket-to-bucket copy script: which listed object
 * names are copied, where each one goes, and which copy tasks are handed to
 * the worker pool before the script either finishes submitting or stops at
 * the first name it cannot place.
 *
 * The storage client, the thread pool, the progress bar and the timing output
 * are outside the model; the listing arrives as a parameter.
 */
module CopyFiles {
  import opened Wrappers
  import opened Decimal
  import opened PosixPath

  /** The number of destination sub-folders; the script hard-codes it. */
  const SliceCount: nat := 10

  /** The character that ends the numeric prefix of a file name. */
  const PrefixEnd: char := '-'

  /** A listed name ending in '/' marks an empty pseudo-folder, not an object. */
  predicate IsFolderMarker(name: string) {
    |name| > 0 && name[|name| - 1] == Sep
  }

  // ---------------------------------------------------------------- listing

  /** The names `get_files_in_folder` returns: the listed names that are not folder markers, in listing order. */
  function FilterFiles(names: seq<string>): (files: seq<string>)
    ensures |files| <= |names|
    ensures forall k :: 0 <= k < |files| ==> !IsFolderMarker(files[k])
    ensures forall x :: x in files <==> x in names && !IsFolderMarker(x)
  {
    if |names| == 0 then []
    else
      var init := names[..|names| - 1];
      var last := names[|names| - 1];
      FilterFiles(init) + (if IsFolderMarker(last) then [] else [last])
  }

  /** The positions of the listing that hold objects, in increasing order. */
  function KeptPositions(names: seq<string>): (ps: seq<nat>)
    ensures forall k :: 0 <= k < |ps| ==> ps[k] < |names| && !IsFolderMarker(names[ps[k]])
    ensures forall k, l :: 0 <= k < l < |ps| ==> ps[k] < ps[l]
    ensures forall j :: 0 <= j < |names| && !IsFolderMarker(names[j]) ==> j in ps
  {
    if |names| == 0 then []
    else
      var n := |names| - 1;
      KeptPositions(names[..n]) + (if IsFolderMarker(names[n]) then [] else [n])
  }

  /**
   * The filtered listing is exactly the listing read at the object positions:
   * every non-marker name once, in its original relative order.
   */
  lemma {:induction false} FilterSelectsKeptPositions(names: seq<string>)
    ensures |FilterFiles(names)| == |KeptPositions(names)|
    ensures forall k :: 0 <= k < |FilterFiles(names)| ==>
      FilterFiles(names)[k] == names[KeptPositions(names)[k]]
  {
    if |names| > 0 {
      var n := |names| - 1;
      var init := names[..n];
      FilterSelectsKeptPositions(init);
      var files, positions := FilterFiles(init), KeptPositions(init);
      if IsFolderMarker(names[n]) {
        assert FilterFiles(names) == files && KeptPositions(names) == positions;
      } else {
        assert FilterFiles(names) == files + [names[n]];
        assert KeptPositions(names) == positions + [n];
        forall k | 0 <= k < |files|
          ensures (files + [names[n]])[k] == names[(positions + [n])[k]]
        {
          assert files[k] == init[positions[k]];
        }
      }
    }
  }

  /** Filtering a filtered listing changes nothing. */
  lemma {:induction false} FilterIdempotent(names: seq<string>)
    ensures FilterFiles(FilterFiles(names)) == FilterFiles(names)
  {
    if |names| > 0 {
      var n := |names| - 1;
      var init := FilterFiles(names[..n]);
      FilterIdempotent(names[..n]);
      if IsFolderMarker(names[n]) {
        assert FilterFiles(names) == init;
      } else {
        var files := init + [names[n]];
        assert FilterFiles(names) == files;
        assert files[..|files| - 1] == init;
        assert FilterFiles(files) == FilterFiles(init) + [names[n]];
      }
    }
  }

  // ------------------------------------------------------ destination keys

  /** `text.split('-')[0]`: the first '-'-separated field of `text`. */
  function LeadingToken(text: string): (t: string)
    ensures PrefixEnd !in t
    ensures |t| <= |text|
  {
    if |text| == 0 || text[0] == PrefixEnd then ""
    else [text[0]] + LeadingToken(text[1..])
  }

  /** The token is the text before the first '-', all of it when there is none. */
  lemma {:induction false} LeadingTokenIsFirstField(text: string)
    ensures var t := LeadingToken(text);
      && t == text[..|t|]
      && (|t| < |text| ==> text[|t|] == PrefixEnd)
  {
    if |text| > 0 && text[0] != PrefixEnd {
      LeadingTokenIsFirstField(text[1..]);
    }
  }

  /** When the first '-' of `text` is at position `k`, the token is the `k` characters before it. */
  lemma LeadingTokenAt(text: string, k: nat)
    requires k < |text| && text[k] == PrefixEnd
    requires forall j :: 0 <= j < k ==> text[j] != PrefixEnd
    ensures LeadingToken(text) == text[..k]
  {
    LeadingTokenIsFirstField(text);
  }

  /** Raised by `int()` on a leading token that is not a numeral. */
  datatype DeriveError = InvalidLiteral(token: string)

  /** The numeric prefix of a key's file name: the basename up to its first '-'. */
  function NumericPrefix(key: string): string {
    LeadingToken(Basename(key))
  }

  /** The slice a key is copied into: its numeric prefix modulo 10. */
  function SliceIndex(key: string): (r: Result<nat, DeriveError>)
    ensures r.Ok? <==> IsNumeral(NumericPrefix(key))
    ensures r.Err? ==> r.error == InvalidLiteral(NumericPrefix(key))
    ensures r.Ok? ==> r.value < SliceCount
    ensures r.Ok? ==> r.value == Parse(NumericPrefix(key)).value % SliceCount
    ensures r.Ok? ==> r.value == DigitValue(NumericPrefix(key)[|NumericPrefix(key)| - 1])
  {
    var token := NumericPrefix(key);
    match Parse(token)
    case None => Err(InvalidLiteral(token))
    case Some(v) => Ok(v % SliceCount)
  }

  /**
   * The destination key of one source key: the slice folder is formatted as
   * `destinationDirectory + "/" + str(slice) + "/"` and the source basename is
   * joined onto it.
   */
  function DestinationKey(destinationDirectory: string, key: string): (r: Result<string, DeriveError>)
    ensures r.Ok? <==> SliceIndex(key).Ok?
    ensures r.Err? ==> r.error == SliceIndex(key).error
  {
    match SliceIndex(key)
    case Err(e) => Err(e)
    case Ok(slice) => Ok(Join(destinationDirectory + "/" + Show(slice) + "/", Basename(key)))
  }

  /**
   * A derived destination is the directory, a '/', the one-digit slice, a '/',
   * and the source's basename, with no separator added or removed.
   */
  lemma DestinationLayout(destinationDirectory: string, key: string)
    requires DestinationKey(destinationDirectory, key).Ok?
    ensures DestinationKey(destinationDirectory, key).value ==
      destinationDirectory + "/" + [DigitChar(SliceIndex(key).value)] + "/" + Basename(key)
  {
  }

  /** The copy keeps the source's file name: both keys have the same basename. */
  lemma DestinationKeepsName(destinationDirectory: string, key: string)
    requires DestinationKey(destinationDirectory, key).Ok?
    ensures Basename(DestinationKey(destinationDirectory, key).value) == Basename(key)
  {
    DestinationLayout(destinationDirectory, key);
    var folder := destinationDirectory + "/" + [DigitChar(SliceIndex(key).value)] + "/";
    BasenameAfterDirectory(folder, Basename(key));
    BasenameOfPlainName(Basename(key));
  }

  /** Deriving again from the destination key lands in the same slice. */
  lemma RederiveSameSlice(destinationDirectory: string, key: string)
    requires DestinationKey(destinationDirectory, key).Ok?
    ensures SliceIndex(DestinationKey(destinationDirectory, key).value) == SliceIndex(key)
  {
    DestinationKeepsName(destinationDirectory, key);
  }

  /**
   * Slicing introduces no collisions of its own: two placeable keys get the
   * same destination exactly when their basenames agree.
   */
  lemma DestinationCollision(destinationDirectory: string, key1: string, key2: string)
    requires DestinationKey(destinationDirectory, key1).Ok?
    requires DestinationKey(destinationDirectory, key2).Ok?
    ensures DestinationKey(destinationDirectory, key1) == DestinationKey(destinationDirectory, key2)
      <==> Basename(key1) == Basename(key2)
  {
    DestinationKeepsName(destinationDirectory, key1);
    DestinationKeepsName(destinationDirectory, key2);
  }

  // ------------------------------------------------------------ copy tasks

  /** The arguments one `copy_file` call is submitted with. */
  datatype CopyTask = CopyTask(
    sourceBucket: string,
    sourceKey: string,
    destinationBucket: string,
    destinationKey: string)

  /**
   * What the submitting loop leaves behind: the tasks handed to the pool, and
   * the error that stopped it, if any.  Tasks submitted before the error still
   * run, because leaving the pool's `with` block waits for them.
   */
  datatype Submission = Submission(tasks: seq<CopyTask>, failure: Option<DeriveError>)

  /** The derivation the loop applies to each file, for one destination directory. */
  function Deriver(destinationDirectory: string): string -> Result<string, DeriveError> {
    key => DestinationKey(destinationDirectory, key)
  }

  /**
   * The submission for `files` when each key's destination comes from
   * `derive`, stated one file at a time from the end.
   */
  function Submitted(
    sourceBucket: string, destinationBucket: string, derive: string -> Result<string, DeriveError>, files: seq<string>
  ): Submission
  {
    if |files| == 0 then Submission([], None)
    else
      Extend(Submitted(sourceBucket, destinationBucket, derive, files[..|files| - 1]),
             sourceBucket, destinationBucket, derive, files[|files| - 1])
  }

  /** One turn of the loop: after a failure nothing more is submitted. */
  function Extend(
    before: Submission, sourceBucket: string, destinationBucket: string,
    derive: string -> Result<string, DeriveError>, key: string
  ): Submission
  {
    if before.failure.Some? then before
    else
      match derive(key)
      case Err(e) => Submission(before.tasks, Some(e))
      case Ok(destinationKey) =>
        Submission(before.tasks + [CopyTask(sourceBucket, key, destinationBucket, destinationKey)], None)
  }

  /**
   * The submission holds one task per file, in order, up to the first file
   * whose destination cannot be derived; that file's error is the failure.
   * Without a failure every file has exactly one task.
   */
  lemma {:induction false} SubmittedTasks(
    sourceBucket: string, destinationBucket: string, derive: string -> Result<string, DeriveError>, files: seq<string>
  )
    ensures var s := Submitted(sourceBucket, destinationBucket, derive, files);
      && |s.tasks| <= |files|
      && (forall i :: 0 <= i < |s.tasks| ==>
            derive(files[i]).Ok? &&
            s.tasks[i] == CopyTask(sourceBucket, files[i], destinationBucket, derive(files[i]).value))
      && (s.failure.None? <==> |s.tasks| == |files|)
      && (s.failure.Some? ==> derive(files[|s.tasks|]) == Err(s.failure.value))
      && (s.failure.None? <==> forall i :: 0 <= i < |files| ==> derive(files[i]).Ok?)
  {
    if |files| > 0 {
      var n := |files| - 1;
      var init := files[..n];
      SubmittedTasks(sourceBucket, destinationBucket, derive, init);
      assert forall i :: 0 <= i < n ==> init[i] == files[i];
    }
  }

  /**
   * The loop of `main`: derive each file's destination in listing order and
   * append its task, stopping at the first file whose prefix is not a numeral.
   */
  method SubmitCopies(
    sourceBucket: string, destinationBucket: string, destinationDirectory: string, files: seq<string>
  ) returns (s: Submission)
    ensures s == Submitted(sourceBucket, destinationBucket, Deriver(destinationDirectory), files)
  {
    ghost var derive := Deriver(destinationDirectory);
    var tasks: seq<CopyTask> := [];
    var i := 0;
    while i < |files|
      invariant 0 <= i <= |files|
      invariant Submitted(sourceBucket, destinationBucket, derive, files[..i]) == Submission(tasks, None)
    {
      assert files[..i + 1][..i] == files[..i];
      match DestinationKey(destinationDirectory, files[i])
      case Err(e) =>
        SubmittedAfterFailure(sourceBucket, destinationBucket, derive, files, i + 1);
        return Submission(tasks, Some(e));
      case Ok(destinationKey) =>
        tasks := tasks + [CopyTask(sourceBucket, files[i], destinationBucket, destinationKey)];
      i := i + 1;
    }
    assert files[..i] == files;
    s := Submission(tasks, None);
  }

  /** Once a prefix of the files has failed, the files after it change nothing. */
  lemma {:induction false} SubmittedAfterFailure(
    sourceBucket: string, destinationBucket: string, derive: string -> Result<string, DeriveError>,
    files: seq<string>, m: nat
  )
    requires m <= |files|
    requires Submitted(sourceBucket, destinationBucket, derive, files[..m]).failure.Some?
    ensures Submitted(sourceBucket, destinationBucket, derive, files)
      == Submitted(sourceBucket, destinationBucket, derive, files[..m])
  {
    if m < |files| {
      var n := |files| - 1;
      assert files[..n][..m] == files[..m];
      SubmittedAfterFailure(sourceBucket, destinationBucket, derive, files[..n], m);
    } else {
      assert files[..m] == files;
    }
  }

  /**
   * `main` without its I/O: filter the listing, then submit one task per
   * remaining name.  Every submitted task copies a listed object (never a
   * folder marker) from the source bucket into the destination bucket.
   */
  method CopyFolder(
    sourceBucket: string, listing: seq<string>, destinationBucket: string, destinationDirectory: string
  ) returns (s: Submission)
    ensures s == Submitted(sourceBucket, destinationBucket, Deriver(destinationDirectory), FilterFiles(listing))
    ensures forall t :: t in s.tasks ==>
      && t.sourceBucket == sourceBucket && t.destinationBucket == destinationBucket
      && t.sourceKey in listing && !IsFolderMarker(t.sourceKey)
      && DestinationKey(destinationDirectory, t.sourceKey) == Ok(t.destinationKey)
    ensures s.failure.None? ==> |s.tasks| == |FilterFiles(listing)|
  {
    var files := FilterFiles(listing);
    s := SubmitCopies(sourceBucket, destinationBucket, destinationDirectory, files);
    SubmittedTasks(sourceBucket, destinationBucket, Deriver(destinationDirectory), files);
  }

  /** An empty listing submits nothing and completes without error. */
  lemma EmptyListing(sourceBucket: string, destinationBucket: string, destinationDirectory: string)
    ensures Submitted(sourceBucket, destinationBucket, Deriver(destinationDirectory), FilterFiles([])) == Submission([], None)
  {
  }
}
