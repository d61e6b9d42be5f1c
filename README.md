# Slicing copy between storage buckets — key handling

This project models the key handling of `testcli/copy_files_from_a_to_b.py`.
That script copies every object under a source prefix of one cloud storage
bucket into a destination bucket, spreading the copies over ten numbered
sub-folders. The sub-folder is the numeric prefix of the file name, taken
modulo 10.

Three pieces are modelled:

- **Listing filter** (`get_files_in_folder`). The listed object names arrive
  as a parameter. Names ending in `/` are folder markers and are dropped. The
  rest keep their order. Module `CopyFiles`, `FilterFiles`.
- **Destination-key derivation** (the two assignments in `main`). The file
  name is `os.path.basename` of the key. The numeric prefix is the file name
  up to its first `-`, read with `int()`. The slice is that value modulo 10.
  The destination is `destination_directory + "/" + str(slice) + "/"` with
  `os.path.join` adding the file name. Modules `PosixPath` (`basename`,
  `join`), `Decimal` (`int()`, `str()`) and `CopyFiles`
  (`LeadingToken`, `SliceIndex`, `DestinationKey`).
- **Task submission** (the `for` loop in `main`). Files are walked in listing
  order, and one `(source bucket, source key, destination bucket, destination
  key)` task is submitted per file. The walk stops at the first file whose
  prefix is not a numeral. `SubmitCopies` is the loop as a method. It is proved
  equal to the specification function `Submitted`, whose properties are
  lemmas. `CopyFolder` is `main` without its I/O.

A run that stops is modelled as a `Submission`. It holds the tasks already
handed to the pool together with the error. The error is raised inside the
pool's `with` block, and leaving that block waits for submitted work. So the
files before the bad one are still copied, and the error then propagates.

Module `Scenarios` works through concrete keys. It covers the timestamp
example (`1700000005-b.txt` goes to `<destination directory>/5/…`). It shows that a `-`-less name
keeps its extension in the prefix, and that a word prefix or an empty prefix
is an error. It also covers a trailing `/` on the destination directory and
a listing whose third entry stops the loop.

Three details of the script are easy to misread; the model follows the code:

- The modulus is the constant 10 (`SliceCount`). The script has no slice-count
  parameter.
- The destination is built by string formatting plus `os.path.join` onto a
  folder that already ends in `/`. That is plain concatenation, so a trailing
  `/` on the destination directory is kept and gives `//`
  (`Scenarios.TrailingSlashKept`). Nothing normalises it.
- `int()` is narrowed to non-empty strings of the ASCII digits `0`–`9`.
  Python also accepts surrounding whitespace, a sign, `_` separators and
  non-ASCII digits. Here those are errors. In the other direction, the
  model has no limit on the number of digits (see "## Left out"). The
  token is cut at the first `-`, so it never carries a minus sign and the
  value is never negative. Dafny's `%` and Python's `%` therefore agree.

## Model

| member | source | states |
|---|---|---|
| CopyFiles.FilterFiles | testcli/copy_files_from_a_to_b.py:34 | the kept names are never more than the listed ones, none ends in `/`, and a name is kept exactly when it is listed and does not end in `/` |
| CopyFiles.FilterSelectsKeptPositions | testcli/copy_files_from_a_to_b.py:34 | the filtered listing is the listing read at the increasing positions of its non-marker names, so each object appears once and in listing order |
| CopyFiles.FilterIdempotent | testcli/copy_files_from_a_to_b.py:34 | filtering an already filtered listing changes nothing |
| PosixPath.Basename | testcli/copy_files_from_a_to_b.py:53-54 | the file name of a key contains no `/` and is no longer than the key |
| PosixPath.BasenameIsLastComponent | testcli/copy_files_from_a_to_b.py:53-54 | the file name is a suffix of the key, and either it is the whole key or a `/` stands right before it (the text after the last `/`) |
| PosixPath.BasenameOfPlainName | testcli/copy_files_from_a_to_b.py:53-54 | a key with no `/` is its own file name |
| PosixPath.BasenameAfterDirectory | testcli/copy_files_from_a_to_b.py:54 | text placed after a prefix that is empty or ends in `/` keeps its own file name |
| PosixPath.Join | testcli/copy_files_from_a_to_b.py:54 | a name starting with `/` replaces the directory; otherwise the result is the directory, then one added `/` exactly when the directory is non-empty and does not end in `/`, then the name |
| PosixPath.JoinKeepsBasename | testcli/copy_files_from_a_to_b.py:54 | joining any name onto any directory keeps the name's file name |
| CopyFiles.LeadingToken | testcli/copy_files_from_a_to_b.py:53 | the first `-`-separated field contains no `-` and is no longer than the text |
| CopyFiles.LeadingTokenIsFirstField | testcli/copy_files_from_a_to_b.py:53 | the field is a prefix of the text, followed by a `-` unless it is the whole text |
| CopyFiles.LeadingTokenAt | testcli/copy_files_from_a_to_b.py:53 | when the first `-` is at position k, the field is the k characters before it |
| Decimal.Parse | testcli/copy_files_from_a_to_b.py:53 | `int()` succeeds exactly on non-empty digit strings, and the value modulo 10 is the last digit |
| Decimal.Show | testcli/copy_files_from_a_to_b.py:53 | `str()` of a natural number is a digit string with no leading zero, a single digit below 10 |
| Decimal.ParseShow | testcli/copy_files_from_a_to_b.py:53 | `int(str(n)) == n` |
| CopyFiles.SliceIndex | testcli/copy_files_from_a_to_b.py:53 | the slice exists exactly when the file name's text before the first `-` is a numeral; it is that number mod 10, hence its last digit, and lies in 0..9; otherwise the error names the token |
| CopyFiles.DestinationKey | testcli/copy_files_from_a_to_b.py:53-54 | a destination is produced exactly when the slice is; otherwise the slice's parse error is returned and nothing else |
| CopyFiles.DestinationLayout | testcli/copy_files_from_a_to_b.py:53-54 | a destination is the directory, `/`, the one-digit slice, `/`, and the source file name, with no separator added or removed |
| CopyFiles.DestinationKeepsName | testcli/copy_files_from_a_to_b.py:53-54 | the destination has the same file name as the source key |
| CopyFiles.RederiveSameSlice | testcli/copy_files_from_a_to_b.py:53-54 | deriving a slice from the destination key gives the source key's slice |
| CopyFiles.DestinationCollision | testcli/copy_files_from_a_to_b.py:53-54 | two placeable keys get the same destination exactly when their file names agree, so slicing adds no collisions of its own |
| CopyFiles.SubmittedTasks | testcli/copy_files_from_a_to_b.py:51-64 | one task per file in order up to the first file that cannot be placed; task i carries file i, both fixed buckets and file i's destination; that file's error is the failure; no failure exactly when every file is placeable, and then there are as many tasks as files |
| CopyFiles.SubmittedAfterFailure | testcli/copy_files_from_a_to_b.py:52-53 | once a file has failed, the files after it submit nothing |
| CopyFiles.SubmitCopies | testcli/copy_files_from_a_to_b.py:51-64 | the loop's tasks and error are the specified submission for the file list |
| CopyFiles.CopyFolder | testcli/copy_files_from_a_to_b.py:42-64 | the submission is that of the filtered listing; every task copies a listed non-marker key from the source bucket to its derived key in the destination bucket; without a failure there is one task per object |
| CopyFiles.EmptyListing | testcli/copy_files_from_a_to_b.py:42-52 | an empty listing submits nothing and ends without error |
| Scenarios.NumberedName | testcli/copy_files_from_a_to_b.py:53 | a name whose digits run up to its first `-` is placed by its last digit, whatever folder it is listed under |
| Scenarios.NumberedDestination | testcli/copy_files_from_a_to_b.py:53-54 | such a name goes to `<dir>/<last digit>/<name>` |
| Scenarios.TimestampSlice | testcli/copy_files_from_a_to_b.py:53-54 | `1700000005-b.txt`, listed under any folder that is empty or ends in `/`, goes to `<destination directory>/5/1700000005-b.txt` |
| Scenarios.TimestampInFolder | testcli/copy_files_from_a_to_b.py:53-54 | `in/1700000010-c.txt` goes to `out/0/1700000010-c.txt`; the source folder is dropped |
| Scenarios.TrailingSlashKept | testcli/copy_files_from_a_to_b.py:53-54 | with destination directory `out/`, `12-a.txt` goes to `out//2/12-a.txt` |
| Scenarios.NonNumericPrefix | testcli/copy_files_from_a_to_b.py:53 | `abc-file.txt` is an error naming `abc`, and no destination is produced |
| Scenarios.EmptyPrefix | testcli/copy_files_from_a_to_b.py:53-54 | a file name without `/` that starts with `-`, listed under any folder that is empty or ends in `/`, has an empty prefix and gives the error for the empty token, whatever the destination directory |
| Scenarios.NoDashNumber | testcli/copy_files_from_a_to_b.py:53-54 | with no `-`, the whole file name is the prefix: `in/42` goes to `out/2/42` |
| Scenarios.NoDashExtension | testcli/copy_files_from_a_to_b.py:53 | with no `-`, an extension stays in the prefix: `in/42.txt` is an error |
| Scenarios.ListingWithMarker | testcli/copy_files_from_a_to_b.py:34 | a folder marker is dropped from a listing and the other names keep their order |
| Scenarios.StopsAtSecond | testcli/copy_files_from_a_to_b.py:51-64 | with three files where the first is placeable and the second is not, one task is submitted and the second file's error is the failure |
| Scenarios.StopsAtFirstBadName | testcli/copy_files_from_a_to_b.py:34-64 | from the listing `in/`, `in/15-a.txt`, `in/x-b.txt`, `in/27-c.txt`, one task (`in/15-a.txt` to `out/5/15-a.txt`) is submitted before the error for `x`; `in/27-c.txt` is never submitted |

## Left out

- Storage client calls (`storage.Client`, `list_blobs`, `rewrite`, lines 14-24 and 30-31) are network I/O. The listing is a parameter, and `copy_file` is represented only by the task it is submitted with. The model states which copies are requested, not what the store contains afterwards.
- Listing by prefix: which names lie under `source_directory` is decided by the storage service. The model filters whatever names it is given.
- The thread pool, the lock and the joins (`ThreadPoolExecutor`, `threading.Lock`, `progress_bar_lock`, `future.result()`, lines 25, 39-40, 50 and 66-68) are concurrency. `max_workers` therefore has no counterpart, and neither does the order in which copies complete. A copy error surfacing from `future.result()` is not modelled.
- The `tqdm` progress bar (lines 43-48 and 69) is user interface.
- The `time.time()` measurements and the `print` output (lines 32-35, 72 and 78) are wall-clock floating point and console output.
- The `__main__` block (lines 71-78) holds placeholder configuration only.
- `testcli/main.py` is a command-line front end with greeting commands. It is not part of this model.
- PosixPath.Basename, PosixPath.Join: `os.path` is `posixpath`, as on Linux and macOS. On Windows `os.path` is `ntpath`, which also splits at `\` and after a drive prefix, so a key such as `x\12-a.txt` would be placed in slice 2 there but is an error (token `x\12`) here.
- Decimal.Parse: no limit on the number of digits. Since Python 3.11 `int()` by default rejects numerals of more than 4300 digits. An object key is at most 1024 bytes, so the script never meets such a numeral.
- Decimal.Parse: narrower than Python's `int()`. Surrounding whitespace, a leading `+` or `-`, `_` separators and non-ASCII digits are errors here but accepted by Python. A prefix cut at the first `-` can still carry whitespace, `+` or `_`.
