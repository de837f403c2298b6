# python-examples in Dafny

A model of the exercises in `bigcrazyfrog/python-examples` that hold checkable logic, with proofs about that model. There is one Dafny module per Python file:

- **Duplicate-file scanner** (`duplicate_scanner.dfy`, `entities.dfy`).
  - `scan_dir` walks a directory tree depth first. It counts every folder, the root included, and every regular file.
  - It groups the files by their md5 digest, in a dict of lists that keeps first-seen order.
  - Every list of two or more files becomes one `DuplicatesData` record.
  - `get_file_hash` feeds a file to the hasher chunk by chunk.
  - The file system is a tree datatype, listed in `iterdir` order. The digest is a function parameter `hash` of a file's bytes. A file's size is the length of its content.
- **Cleaner** (`plushkin.dfy`). `scan_with_removing` walks the duplicate sets in scan order. For each set it:
  - prompts until the answer is an empty line or a number from 1 to the size of the set;
  - unlinks the file whose number was entered;
  - counts removed files, errors and bytes cleaned.

  The prompt text says the number chooses the file to *keep*, and the success message says "File … was kept". The code, however, deletes the entered file, and the model does what the code does. Console input is the finite sequence of lines typed. Whether unlinking a path succeeds is a predicate `unlinkOk` on the path.
- **Integer matrices** (`matrix.dfy`):
  - construction with a rectangularity check;
  - size;
  - transpose;
  - `@`, scalar `*`, `+`, unary `-` and `-`;
  - `**` by repeated squaring.
- **Permission-checked attribute dictionary** (`my_dict.dfy`). `ViaDotDict` splits its protected paths and wraps nested dicts. Reads, sets and deletes check an access table and the protected names. `dict_factory` builds it.
- **Retry decorator** (`backoff.dfy`). The retry loop of `backoff(...)` runs over a sequence of call outcomes.
- **Cube collector** (`cube_task.dfy`). `check_number_in_allowed_range` and the `collect_cube` loop, over a sequence of input lines.
- **Palindrome permutation** (`palindrome.dfy`), with `collections.Counter` in `counter.dfy`.
- **Commit aggregation** (`github_task.dfy`). Pagination and the three summaries, over the sequence of server responses.
- **Chained concatenation** (`connectator.dfy`): `chain_generator`.

`common.dfy` holds the `Option` and `Result` types.

## Model

| member | source | states |
|---|---|---|
| Connectator.ChainGenerator | examples/connectator/connectator.py:7-17 | the output length is the sum of the input lengths; no arguments give an empty output; the output starts with the whole first argument |
| Connectator.ChainAppend | examples/connectator/connectator.py:16-17 | chaining a split argument list is chaining each part and concatenating: every element of an earlier argument comes before every element of a later one |
| Connectator.ChainAt | examples/connectator/connectator.py:16-17 | element j of argument i is yielded at position (total length of arguments 0..i-1) + j, so each argument keeps its internal order |
| Connectator.TotalLengthAppend | examples/connectator/connectator.py:16-17 | the output lengths of two argument lists add up |
| Backoff.CallLimit | examples/backoff_decorator/backoff.py:30-36 | `max_retry_count` n >= 1 bounds the calls by n; `None` and n <= 0 leave them unbounded |
| Backoff.FirstStop | examples/backoff_decorator/backoff.py:37-40 | the index of the first call that does not raise a listed exception: every earlier call raised one, and that call returns or raises an unlisted one |
| Backoff.Expected | examples/backoff_decorator/backoff.py:29-40 | the reference outcome: the run stops at the first call that does not raise a listed exception, or at the last allowed call, whichever is first, and returns that call's value or lets its exception escape; with a negative `delay` the first swallowed exception is followed by the ValueError of `time.sleep`; `Exhausted` when the supplied calls run out first |
| Backoff.Wrapper | examples/backoff_decorator/backoff.py:29-40 | the retry loop ends exactly as `Expected` says, for every bound, delay and sequence of call outcomes |
| Backoff.AtMostLimitCalls | examples/backoff_decorator/backoff.py:30-36 | with a bound n >= 1, at most n calls are made, and the run always ends once n call outcomes are available |
| Backoff.FirstSuccessReturned | examples/backoff_decorator/backoff.py:37-38 | the value of the first successful call is returned at once, after the swallowed failures before it |
| Backoff.LastAttemptRaises | examples/backoff_decorator/backoff.py:34-36 | on the n-th call even a listed exception escapes |
| Backoff.UnlistedEscapes | examples/backoff_decorator/backoff.py:37-39 | an exception outside the listed tuple escapes on whichever call raises it |
| Backoff.UnboundedRetries | examples/backoff_decorator/backoff.py:30-33 | with `None` or a count <= 0 the wrapper keeps retrying while every call raises a listed exception |
| Backoff.NegativeDelayRaises | examples/backoff_decorator/backoff.py:37-40 | a negative `delay` ends the run with the ValueError of `time.sleep` exactly when the first call raises a listed exception and is not the last allowed call; only that one call is made |
| Backoff.FirstStopAt | examples/backoff_decorator/backoff.py:37-40 | `FirstStop` is the index of the first call that is not swallowed |
| Backoff.SourceScenarios | examples/backoff_decorator/test.py:29-45 | with the default bound 3: two ZeroDivisionErrors and then a value return the value on call 3; three ZeroDivisionErrors let the third escape |
| Counter.CountOf | examples/palindrome_task/main.py:18 | `Counter(s)[x]` is the multiplicity of x in s, and is positive exactly when x occurs in s |
| Counter.Keys | examples/github_task/main.py:133 | the counter's keys are exactly the elements of s, each once |
| Counter.FirstIndex | examples/github_task/main.py:133-137 | the first position of x in s holds x, and x does not occur before it |
| Counter.KeysInFirstSeenOrder | examples/github_task/main.py:133-137 | the counter's keys are ordered by first occurrence, which is the order `max` scans them in |
| Counter.FirstIndexOfPrefix | examples/github_task/main.py:133 | appending an element moves the first occurrence of nothing already present |
| Palindrome.CanBePalindrome | examples/palindrome_task/main.py:6-22 | true exactly when at most one character occurs an odd number of times |
| Palindrome.OddEntriesCountIsOddKeys | examples/palindrome_task/main.py:20 | `sum(count % 2 ...)` over the distinct keys is the number of keys with an odd count |
| Palindrome.FewOddKeys | examples/palindrome_task/main.py:20-22 | fewer than two odd keys is equivalent to at most one odd character |
| Palindrome.OddKeyIsOddChar | examples/palindrome_task/main.py:18-20 | a key is counted as odd exactly when the character occurs an odd number of times |
| Palindrome.PermutationInvariant | examples/palindrome_task/main.py:18-20 | strings with the same characters get the same answer |
| Palindrome.PalindromeAtMostOneOdd | examples/palindrome_task/main.py:6-9 | every palindrome has at most one character of odd count |
| Palindrome.PalindromeCanBePalindrome | examples/palindrome_task/main.py:6-9 | every palindrome passes the check |
| Palindrome.Arrange | examples/palindrome_task/main.py:6-9 | a bag with at most one odd count is arranged into a palindrome with exactly those characters |
| Palindrome.CanBePalindromeIffRearrangeable | examples/palindrome_task/main.py:6-22 | the check passes exactly when some rearrangement of the string is a palindrome |
| Palindrome.OddLengthExample | examples/palindrome_task/main.py:27-33 | "abcdcba" passes |
| Palindrome.AbcdcbaIsPalindrome | examples/palindrome_task/main.py:27-33 | "abcdcba" reads the same backwards |
| Palindrome.ShortExamples | examples/palindrome_task/main.py:27-33 | "a" and "" pass |
| Palindrome.RearrangedExample | examples/palindrome_task/main.py:27-33 | "aabbcc" passes |
| Palindrome.RejectedExample | examples/palindrome_task/main.py:36-38 | "abcde" fails |
| CubeTask.IsDigits | examples/cube_task/main.py:30 | `str.isdigit()` on ASCII text: non-empty and every character a decimal digit |
| CubeTask.IntRaises | examples/cube_task/main.py:33 | `int()` raises ValueError on an all-digit string exactly when it has more than 4300 digits, CPython's default `max_str_digits` |
| CubeTask.DecimalValue | examples/cube_task/main.py:33 | `int()` of a digit string: the positional base-10 value of its digits (`IntRaises` says when `int()` refuses it instead) |
| CubeTask.ToDecimal | examples/cube_task/main.py:33 | the decimal spelling of n is all digits, and its base-10 value is n |
| CubeTask.CheckNumberInAllowedRange | examples/cube_task/main.py:16-34 | false for text that is not non-empty ASCII digits; the ValueError of `int()` (`None`) exactly for digit strings of more than 4300 digits; otherwise true exactly when the value lies in [min, max] |
| CubeTask.CheckOfDecimal | examples/cube_task/main.py:30-34 | a number written in decimal passes exactly when it is in range, unless its numeral has more than 4300 digits, when `int()` raises; a signed spelling and the empty string never pass |
| CubeTask.Collected | examples/cube_task/main.py:57-59 | the numbers collected from a prefix of the input stay within {1..6} |
| CubeTask.NoneRaise | examples/cube_task/main.py:47-57 | no line read so far made `int()` raise |
| CubeTask.CollectCube | examples/cube_task/main.py:37-61 | the loop consumes input until the collected set is {1..6} and no further; it prints one "Incorrect input!" per rejected line, then "The cube was assembled." last, once; it ends with the escaping ValueError at the first line of more than 4300 digits, before completion; when the input runs out first it stops unfinished |
| CubeTask.FullWhenSix | examples/cube_task/main.py:46 | for a subset of {1..6}, size 6 is equivalent to being all of it, so the loop test `len != 6` means "not complete" |
| CubeTask.FacesCount | examples/cube_task/main.py:46 | {1..6} has six elements |
| CubeTask.CollectedGrows | examples/cube_task/main.py:44-59 | the collected set only grows as input is read |
| CubeTask.ReadOneMore | examples/cube_task/main.py:49-59 | a rejected line adds one complaint and nothing else; an accepted 7 or 8 changes nothing; an accepted 1..6 is added to the set; a line on which `int()` raises adds neither, and ends the run without raising lines before it |
| GithubTask.Prepend | examples/github_task/main.py:57 | commits gathered so far stay in front of the rest of the aggregation, and an error is passed through |
| GithubTask.PrependTwice | examples/github_task/main.py:57 | prepending twice is prepending the concatenation |
| GithubTask.CombinedFrom | examples/github_task/main.py:52-58 | the reference result from page `page` on: a failed response aborts with its status; an empty page ends the list; otherwise that page's commits come first, then those of the later pages |
| GithubTask.PerformPaginatedRequests | examples/github_task/main.py:23-60 | the page loop returns `CombinedFrom(pages, 1)`: pages from 1 up to the first empty one, concatenated, or the first failure |
| GithubTask.CombinedIsChain | examples/github_task/main.py:45-58 | page 1 is always requested, and the result is the in-order chain of the non-empty pages before the first empty page |
| GithubTask.CombinedFromIsChain | examples/github_task/main.py:52-58 | the same from any page on |
| GithubTask.Commits | examples/github_task/main.py:56 | the commit list of each fetched page, in page order |
| GithubTask.FailureAborts | examples/github_task/main.py:53-54 | a failed request after non-empty pages aborts the whole aggregation with that status |
| GithubTask.FailureAbortsFrom | examples/github_task/main.py:52-54 | the same from any page up to the failing one |
| GithubTask.Logins | examples/github_task/main.py:128-131 | `commit["committer"]["login"]` of every commit, in order |
| GithubTask.GetCommitters | examples/github_task/main.py:62-80 | the set of committer logins over all combined commits, or the aggregation's failure |
| GithubTask.CountCommitsLastMonth | examples/github_task/main.py:82-107 | the number of combined commits, with no client-side filtering, or the failure |
| GithubTask.MaxPosition | examples/github_task/main.py:134-137 | `max(counter, key=counter.get)`: a key whose count is maximal, with every earlier key's count strictly smaller |
| GithubTask.MostActive | examples/github_task/main.py:133-137 | fails exactly when there are no commits (`max` of an empty counter raises) |
| GithubTask.IndexOf | examples/github_task/main.py:133 | the position of a login among the counter's keys |
| GithubTask.MostActiveIsFirstMaximal | examples/github_task/main.py:133-137 | the result is a committer with maximal count, and any committer with the same count made their first commit later |
| GithubTask.GetMostActiveCommitter | examples/github_task/main.py:109-137 | the aggregation's failure, or the most active committer of the combined commits |
| MatrixTask.Matrix.Size | examples/matrix_task/matrix.py:49-60 | `size` is (number of rows, length of the rows) |
| MatrixTask.RowLengths | examples/matrix_task/matrix.py:40 | `set(map(len, data))` holds every row length and is empty only for empty data |
| MatrixTask.RowLengthsOfRectangular | examples/matrix_task/matrix.py:40 | rectangular non-empty data has exactly one row length |
| MatrixTask.OneRowLength | examples/matrix_task/matrix.py:40-45 | exactly one row length is equivalent to non-empty, rectangular data |
| MatrixTask.NewMatrix | examples/matrix_task/matrix.py:33-47 | construction succeeds exactly for non-empty rectangular data and keeps it; otherwise it raises `DifferentSizeException` |
| MatrixTask.Transpose | examples/matrix_task/matrix.py:62-75 | raises `DifferentSizeException` exactly for non-square matrices; otherwise the size is unchanged and entry (i, j) is entry (j, i) of the original |
| MatrixTask.SameEntries | examples/matrix_task/matrix.py:33-47 | matrices of equal size with equal entries are equal |
| MatrixTask.TransposeTwice | examples/matrix_task/matrix.py:62-75 | transposing twice gives the matrix back |
| MatrixTask.Product | examples/matrix_task/matrix.py:91-102 | the product is rows(a) x columns(b), and each entry is the dot product of a row of a and a column of b |
| MatrixTask.MatMul | examples/matrix_task/matrix.py:77-102 | raises exactly when the rows of the second matrix differ from the columns of the first; otherwise returns the product |
| MatrixTask.Scale | examples/matrix_task/matrix.py:104-111 | same size, every entry multiplied by the number |
| MatrixTask.RMul | examples/matrix_task/matrix.py:113-115 | `number * M` is `M * number` |
| MatrixTask.Neg | examples/matrix_task/matrix.py:151-153 | `-M` has the same size and every entry negated, which is `-1 * M` |
| MatrixTask.Add | examples/matrix_task/matrix.py:126-141 | raises exactly when the sizes differ; otherwise the same size with entrywise sums |
| MatrixTask.Sub | examples/matrix_task/matrix.py:155-157 | `-N + M`: the same size check as addition, and entrywise differences |
| MatrixTask.AddThenSub | examples/matrix_task/matrix.py:126-157 | subtraction undoes addition |
| MatrixTask.SumExt | examples/matrix_task/matrix.py:93-96 | sums of equal terms are equal |
| MatrixTask.SumScale | examples/matrix_task/matrix.py:93-96 | a common factor comes out of a sum |
| MatrixTask.SumAdd | examples/matrix_task/matrix.py:93-96 | the sum of termwise sums is the sum of the sums |
| MatrixTask.SumSwap | examples/matrix_task/matrix.py:93-96 | a double sum may be taken in either order |
| MatrixTask.ProductAssocAt | examples/matrix_task/matrix.py:91-102 | each entry of (a @ b) @ c equals the same entry of a @ (b @ c) |
| MatrixTask.ProductAssoc | examples/matrix_task/matrix.py:77-102 | matrix multiplication is associative, which repeated squaring relies on |
| MatrixTask.Power | examples/matrix_task/matrix.py:159-180 | m multiplied by itself p times is a matrix of the same size |
| MatrixTask.PowerAdd | examples/matrix_task/matrix.py:174-178 | m^x @ m^y == m^(x+y) |
| MatrixTask.PowerAddStep | examples/matrix_task/matrix.py:174-178 | the induction step of `PowerAdd` |
| MatrixTask.HalvingStep | examples/matrix_task/matrix.py:175-178 | one round keeps a + b * power equal to the requested power: an odd remaining power moves b into a, then b doubles and the power halves |
| MatrixTask.PowerTimes | examples/matrix_task/matrix.py:176 | the product of two powers of m is defined and is the power of the sum |
| MatrixTask.PowerRound | examples/matrix_task/matrix.py:174-178 | one round of the loop keeps result == m^a, last_matrix == m^b and a + b * power equal to the requested power |
| MatrixTask.RoundSquare | examples/matrix_task/matrix.py:177 | squaring last_matrix == m^b gives m^(2b) |
| MatrixTask.Pow | examples/matrix_task/matrix.py:159-180 | a power <= 0 raises `ValueError`; power 1 returns the matrix, even a non-square one; a higher power of a non-square matrix raises `DifferentSizeException`; otherwise the result is m^power |
| MatrixTask.ConstructionEdgeCases | examples/matrix_task/matrix.py:40-45 | `[]` and ragged data are rejected; `[[]]` is accepted |
| MatrixTask.Shear | examples/matrix_task/test.py:15-21 | [[1, x], [0, 1]] is a valid 2 x 2 square matrix |
| MatrixTask.ShearPower | examples/matrix_task/test.py:223-259 | [[1, 1], [0, 1]] ** p == [[1, p], [0, 1]], as in the power test |
| MatrixTask.ShearProduct | examples/matrix_task/test.py:44-60 | [[1, 1], [0, 1]] @ [[1, x], [0, 1]] == [[1, x + 1], [0, 1]] |
| MyDict.FirstDot | examples/my_dict/my_dict.py:66 | the position of the first "." in a field, with no "." before it, or none at all |
| MyDict.Split | examples/my_dict/my_dict.py:66 | `field.split(".", maxsplit=1)`: a head without "." and at most one remainder; with a "." the field is head + "." + remainder, otherwise the head is the whole field |
| MyDict.Heads | examples/my_dict/my_dict.py:65-68 | the current-level names are the heads of the protected paths, in order |
| MyDict.TailsOfPaths | examples/my_dict/my_dict.py:65-67 | every dotted path passes its remainder to the next level |
| MyDict.TailsAreRemainders | examples/my_dict/my_dict.py:65-67 | nothing but such remainders is passed to the next level |
| MyDict.Build | examples/my_dict/my_dict.py:29-54 | the object keeps the access table, the heads of the protected paths, and an item per key of the input |
| MyDict.Formed | examples/my_dict/my_dict.py:72-90 | `_set_input_dict_data` fills an item per key of the input |
| MyDict.Wrap | examples/my_dict/my_dict.py:81-88 | a value that is not a dict is stored as it is; a dict becomes a nested object with the same access table and the remainders of the protected paths |
| MyDict.Granted | examples/my_dict/my_dict.py:97-102 | an action is allowed exactly when it is in the access table with a true flag; a missing entry denies, as `.get` gives `None` |
| MyDict.NestedInherits | examples/my_dict/my_dict.py:81-88 | a nested dict becomes an object with the parent's access table and the next level of protected paths |
| MyDict.PlainKept | examples/my_dict/my_dict.py:81-82 | any other value is stored unchanged |
| MyDict.DottedPathProtects | examples/my_dict/my_dict.py:43-50 | a protected path "a.b" protects "a" at the outer level and "b" inside the object stored under "a" |
| MyDict.Lookup | examples/my_dict/my_dict.py:92-109 | READ permission first, then the protected names, then the key: success exactly when all three pass, returning the stored item, and the matching error otherwise |
| MyDict.Assign | examples/my_dict/my_dict.py:111-119 | an existing key needs CHANGE and an unprotected name, a new key needs ADD only; on success only that key is set |
| MyDict.Remove | examples/my_dict/my_dict.py:121-126 | DELETE permission, then the protected names, then `KeyError` for a missing key; on success only that key is removed |
| MyDict.GetAfterSet | examples/my_dict/my_dict.py:104-119 | a successful set is seen by the next read, and every other item reads as before |
| MyDict.GetAfterDelete | examples/my_dict/my_dict.py:104-126 | after a successful delete, reading the name raises `KeyError` (or the READ error) |
| MyDict.ProtectedNameCanBeAdded | examples/my_dict/my_dict.py:111-119 | a protected name that is absent can be added with ADD alone, but can then no longer be changed |
| MyDict.AccessTable | examples/my_dict/my_dict.py:138-143 | the table maps each of the four permissions to its flag |
| MyDict.ReadOnlyRefusesWrites | examples/my_dict/my_dict.py:111-126 | with only READ granted, every set, add and delete is refused for lack of permission |
| MyDict.ViaDotDict.constructor | examples/my_dict/my_dict.py:29-54 | the new object is `Build` of its arguments |
| MyDict.ViaDotDict.SplitProtected | examples/my_dict/my_dict.py:56-70 | the current list holds the head of each path, in order, and the next list the remainders of the dotted ones |
| MyDict.ViaDotDict.SetInputDictData | examples/my_dict/my_dict.py:72-90 | the filled dict is `Formed` of the input |
| MyDict.ViaDotDict.GetAttr | examples/my_dict/my_dict.py:104-109 | the result is `Lookup` of the object's state |
| MyDict.ViaDotDict.SetAttr | examples/my_dict/my_dict.py:111-119 | the new state is `Assign` of the old one; a raised error leaves the items unchanged |
| MyDict.ViaDotDict.DelAttr | examples/my_dict/my_dict.py:121-126 | the new state is `Remove` of the old one; a raised error leaves the items unchanged |
| MyDict.DictFactory | examples/my_dict/my_dict.py:129-144 | a new object with the table built from the four flags, all granted by default |
| Entities.ScannerResponse.constructor | examples/plushkin_helper/entities.py:20-29 | only `path_to_dir` is given; the counters start at 0 and `duplicates` empty |
| DuplicateScanner.Read | examples/plushkin_helper/duplicate_scanner.py:73 | `file.read(n)` raises ValueError (`None`) exactly when n < -1; otherwise it returns the next bytes of the file: all of them for n == -1, none for n == 0, at most n for n > 0; empty exactly at the end or for n == 0 |
| DuplicateScanner.GetFileHash | examples/plushkin_helper/duplicate_scanner.py:69-76 | fails (the ValueError of the first read) exactly when `batch_size` < -1; otherwise the digest is `hash` of the whole content for -1 and positive sizes, fed once in order as non-empty chunks of at most `batch_size` bytes, and the digest of no bytes for size 0 |
| DuplicateScanner.ReadMore | examples/plushkin_helper/duplicate_scanner.py:73-74 | one more non-empty read extends the absorbed prefix and keeps every chunk within the batch size |
| DuplicateScanner.PrefixGrows | examples/plushkin_helper/duplicate_scanner.py:73-74 | the absorbed prefix grows by the chunk read |
| DuplicateScanner.ChainOfOneMore | examples/plushkin_helper/duplicate_scanner.py:74 | the chunks fed so far concatenate to the absorbed bytes |
| DuplicateScanner.AllOk | examples/plushkin_helper/duplicate_scanner.py:53-64 | the scan raises nowhere below a directory: every regular file opens and every other entry is a directory whose own entries raise nowhere |
| DuplicateScanner.FilesIn | examples/plushkin_helper/duplicate_scanner.py:53-64 | the regular files below a directory, depth first in `iterdir` order, each with its full path |
| DuplicateScanner.DirsIn | examples/plushkin_helper/duplicate_scanner.py:51-64 | the number of directories below a directory, each counted once |
| DuplicateScanner.AllOkPrefix | examples/plushkin_helper/duplicate_scanner.py:53-64 | a listing whose scan raises nowhere has prefixes that raise nowhere |
| DuplicateScanner.NotAllOk | examples/plushkin_helper/duplicate_scanner.py:53-64 | an entry that raises makes the whole listing raise |
| DuplicateScanner.AddFile | examples/plushkin_helper/duplicate_scanner.py:56 | `hashed_files[digest].append(path)`: appended to the digest's list, and a new digest becomes the last key with a one-file list |
| DuplicateScanner.AddAll | examples/plushkin_helper/duplicate_scanner.py:53-56 | every file of a run appended under its digest, in order |
| DuplicateScanner.AddAllAppend | examples/plushkin_helper/duplicate_scanner.py:55-56 | grouping two runs of files one after the other is grouping their concatenation |
| DuplicateScanner.WithDigest | examples/plushkin_helper/duplicate_scanner.py:55-56 | the files with a given digest, in scan order, form a subsequence |
| DuplicateScanner.GroupsPartition | examples/plushkin_helper/duplicate_scanner.py:55-56 | the keys are the distinct digests, each once, and the list of a digest holds precisely the scanned files with that digest, in scan order |
| DuplicateScanner.AddFilePartitions | examples/plushkin_helper/duplicate_scanner.py:55-56 | appending one more file under its digest keeps the grouping exact |
| DuplicateScanner.SameContentSameList | examples/plushkin_helper/duplicate_scanner.py:55-56 | files with equal contents end up in the same list |
| DuplicateScanner.InWithDigest | examples/plushkin_helper/duplicate_scanner.py:55-56 | every file is listed under its own digest |
| DuplicateScanner.HashedFiles.constructor | examples/plushkin_helper/duplicate_scanner.py:19 | `defaultdict(list)` starts empty |
| DuplicateScanner.HashedFiles.Append | examples/plushkin_helper/duplicate_scanner.py:56 | `hashed_files[digest].append(found)`: appends to the digest's list, creating it (and its key, last) when missing |
| DuplicateScanner.RecursionScan | examples/plushkin_helper/duplicate_scanner.py:45-66 | succeeds exactly when no entry below raises; then it adds 1 plus the folders below to `folders_scanned`, the regular files below to `files_scanned`, appends each file under its digest in depth-first order, and leaves the duplicate fields alone |
| DuplicateScanner.FilesOf | examples/plushkin_helper/duplicate_scanner.py:35-39 | one `File` record per found file, in order, with its creation date |
| DuplicateScanner.SetOf | examples/plushkin_helper/duplicate_scanner.py:32-39 | the set's size is its first file's, and it lists a `File` record per file, in order |
| DuplicateScanner.DuplicateSets | examples/plushkin_helper/duplicate_scanner.py:27-40 | one duplicate set per digest list of two or more files, in key order, sized by the list's first file |
| DuplicateScanner.DuplicatesFound | examples/plushkin_helper/duplicate_scanner.py:27-30 | the sum of len - 1 over the digest lists of two or more files |
| DuplicateScanner.ExpectedReport | examples/plushkin_helper/duplicate_scanner.py:9-42 | the report of a tree: the files found, 1 plus the folders below, and the duplicate count and sets of the digest grouping of the files in scan order |
| DuplicateScanner.ScanDir | examples/plushkin_helper/duplicate_scanner.py:9-42 | fails exactly when the recursive scan raises; otherwise the report is `ExpectedReport` of the tree |
| DuplicateScanner.CollectDuplicates | examples/plushkin_helper/duplicate_scanner.py:27-40 | lists of at most one file add nothing; each longer list adds len - 1 to `duplicates_found` and one duplicate set, in key order; the scan counters are unchanged |
| DuplicateScanner.TotalListedIgnores | examples/plushkin_helper/duplicate_scanner.py:56 | a list under a key not yet seen does not count toward the listed files |
| DuplicateScanner.TotalListedUpdate | examples/plushkin_helper/duplicate_scanner.py:56 | replacing one key's list changes the listed total by the difference in lengths |
| DuplicateScanner.TotalOfGroups | examples/plushkin_helper/duplicate_scanner.py:55-56 | the lists hold every scanned file exactly once: their lengths add up to the number of files |
| DuplicateScanner.DuplicatesFoundByTotal | examples/plushkin_helper/duplicate_scanner.py:27-30 | with no empty list, the sum of len - 1 over lists of two or more is the number of listed files minus the number of lists |
| DuplicateScanner.DuplicatesFoundIsFilesMinusDigests | examples/plushkin_helper/duplicate_scanner.py:27-30 | `duplicates_found` is the number of scanned files minus the number of distinct digests |
| DuplicateScanner.DuplicateDigests | examples/plushkin_helper/duplicate_scanner.py:27-29 | the digests whose list holds two or more files, in key order: the digest of each duplicate set |
| DuplicateScanner.SetsOfDigests | examples/plushkin_helper/duplicate_scanner.py:27-40 | set k is built from the list of digest k, which holds two or more files: its `File` records in order, sized by the first file |
| DuplicateScanner.DigestsAreDuplicateKeys | examples/plushkin_helper/duplicate_scanner.py:27-29 | the digests of the sets are exactly the keys with two or more files, each once |
| DuplicateScanner.ListOfIsWithDigest | examples/plushkin_helper/duplicate_scanner.py:53-56 | under an exact grouping, the list of any digest is the scanned files with that digest, and the digest is a key exactly when some file has it |
| DuplicateScanner.DigestGroups | examples/plushkin_helper/duplicate_scanner.py:27-40 | one set per digest shared by two or more scanned files and no other, each holding exactly that digest's files in scan order and sized by the first |
| DuplicateScanner.GroupedByDigest | examples/plushkin_helper/duplicate_scanner.py:27-40 | the digest groups, with every file of a shared digest in the one set of its digest and every file of a digest of its own in none |
| DuplicateScanner.SetsAreDigestGroups | examples/plushkin_helper/duplicate_scanner.py:27-40 | the duplicate sets of the digest grouping of the scanned files are its digest groups |
| DuplicateScanner.FilesInTheirGroups | examples/plushkin_helper/duplicate_scanner.py:27-40 | digest groups place each file of a shared digest in the one set of that digest, and a file of a digest of its own in none |
| DuplicateScanner.InItsGroup | examples/plushkin_helper/duplicate_scanner.py:35-39 | a scanned file's `File` record is among the records of its digest's files |
| DuplicateScanner.DuplicateSetsGroupDuplicates | examples/plushkin_helper/duplicate_scanner.py:9-42 | the duplicate sets `scan_dir` reports group the scanned files by digest in both directions: a set exactly for each digest shared by two or more files, with exactly those files, in scan order; files with a digest of their own are in no set |
| DuplicateScanner.EveryEntryCounted | examples/plushkin_helper/duplicate_scanner.py:51-64 | when the scan succeeds, every entry below the root is counted once, as a file or as a folder |
| DuplicateScanner.TwoDuplicatesReport | examples/plushkin_helper/test.py:84-109 | scanning the `two_duplicates` layout finds 3 files in 4 folders and one duplicate set of size 9 listing the two copies |
| DuplicateScanner.TwoDuplicatesFiles | examples/plushkin_helper/test.py:30-49 | the layout holds the three files in depth-first order and three folders below the root |
| DuplicateScanner.TwoDuplicatesGroups | examples/plushkin_helper/test.py:52-68 | two copies of one text and a different text form one group of two and one group of one |
| Plushkin.SkipSpaces | examples/plushkin_helper/plushkin.py:92 | the first non-whitespace position from i on |
| Plushkin.TrimSpaces | examples/plushkin_helper/plushkin.py:92 | the end of the text before its trailing whitespace |
| Plushkin.SkipSpacesSkips | examples/plushkin_helper/plushkin.py:92 | everything skipped is whitespace, and the character stopped at is not |
| Plushkin.TrimSpacesTrims | examples/plushkin_helper/plushkin.py:92 | everything trimmed is whitespace, and the last character kept is not |
| Plushkin.StripCuts | examples/plushkin_helper/plushkin.py:92 | `int()` reads the text between leading and trailing whitespace, which neither starts nor ends with whitespace |
| Plushkin.DigitCount | examples/plushkin_helper/plushkin.py:92 | the number of digits in a numeral, underscores not counted, as `int()` counts them against its limit |
| Plushkin.ParseInt | examples/plushkin_helper/plushkin.py:92 | `int()` of a line: the numeral between the surrounding whitespace when it has at most 4300 digits, or `None` where `int` raises ValueError, which includes longer numerals |
| Plushkin.Acceptable | examples/plushkin_helper/plushkin.py:90-93 | the read loop stops at a line exactly when it is empty or `int()` reads it as a number from 1 to `max_number` |
| Plushkin.FirstAcceptable | examples/plushkin_helper/plushkin.py:90-97 | the line `_get_valid_user_input` stops at is an empty line or a number from 1 to `max_number` |
| Plushkin.FirstAcceptableIsFirst | examples/plushkin_helper/plushkin.py:90-97 | no earlier line is acceptable, and nothing is found exactly when no remaining line is acceptable |
| Plushkin.NotNumbers | examples/plushkin_helper/plushkin.py:94-95 | at most one `WRONG_INPUT` per line read |
| Plushkin.GetValidUserInput | examples/plushkin_helper/plushkin.py:88-97 | returns the first empty or in-range line and the position after it, printing `WRONG_INPUT` once per non-numeric line before it and nothing for out-of-range numbers; when the input ends first, nothing is returned |
| Plushkin.Show | examples/plushkin_helper/plushkin.py:66-69 | the printed number of a file is a non-empty numeral |
| Plushkin.ShowNatural | examples/plushkin_helper/plushkin.py:66-69 | the numeral is a run of digits with that value, every character a digit |
| Plushkin.StripsNothing | examples/plushkin_helper/plushkin.py:92 | text without whitespace at its ends is read as it is |
| Plushkin.ParseDigits | examples/plushkin_helper/plushkin.py:92 | digits grouped by underscores read back as their value when there are at most 4300 of them, and are refused otherwise |
| Plushkin.ParseShow | examples/plushkin_helper/plushkin.py:66-69 | `int(str(n)) == n` for numerals of at most 4300 digits, so typing a file's printed number selects that file; a longer numeral is refused |
| Plushkin.TooManyDigitsRefused | examples/plushkin_helper/plushkin.py:92 | a numeral of 4300 leading zeros and a final 1 is refused (WRONG_INPUT), because the leading zeros count against the digit limit |
| Plushkin.DigitCountOfDigits | examples/plushkin_helper/plushkin.py:92 | a run of digits has as many digits as characters, so a plain numeral counts its full length against the limit |
| Plushkin.ChoiceOf | examples/plushkin_helper/plushkin.py:116-121 | the empty line skips the set; a number n names `files[n - 1]` of the set |
| Plushkin.Decide | examples/plushkin_helper/plushkin.py:110-118 | at most one answer per set, in order, and an answer for every set exactly when the input did not run out |
| Plushkin.DecideStep | examples/plushkin_helper/plushkin.py:110-118 | the first acceptable line answers the current set, and the rest of the input answers the following sets |
| Plushkin.DecideFits | examples/plushkin_helper/plushkin.py:113-121 | every answer skips its set or names one of that set's own files |
| Plushkin.EnterSkipsAll | examples/plushkin_helper/plushkin.py:116-118 | pressing enter for every set skips them all |
| Plushkin.Apply | examples/plushkin_helper/plushkin.py:73-86 | a skip changes nothing; an entered file adds exactly one to removed files or to errors, to removed files exactly when unlinking it succeeds |
| Plushkin.Clean | examples/plushkin_helper/plushkin.py:110-127 | the counters and unlinked paths after applying the answers to the sets in order, from zero counters |
| Plushkin.CleanAccounts | examples/plushkin_helper/plushkin.py:106-127 | removed files + errors equals the number of sets answered with a number; the removed-files counter is the number of paths unlinked; skipping every set leaves all counters at 0 |
| Plushkin.RemovedExactly | examples/plushkin_helper/plushkin.py:120-124 | a path is unlinked exactly when it was entered for some set and unlinking it succeeds |
| Plushkin.SucceededSize | examples/plushkin_helper/plushkin.py:123-125 | the sum of `size` over the sets whose answer entered a file that was then unlinked |
| Plushkin.SucceededSizeLast | examples/plushkin_helper/plushkin.py:123-125 | that sum over all the answers is the sum over all but the last, plus the last one's contribution |
| Plushkin.CleanedSize | examples/plushkin_helper/plushkin.py:123-125 | `cleaned_size` is exactly `SucceededSize`, the sum of the sizes of the sets whose entered file was unlinked; so it lies between 0 and the total size of the sets answered |
| Plushkin.Outcome | examples/plushkin_helper/plushkin.py:106-136 | the counters and unlinked paths after the whole dialogue: the answers read from the input, then their effect; and whether the input ended early |
| Plushkin.RemovedAreListed | examples/plushkin_helper/plushkin.py:120-123 | only files listed in the duplicate sets are ever unlinked |
| Plushkin.Dialogue | examples/plushkin_helper/plushkin.py:110-129 | the loop one set at a time: the first acceptable line answers the set and is applied; when no such line is left, the loop stops with the input exhausted |
| Plushkin.DialogueStep | examples/plushkin_helper/plushkin.py:110-127 | one pass of the loop applies the first acceptable line to the current set |
| Plushkin.DialogueAnswer | examples/plushkin_helper/plushkin.py:110-127 | the same, for the line read and the console position after it |
| Plushkin.DialogueStop | examples/plushkin_helper/plushkin.py:90 | when no acceptable line is left, the answers and the loop stop at that set |
| Plushkin.CleanSnoc | examples/plushkin_helper/plushkin.py:110-127 | cleaning one more set applies its answer to the counters so far |
| Plushkin.ContinueClean | examples/plushkin_helper/plushkin.py:110-127 | carrying on from counters with more answers is cleaning with all of them |
| Plushkin.DialogueMatches | examples/plushkin_helper/plushkin.py:110-127 | the set-by-set loop has the effect of its answers applied in order |
| Plushkin.OutcomeIsDialogue | examples/plushkin_helper/plushkin.py:106-127 | the outcome is what the loop ends with from zero counters |
| Plushkin.RemoveDuplicates | examples/plushkin_helper/plushkin.py:106-127 | the loop ends with the counters and unlinked paths of `Outcome`, and reports whether the input ended before every set was answered |
| Plushkin.PickStep | examples/plushkin_helper/plushkin.py:120-127 | entering n removes `files[n - 1]`: on success one more removed file and the set's size cleaned, on failure one more error |
| Plushkin.ScanWithRemoving | examples/plushkin_helper/plushkin.py:99-136 | fails exactly when the scan raises; otherwise the scan report and the outcome of the removing loop over its duplicate sets |
| Plushkin.Scan | examples/plushkin_helper/plushkin.py:138-145 | fails exactly when the scan raises; otherwise the scan report |
| Plushkin.Pruned | examples/plushkin_helper/plushkin.py:79-82 | the directory tree after the unlinks: the regular files at the removed paths are gone, everything else stays in place |
| Plushkin.Kept | examples/plushkin_helper/plushkin.py:79-82 | the found files whose path was not unlinked, in order |
| Plushkin.KeptAppend | examples/plushkin_helper/plushkin.py:120-123 | the files kept from a concatenation are those kept from each part |
| Plushkin.FilesAppend | examples/plushkin_helper/duplicate_scanner.py:53-58 | the files found in a concatenated listing are those of each part |
| Plushkin.DirsAppend | examples/plushkin_helper/duplicate_scanner.py:51-64 | the folders of a concatenated listing are those of each part |
| Plushkin.AllOkAppend | examples/plushkin_helper/duplicate_scanner.py:53-64 | a concatenated listing raises nowhere exactly when neither part does |
| Plushkin.PrunedScan | examples/plushkin_helper/plushkin.py:120-123 | after unlinking, a rescan finds exactly the files not unlinked, in order, the same folders, and still raises nowhere |
| Plushkin.PrunedFilesSnoc | examples/plushkin_helper/plushkin.py:120-123 | the files step of `PrunedScan` |
| Plushkin.PrunedDirsSnoc | examples/plushkin_helper/plushkin.py:120-123 | the folders step of `PrunedScan` |
| Plushkin.PrunedOkSnoc | examples/plushkin_helper/plushkin.py:120-123 | the no-raise step of `PrunedScan` |
| Plushkin.FilesLast | examples/plushkin_helper/duplicate_scanner.py:53-58 | the files of a listing are those before its last entry followed by those of the last entry |
| Plushkin.DirsLast | examples/plushkin_helper/duplicate_scanner.py:59-64 | the same for folders |
| Plushkin.OkLast | examples/plushkin_helper/duplicate_scanner.py:53-64 | the same for raising nowhere |
| Plushkin.PrunedEntryScan | examples/plushkin_helper/plushkin.py:120-123 | `PrunedScan` for a single entry |
| Plushkin.PrunedDirScan | examples/plushkin_helper/plushkin.py:120-123 | `PrunedScan` for a single directory |
| Plushkin.RemovingTwoDuplicates | examples/plushkin_helper/test.py:112-138 | on the `two_duplicates` layout, entering 1 unlinks the first copy and cleans 9 bytes; a rescan then finds 2 files in 4 folders and no duplicates |
| Plushkin.EnterOne | examples/plushkin_helper/test.py:125-135 | entering 1 for a single set of two files removes the first one |
| Plushkin.RescanTwoDuplicates | examples/plushkin_helper/test.py:118-138 | the rescan after the first copy is unlinked gives the expected response |
| Plushkin.TwoSingletons | examples/plushkin_helper/duplicate_scanner.py:27-30 | two files with different digests give no duplicates |
| Plushkin.KeepLastTwo | examples/plushkin_helper/test.py:118-138 | unlinking the first of three files keeps the other two in order |

## Left out

- md5 itself is the function parameter `hash`. Opening and reading files is modelled by `Read` over a file's content. A file that cannot be opened is a `LockedFile` entry. Sizes (`st_size`) are content lengths. Creation dates are a `Date` stored with each file, so the date conversion of `st_ctime` is not modelled.
- The order of `iterdir` is the order of the entries in the tree datatype. Symbolic links are not modelled. An entry that is neither a regular file nor a directory is `Special`: descending into it raises, and the whole scan fails.
- `ScannerResponse.path_to_dir` and `File.path` are sequences of path components; `pathlib` normalisation is not modelled.
- The md5 hex digest's length and alphabet are not modelled, since a digest is only compared for equality.
- DuplicateScanner.GetFileHash: the default `batch_size` of 2**20 is a constant; only the bytes fed to the hasher are modelled, not md5's internal state.
- Printing in `plushkin.py`: `_print_general_info`, `_print_duplicates`, the separator lines and the deleting report. Only the `WRONG_INPUT` messages of `_get_valid_user_input` are returned.
- Plushkin.RemoveDuplicates: unlinking is the predicate `unlinkOk`. The file system is not changed by the loop; `Pruned` states what a rescan sees afterwards. `_remove_duplicate` is folded into `Apply`.
- Plushkin.RemoveDuplicates: when `input()` raises `EOFError`, the model stops with `endOfInput` and keeps the counters so far instead of propagating an exception.
- Plushkin.ParseInt: `int()` is modelled for ASCII text: optional sign, digits and single underscores, surrounded by whitespace. Unicode digits and Unicode whitespace are not modelled. The digit limit is CPython's default of 4300; a limit changed with `sys.set_int_max_str_digits` or `PYTHONINTMAXSTRDIGITS` is not modelled, and the same holds for CubeTask.CheckNumberInAllowedRange.
- Plushkin.Show: only natural numbers are rendered.
- `Plushkin.__init__` and `parse` (argparse), and choosing between `scan` and `scan_with_removing`, are not modelled.
- Matrix entries are integers. Float entries (the `Number` alias) are not modelled, and neither are `__repr__`, `__str__` or `__getitem__` beyond indexing `data`.
- MatrixTask.Transpose, MatrixTask.Add and the other operations take an already constructed (valid) matrix, as every `Matrix` object in the source is.
- `MatrixTask.Pow` on a non-square matrix with power >= 2 returns the error of the first product that fails; the partial products are not modelled.
- MyDict: nested `ViaDotDict` objects are stored as values (snapshots) inside their parent's map, not as separately mutable objects. Aliasing between a nested object and its parent is therefore not modelled.
- MyDict: `protected=None` is modelled as the empty list. Python's attribute dispatch (`super().__setattr__` for the three internal fields, `__getattr__` as a fallback) and `StrEnum` are not modelled. Values are text, integers or nested dicts.
- Backoff: `time.sleep` is modelled only by whether it raises. A negative `delay` makes it raise ValueError after the first swallowed exception, and that error escapes. The length of the pause, and the OverflowError of a delay too large for the platform clock, are not modelled. The decorator plumbing (`wraps`, `ParamSpec`) and the arguments passed to the wrapped function are not modelled either. A finite sequence of call outcomes replaces the function; `Exhausted` marks a run still retrying when the outcomes run out.
- CubeTask: `input()` and `print()` are the input sequence and the returned printed messages. `str.isdigit` is modelled for ASCII digits only. When the input runs out, `input()` raises `EOFError` in the source; the model stops unfinished.
- GithubTask: HTTP, `requests.Session`, the authentication read from environment variables and the `datetime.today()` window are not modelled. The `since` filter is the server's, so the responses already reflect it. The server has finitely many pages; a server that never returns an empty page is not modelled. A commit without `committer.login` (a `KeyError` or, for `"committer": null`, a `TypeError` in the source) is not modelled.
- Connectator: every argument is a finite sequence. An infinite iterable is never left, so the arguments after it are never reached; that case is not modelled.
- `examples/health_check/main.py`, `examples/pokemon/pokemon_fetcher.py` and `examples/integers generator/` are not part of this model.
