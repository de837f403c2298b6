/**
 * Model of examples/plushkin_helper/duplicate_scanner.py. The file system is
 * a tree of entries, listed in the order `iterdir` yields them; the md5
 * digest is a function `hash` of a file's bytes, and a file's size is the
 * length of its content.
 */
module DuplicateScanner {
  import opened Common
  import opened Entities
  import Connectator

  newtype byte = x: int | 0 <= x < 256

  /** One entry of a directory listing. */
  datatype Entry =
    | RegularFile(name: string, content: seq<byte>, created: Date)
      /** A regular file that cannot be opened for reading. */
    | LockedFile(name: string)
    | Directory(name: string, entries: seq<Entry>)
      /** Anything else (device, socket, broken link): listing it fails. */
    | Special(name: string)

  /** A regular file found by the scan, with what `stat` reports about it. */
  datatype Found = Found(path: Path, content: seq<byte>, created: Date)

  /** `batch_size`'s default, 2**20. */
  const DefaultBatchSize: int := 0x10_0000

  /** Scanning a directory with these entries raises nowhere: every file
      can be opened and every other entry is a directory. */
  predicate AllOk(entries: seq<Entry>)
  {
    if entries == [] then true
    else
      AllOk(entries[..|entries| - 1]) &&
      match entries[|entries| - 1]
      case RegularFile(_, _, _) => true
      case Directory(_, children) => AllOk(children)
      case _ => false
  }

  lemma {:induction false} AllOkPrefix(entries: seq<Entry>, j: nat)
    requires j <= |entries| && AllOk(entries)
    ensures AllOk(entries[..j])
  {
    if j < |entries| {
      assert entries[..|entries| - 1][..j] == entries[..j];
      AllOkPrefix(entries[..|entries| - 1], j);
    } else {
      assert entries[..j] == entries;
    }
  }

  lemma NotAllOk(entries: seq<Entry>, i: nat)
    requires i < |entries| && !AllOk(entries[..i + 1])
    ensures !AllOk(entries)
  {
    if AllOk(entries) {
      AllOkPrefix(entries, i + 1);
    }
  }

  /** The regular files below a directory with path `dir`, depth first. */
  function FilesIn(entries: seq<Entry>, dir: Path): seq<Found>
  {
    if entries == [] then []
    else
      FilesIn(entries[..|entries| - 1], dir) +
      match entries[|entries| - 1]
      case RegularFile(name, content, created) => [Found(dir + [name], content, created)]
      case Directory(name, children) => FilesIn(children, dir + [name])
      case _ => []
  }

  /** The number of directories below a directory, not counting itself. */
  function DirsIn(entries: seq<Entry>): nat
  {
    if entries == [] then 0
    else
      DirsIn(entries[..|entries| - 1]) +
      match entries[|entries| - 1]
      case Directory(_, children) => 1 + DirsIn(children)
      case _ => 0
  }

  /** What `file.read(n)` on a binary file returns at `position`: `None`
      for the `ValueError` it raises when `n < -1`; otherwise everything
      for `n == -1`, nothing for 0, and at most `n` bytes for `n > 0`. */
  function Read(content: seq<byte>, position: nat, n: int): (chunk: Option<seq<byte>>)
    requires position <= |content|
    ensures chunk.None? <==> n < -1
    ensures chunk.Some? ==> position + |chunk.value| <= |content|
    ensures chunk.Some? ==> chunk.value == content[position..position + |chunk.value|]
    ensures chunk.Some? && n > 0 ==> |chunk.value| <= n
    ensures chunk.Some? ==> (chunk.value == [] <==> n == 0 || position == |content|)
    ensures n == -1 ==> chunk == Some(content[position..])
  {
    if n < -1 then None
    else if n == -1 then Some(content[position..])
    else if position + n <= |content| then Some(content[position..position + n])
    else Some(content[position..])
  }

  /** Every chunk read is non-empty and, for a positive batch size, no
      longer than the batch size. */
  predicate ChunksWithin(chunks: seq<seq<byte>>, batchSize: int)
  {
    if chunks == [] then true
    else
      var last := chunks[|chunks| - 1];
      ChunksWithin(chunks[..|chunks| - 1], batchSize) && 0 < |last| && (batchSize > 0 ==> |last| <= batchSize)
  }

  /** `get_file_hash`: feeds the file to the hasher chunk by chunk until a
      read comes back empty. The hasher's state is the bytes it has
      absorbed, so the digest is `hash` of their concatenation. A batch
      size below -1 makes the first read raise, reported as `None`. */
  method GetFileHash(content: seq<byte>, batchSize: int, hash: seq<byte> -> string)
    returns (digest: Option<string>, ghost chunks: seq<seq<byte>>)
    ensures digest.None? <==> batchSize < -1
    ensures batchSize == -1 || batchSize > 0 ==> digest == Some(hash(content))
    ensures batchSize == 0 ==> digest == Some(hash([]))
    ensures digest.Some? ==> Connectator.ChainGenerator(chunks) == (if batchSize == 0 then [] else content)
    ensures ChunksWithin(chunks, batchSize)
  {
    chunks := [];
    if batchSize < -1 {
      return None, chunks;
    }
    var absorbed: seq<byte> := [];
    var position := 0;
    var buffer := Read(content, position, batchSize).value;
    while buffer != []
      invariant position <= |content|
      invariant batchSize == 0 ==> position == 0
      invariant absorbed == content[..position]
      invariant absorbed == Connectator.ChainGenerator(chunks)
      invariant Read(content, position, batchSize) == Some(buffer)
      invariant ChunksWithin(chunks, batchSize)
      decreases |content| - position
    {
      ReadMore(content, position, batchSize, chunks, buffer);
      absorbed := absorbed + buffer;
      chunks := chunks + [buffer];
      position := position + |buffer|;
      buffer := Read(content, position, batchSize).value;
    }
    assert batchSize != 0 ==> absorbed == content;
    digest := Some(hash(absorbed));
  }

  /** One more non-empty read extends the bytes absorbed so far and keeps
      every chunk within the batch size. */
  lemma ReadMore(content: seq<byte>, position: nat, batchSize: int, chunks: seq<seq<byte>>, buffer: seq<byte>)
    requires position <= |content| && Read(content, position, batchSize) == Some(buffer) && buffer != []
    requires ChunksWithin(chunks, batchSize)
    ensures position + |buffer| <= |content| && batchSize != 0
    ensures content[..position + |buffer|] == content[..position] + buffer
    ensures Connectator.ChainGenerator(chunks + [buffer]) == Connectator.ChainGenerator(chunks) + buffer
    ensures ChunksWithin(chunks + [buffer], batchSize)
  {
    PrefixGrows(content, position, buffer);
    ChainOfOneMore(chunks, buffer);
    assert (chunks + [buffer])[..|chunks|] == chunks;
  }

  lemma PrefixGrows(content: seq<byte>, position: nat, chunk: seq<byte>)
    requires position + |chunk| <= |content| && chunk == content[position..position + |chunk|]
    ensures content[..position + |chunk|] == content[..position] + chunk
  {
  }

  lemma ChainOfOneMore(chunks: seq<seq<byte>>, chunk: seq<byte>)
    ensures Connectator.ChainGenerator(chunks + [chunk]) == Connectator.ChainGenerator(chunks) + chunk
  {
    Connectator.ChainAppend(chunks, [chunk]);
    assert Connectator.ChainGenerator([chunk]) == chunk + Connectator.ChainGenerator([chunk][1..]);
  }

  /** The contents of `hashed_files`: the digests in the order they first
      appeared, and the list of files under each. */
  datatype Groups = Groups(keys: seq<string>, lists: map<string, seq<Found>>)

  /** `hashed_files[digest].append(found)` on a `defaultdict(list)`. */
  function AddFile(g: Groups, digest: string, found: Found): Groups
  {
    if digest in g.lists then Groups(g.keys, g.lists[digest := g.lists[digest] + [found]])
    else Groups(g.keys + [digest], g.lists[digest := [found]])
  }

  /** Every file of `fs` appended under its digest, in order. */
  function AddAll(g: Groups, fs: seq<Found>, hash: seq<byte> -> string): Groups
  {
    if fs == [] then g
    else AddFile(AddAll(g, fs[..|fs| - 1], hash), hash(fs[|fs| - 1].content), fs[|fs| - 1])
  }

  lemma {:induction false} AddAllAppend(g: Groups, a: seq<Found>, b: seq<Found>, hash: seq<byte> -> string)
    ensures AddAll(g, a + b, hash) == AddAll(AddAll(g, a, hash), b, hash)
  {
    if b == [] {
      assert a + b == a;
    } else {
      assert (a + b)[..|a + b| - 1] == a + b[..|b| - 1];
      AddAllAppend(g, a, b[..|b| - 1], hash);
    }
  }

  /** The files of `fs` whose digest is `digest`, in order. */
  function WithDigest(fs: seq<Found>, hash: seq<byte> -> string, digest: string): (r: seq<Found>)
    ensures |r| <= |fs|
  {
    if fs == [] then []
    else WithDigest(fs[..|fs| - 1], hash, digest) + (if hash(fs[|fs| - 1].content) == digest then [fs[|fs| - 1]] else [])
  }

  predicate Distinct(keys: seq<string>)
  {
    forall i, j :: 0 <= i < j < |keys| ==> keys[i] != keys[j]
  }

  /** `g` is `fs` grouped by digest: the keys are the distinct digests, and
      the list of a digest holds precisely the files with that digest, in
      scan order. */
  ghost predicate Partitions(g: Groups, fs: seq<Found>, hash: seq<byte> -> string)
  {
    && Distinct(g.keys)
    && (forall d :: d in g.keys <==> d in g.lists)
    && (forall d :: d in g.lists <==> WithDigest(fs, hash, d) != [])
    && (forall d :: d in g.lists ==> g.lists[d] == WithDigest(fs, hash, d))
  }

  /** Each scanned file lands in exactly one list, the one of its digest. */
  lemma {:induction false} GroupsPartition(fs: seq<Found>, hash: seq<byte> -> string)
    ensures Partitions(AddAll(Groups([], map[]), fs, hash), fs, hash)
  {
    if fs != [] {
      var init := fs[..|fs| - 1];
      GroupsPartition(init, hash);
      AddFilePartitions(AddAll(Groups([], map[]), init, hash), fs, hash);
    }
  }

  /** Adding the last file of `fs` to a grouping of the others gives a
      grouping of `fs`. */
  lemma AddFilePartitions(g: Groups, fs: seq<Found>, hash: seq<byte> -> string)
    requires fs != [] && Partitions(g, fs[..|fs| - 1], hash)
    ensures var found := fs[|fs| - 1];
            Partitions(AddFile(g, hash(found.content), found), fs, hash)
  {
    var found := fs[|fs| - 1];
    var g' := AddFile(g, hash(found.content), found);
    forall d
      ensures d in g'.lists <==> WithDigest(fs, hash, d) != []
      ensures d in g'.lists ==> g'.lists[d] == WithDigest(fs, hash, d)
    {
    }
  }

  /** Two files with equal contents end up in the same list. */
  lemma SameContentSameList(fs: seq<Found>, hash: seq<byte> -> string, i: nat, j: nat)
    requires i < |fs| && j < |fs| && fs[i].content == fs[j].content
    ensures exists d :: d in AddAll(Groups([], map[]), fs, hash).lists &&
              fs[i] in AddAll(Groups([], map[]), fs, hash).lists[d] &&
              fs[j] in AddAll(Groups([], map[]), fs, hash).lists[d]
  {
    var g := AddAll(Groups([], map[]), fs, hash);
    var d := hash(fs[i].content);
    GroupsPartition(fs, hash);
    InWithDigest(fs, hash, i);
    InWithDigest(fs, hash, j);
    assert d in g.lists && fs[i] in g.lists[d] && fs[j] in g.lists[d];
  }

  lemma {:induction false} InWithDigest(fs: seq<Found>, hash: seq<byte> -> string, i: nat)
    requires i < |fs|
    ensures fs[i] in WithDigest(fs, hash, hash(fs[i].content))
  {
    if i < |fs| - 1 {
      InWithDigest(fs[..|fs| - 1], hash, i);
    }
  }

  /** The lists grouped under all keys hold `|fs|` files in total. */
  function TotalListed(keys: seq<string>, lists: map<string, seq<Found>>): nat
  {
    if keys == [] then 0
    else
      var last := keys[|keys| - 1];
      TotalListed(keys[..|keys| - 1], lists) + if last in lists then |lists[last]| else 0
  }

  /** `hashed_files` as a mutable object. */
  class HashedFiles {
    var keys: seq<string>
    var lists: map<string, seq<Found>>

    function View(): Groups
      reads this
    {
      Groups(keys, lists)
    }

    /** `defaultdict(list)`. */
    constructor()
      ensures View() == Groups([], map[])
    {
      keys := [];
      lists := map[];
    }

    /** `hashed_files[digest].append(found)`. */
    method Append(digest: string, found: Found)
      modifies this
      ensures View() == AddFile(old(View()), digest, found)
    {
      if digest in lists {
        lists := lists[digest := lists[digest] + [found]];
      } else {
        keys := keys + [digest];
        lists := lists[digest := [found]];
      }
    }
  }

  /** `_recursion_scan`: counts the directory, then walks its listing,
      hashing and counting each regular file and descending into every other
      entry. Succeeds exactly when nothing below raises. */
  method RecursionScan(currentDir: Entry, dirPath: Path, response: ScannerResponse, hashedFiles: HashedFiles,
                       hash: seq<byte> -> string)
    returns (ok: bool)
    modifies response, hashedFiles
    ensures ok <==> currentDir.Directory? && AllOk(currentDir.entries)
    ensures ok ==> response.filesScanned == old(response.filesScanned) + |FilesIn(currentDir.entries, dirPath)|
    ensures ok ==> response.foldersScanned == old(response.foldersScanned) + 1 + DirsIn(currentDir.entries)
    ensures ok ==> response.duplicatesFound == old(response.duplicatesFound)
    ensures ok ==> response.duplicates == old(response.duplicates)
    ensures ok ==> hashedFiles.View() == AddAll(old(hashedFiles.View()), FilesIn(currentDir.entries, dirPath), hash)
    decreases currentDir
  {
    response.foldersScanned := response.foldersScanned + 1;
    if !currentDir.Directory? {
      return false;
    }
    var entries := currentDir.entries;
    for i := 0 to |entries|
      invariant AllOk(entries[..i])
      invariant response.filesScanned == old(response.filesScanned) + |FilesIn(entries[..i], dirPath)|
      invariant response.foldersScanned == old(response.foldersScanned) + 1 + DirsIn(entries[..i])
      invariant response.duplicatesFound == old(response.duplicatesFound)
      invariant response.duplicates == old(response.duplicates)
      invariant hashedFiles.View() == AddAll(old(hashedFiles.View()), FilesIn(entries[..i], dirPath), hash)
    {
      assert entries[..i + 1][..i] == entries[..i];
      var entry := entries[i];
      match entry
      case RegularFile(name, content, created) =>
        var currentHash, _ := GetFileHash(content, DefaultBatchSize, hash);
        assert currentHash == Some(hash(content));
        var found := Found(dirPath + [name], content, created);
        hashedFiles.Append(currentHash.value, found);
        response.filesScanned := response.filesScanned + 1;
      case LockedFile(_) =>
        NotAllOk(entries, i);
        return false;
      case Directory(name, children) =>
        ghost var before := hashedFiles.View();
        var sub := RecursionScan(entry, dirPath + [name], response, hashedFiles, hash);
        if !sub {
          NotAllOk(entries, i);
          return false;
        }
        AddAllAppend(old(hashedFiles.View()), FilesIn(entries[..i], dirPath), FilesIn(children, dirPath + [name]), hash);
      case Special(name) =>
        var sub := RecursionScan(entry, dirPath + [name], response, hashedFiles, hash);
        NotAllOk(entries, i);
        return false;
    }
    assert entries[..|entries|] == entries;
    ok := true;
  }

  /** The `File` records of found files, `created_at` taken from the
      creation time. */
  function FilesOf(fs: seq<Found>): (r: seq<File>)
    ensures |r| == |fs|
    ensures forall i :: 0 <= i < |fs| ==> r[i] == File(fs[i].path, Some(fs[i].created))
  {
    if fs == [] then [] else FilesOf(fs[..|fs| - 1]) + [File(fs[|fs| - 1].path, Some(fs[|fs| - 1].created))]
  }

  /** The list under a key; a key with no list has no files. */
  function ListOf(lists: map<string, seq<Found>>, d: string): seq<Found>
  {
    if d in lists then lists[d] else []
  }

  /** One duplicate set per list of two or more files among the first `n`
      keys, in key order, sized by the list's first file. */
  function DuplicateSets(keys: seq<string>, lists: map<string, seq<Found>>, n: nat): seq<DuplicatesData>
    requires n <= |keys|
  {
    if n == 0 then []
    else
      var files := ListOf(lists, keys[n - 1]);
      DuplicateSets(keys, lists, n - 1) +
      if |files| <= 1 then [] else [DuplicatesData(FilesOf(files), |files[0].content|)]
  }

  /** The sum of `len(files) - 1` over the lists of two or more files among
      the first `n` keys. */
  function DuplicatesFound(keys: seq<string>, lists: map<string, seq<Found>>, n: nat): int
    requires n <= |keys|
  {
    if n == 0 then 0
    else
      var files := ListOf(lists, keys[n - 1]);
      DuplicatesFound(keys, lists, n - 1) + if |files| <= 1 then 0 else |files| - 1
  }

  /** What `scan_dir` reports for a directory with path `path` and these
      entries. */
  function ExpectedReport(path: Path, entries: seq<Entry>, hash: seq<byte> -> string): ScanReport
  {
    var files := FilesIn(entries, path);
    var g := AddAll(Groups([], map[]), files, hash);
    ScanReport(path, |files|, 1 + DirsIn(entries), DuplicatesFound(g.keys, g.lists, |g.keys|),
               DuplicateSets(g.keys, g.lists, |g.keys|))
  }

  /** The duplicate set of one list: its size is the first file's, and a
      `File` record is appended per file, in order. */
  method SetOf(files: seq<Found>) returns (duplicates: DuplicatesData)
    requires files != []
    ensures duplicates == DuplicatesData(FilesOf(files), |files[0].content|)
  {
    duplicates := DuplicatesData();
    duplicates := duplicates.(size := |files[0].content|);
    for j := 0 to |files|
      invariant duplicates == DuplicatesData(FilesOf(files[..j]), |files[0].content|)
    {
      assert files[..j + 1][..j] == files[..j];
      var file := File(path := files[j].path, createdAt := Some(files[j].created));
      duplicates := duplicates.(files := duplicates.files + [file]);
    }
    assert files[..|files|] == files;
  }

  /** `scan_dir`: the recursive scan, then one duplicate set per list of
      two or more files. Fails exactly when the recursive scan raises. */
  method ScanDir(path: Path, root: Entry, hash: seq<byte> -> string) returns (ok: bool, response: ScannerResponse)
    ensures ok <==> root.Directory? && AllOk(root.entries)
    ensures ok ==> response.Report() == ExpectedReport(path, root.entries, hash)
  {
    var hashedFiles := new HashedFiles();
    response := new ScannerResponse(path);
    ok := RecursionScan(root, path, response, hashedFiles, hash);
    if !ok {
      return;
    }
    CollectDuplicates(response, hashedFiles.keys, hashedFiles.lists);
  }

  /** The loop of `scan_dir` over the grouped files: every list of more than
      one file adds its surplus to `duplicates_found` and its duplicate set
      to `duplicates`; the scan counters stay as they are. */
  method CollectDuplicates(response: ScannerResponse, keys: seq<string>, lists: map<string, seq<Found>>)
    modifies response
    ensures response.filesScanned == old(response.filesScanned)
    ensures response.foldersScanned == old(response.foldersScanned)
    ensures response.duplicatesFound == old(response.duplicatesFound) + DuplicatesFound(keys, lists, |keys|)
    ensures response.duplicates == old(response.duplicates) + DuplicateSets(keys, lists, |keys|)
  {
    for i := 0 to |keys|
      invariant response.filesScanned == old(response.filesScanned)
      invariant response.foldersScanned == old(response.foldersScanned)
      invariant response.duplicatesFound == old(response.duplicatesFound) + DuplicatesFound(keys, lists, i)
      invariant response.duplicates == old(response.duplicates) + DuplicateSets(keys, lists, i)
    {
      var files := ListOf(lists, keys[i]);
      if |files| <= 1 {
        continue;
      }
      response.duplicatesFound := response.duplicatesFound + |files| - 1;
      var duplicates := SetOf(files);
      response.duplicates := response.duplicates + [duplicates];
    }
  }

  lemma {:induction false} TotalListedIgnores(keys: seq<string>, lists: map<string, seq<Found>>, d: string, list: seq<Found>)
    requires forall k :: k in keys ==> k in lists
    requires d !in keys
    ensures TotalListed(keys, lists[d := list]) == TotalListed(keys, lists)
  {
    if keys != [] {
      TotalListedIgnores(keys[..|keys| - 1], lists, d, list);
    }
  }

  lemma {:induction false} TotalListedUpdate(keys: seq<string>, lists: map<string, seq<Found>>, d: string, list: seq<Found>)
    requires forall k :: k in keys ==> k in lists
    requires Distinct(keys) && d in keys
    ensures TotalListed(keys, lists[d := list]) == TotalListed(keys, lists) - |lists[d]| + |list|
  {
    var init := keys[..|keys| - 1];
    if keys[|keys| - 1] == d {
      TotalListedIgnores(init, lists, d, list);
    } else {
      TotalListedUpdate(init, lists, d, list);
    }
  }

  /** The lists hold every scanned file once: their lengths add up to the
      number of files. */
  lemma {:induction false} TotalOfGroups(fs: seq<Found>, hash: seq<byte> -> string)
    ensures TotalListed(AddAll(Groups([], map[]), fs, hash).keys, AddAll(Groups([], map[]), fs, hash).lists) == |fs|
  {
    GroupsPartition(fs, hash);
    if fs != [] {
      var init := fs[..|fs| - 1];
      var g := AddAll(Groups([], map[]), init, hash);
      var d := hash(fs[|fs| - 1].content);
      TotalOfGroups(init, hash);
      GroupsPartition(init, hash);
      if d in g.lists {
        TotalListedUpdate(g.keys, g.lists, d, g.lists[d] + [fs[|fs| - 1]]);
      } else {
        TotalListedIgnores(g.keys, g.lists, d, [fs[|fs| - 1]]);
      }
    }
  }

  /** With no empty list, the sum of `len(files) - 1` over lists of two or
      more equals the number of listed files minus the number of lists. */
  lemma {:induction false} DuplicatesFoundByTotal(keys: seq<string>, lists: map<string, seq<Found>>, n: nat)
    requires n <= |keys|
    requires forall d :: d in keys ==> d in lists && lists[d] != []
    ensures DuplicatesFound(keys, lists, n) == TotalListed(keys[..n], lists) - n
  {
    if n > 0 {
      DuplicatesFoundByTotal(keys, lists, n - 1);
      assert keys[..n][..n - 1] == keys[..n - 1];
      assert keys[n - 1] in keys;
    }
  }

  /** `duplicates_found` is the number of scanned files minus the number of
      distinct digests among them. */
  lemma DuplicatesFoundIsFilesMinusDigests(path: Path, entries: seq<Entry>, hash: seq<byte> -> string)
    ensures var g := AddAll(Groups([], map[]), FilesIn(entries, path), hash);
            ExpectedReport(path, entries, hash).duplicatesFound == |FilesIn(entries, path)| - |g.keys|
  {
    var fs := FilesIn(entries, path);
    var g := AddAll(Groups([], map[]), fs, hash);
    GroupsPartition(fs, hash);
    TotalOfGroups(fs, hash);
    DuplicatesFoundByTotal(g.keys, g.lists, |g.keys|);
    assert g.keys[..|g.keys|] == g.keys;
  }

  /** The digests of the duplicate sets among the first `n` keys: those
      whose list holds two or more files, in key order. */
  function DuplicateDigests(keys: seq<string>, lists: map<string, seq<Found>>, n: nat): seq<string>
    requires n <= |keys|
  {
    if n == 0 then []
    else DuplicateDigests(keys, lists, n - 1) + if |ListOf(lists, keys[n - 1])| <= 1 then [] else [keys[n - 1]]
  }

  /** Set k of `DuplicateSets` is the list of digest k of
      `DuplicateDigests`, which is a key with two or more files. */
  lemma {:induction false} SetsOfDigests(keys: seq<string>, lists: map<string, seq<Found>>, n: nat)
    requires n <= |keys|
    ensures var ds := DuplicateDigests(keys, lists, n);
            var sets := DuplicateSets(keys, lists, n);
            && |ds| == |sets|
            && (forall k :: 0 <= k < |ds| ==>
                  |ListOf(lists, ds[k])| >= 2 &&
                  sets[k] == DuplicatesData(FilesOf(ListOf(lists, ds[k])), |ListOf(lists, ds[k])[0].content|))
  {
    if n > 0 {
      SetsOfDigests(keys, lists, n - 1);
      var ds' := DuplicateDigests(keys, lists, n - 1);
      var sets' := DuplicateSets(keys, lists, n - 1);
      var files := ListOf(lists, keys[n - 1]);
      if |files| >= 2 {
        var ds := ds' + [keys[n - 1]];
        var sets := sets' + [DuplicatesData(FilesOf(files), |files[0].content|)];
        forall k | 0 <= k < |ds|
          ensures |ListOf(lists, ds[k])| >= 2
          ensures sets[k] == DuplicatesData(FilesOf(ListOf(lists, ds[k])), |ListOf(lists, ds[k])[0].content|)
        {
          if k < |ds'| {
            assert ds[k] == ds'[k] && sets[k] == sets'[k];
          }
        }
      }
    }
  }

  /** The digests of the duplicate sets are the keys with two or more
      files, each once. */
  lemma {:induction false} DigestsAreDuplicateKeys(keys: seq<string>, lists: map<string, seq<Found>>, n: nat)
    requires n <= |keys| && Distinct(keys)
    ensures Distinct(DuplicateDigests(keys, lists, n))
    ensures forall d :: d in DuplicateDigests(keys, lists, n) <==> d in keys[..n] && |ListOf(lists, d)| >= 2
  {
    if n > 0 {
      DigestsAreDuplicateKeys(keys, lists, n - 1);
      var key := keys[n - 1];
      assert keys[..n] == keys[..n - 1] + [key];
      assert key !in keys[..n - 1];
    }
  }

  /** Under an exact grouping, the list of any digest is the files with
      that digest, and the digest is a key exactly when some file has it. */
  lemma ListOfIsWithDigest(g: Groups, fs: seq<Found>, hash: seq<byte> -> string, d: string)
    requires Partitions(g, fs, hash)
    ensures ListOf(g.lists, d) == WithDigest(fs, hash, d)
    ensures d in g.keys <==> WithDigest(fs, hash, d) != []
  {
  }

  /** `sets` holds the digest groups of two or more files of `fs`, the
      digest of set k being `ds[k]`: one set per digest shared by two or
      more files, and no other; each set holds exactly the files of its
      digest, in scan order, and is sized by the first of them. */
  ghost predicate DigestGroups(sets: seq<DuplicatesData>, ds: seq<string>, fs: seq<Found>,
                               hash: seq<byte> -> string)
  {
    && |ds| == |sets|
    && Distinct(ds)
    && (forall d :: d in ds <==> |WithDigest(fs, hash, d)| >= 2)
    && (forall k :: 0 <= k < |sets| ==>
          && |WithDigest(fs, hash, ds[k])| >= 2
          && sets[k].files == FilesOf(WithDigest(fs, hash, ds[k]))
          && sets[k].size == |WithDigest(fs, hash, ds[k])[0].content|)
  }

  /** `sets` groups the files `fs` by digest: they are its digest groups,
      a file whose digest another file shares lies in the one set of its
      digest, and a file with a digest of its own lies in none. */
  ghost predicate GroupedByDigest(sets: seq<DuplicatesData>, ds: seq<string>, fs: seq<Found>,
                                  hash: seq<byte> -> string)
  {
    && DigestGroups(sets, ds, fs, hash)
    && (forall i :: 0 <= i < |fs| && |WithDigest(fs, hash, hash(fs[i].content))| >= 2 ==>
          exists k :: 0 <= k < |sets| && ds[k] == hash(fs[i].content) &&
                      File(fs[i].path, Some(fs[i].created)) in sets[k].files)
    && (forall i :: 0 <= i < |fs| && |WithDigest(fs, hash, hash(fs[i].content))| < 2 ==>
          hash(fs[i].content) !in ds)
  }

  /** The duplicate sets of the grouping of `fs` are its digest groups. */
  lemma SetsAreDigestGroups(fs: seq<Found>, hash: seq<byte> -> string)
    ensures var g := AddAll(Groups([], map[]), fs, hash);
            DigestGroups(DuplicateSets(g.keys, g.lists, |g.keys|), DuplicateDigests(g.keys, g.lists, |g.keys|),
                         fs, hash)
  {
    var g := AddAll(Groups([], map[]), fs, hash);
    var ds := DuplicateDigests(g.keys, g.lists, |g.keys|);
    var sets := DuplicateSets(g.keys, g.lists, |g.keys|);
    GroupsPartition(fs, hash);
    SetsOfDigests(g.keys, g.lists, |g.keys|);
    DigestsAreDuplicateKeys(g.keys, g.lists, |g.keys|);
    assert g.keys[..|g.keys|] == g.keys;
    forall d
      ensures d in ds <==> |WithDigest(fs, hash, d)| >= 2
    {
      ListOfIsWithDigest(g, fs, hash, d);
    }
    forall k | 0 <= k < |sets|
      ensures |WithDigest(fs, hash, ds[k])| >= 2
      ensures sets[k].files == FilesOf(WithDigest(fs, hash, ds[k]))
      ensures sets[k].size == |WithDigest(fs, hash, ds[k])[0].content|
    {
      ListOfIsWithDigest(g, fs, hash, ds[k]);
    }
  }

  /** Digest groups place every file with a shared digest in the one set
      of its digest, and no file with a digest of its own in any. */
  lemma FilesInTheirGroups(sets: seq<DuplicatesData>, ds: seq<string>, fs: seq<Found>, hash: seq<byte> -> string)
    requires DigestGroups(sets, ds, fs, hash)
    ensures GroupedByDigest(sets, ds, fs, hash)
  {
    forall i | 0 <= i < |fs| && |WithDigest(fs, hash, hash(fs[i].content))| >= 2
      ensures exists k :: 0 <= k < |sets| && ds[k] == hash(fs[i].content) &&
                          File(fs[i].path, Some(fs[i].created)) in sets[k].files
    {
      var k :| 0 <= k < |ds| && ds[k] == hash(fs[i].content);
      InItsGroup(fs, hash, i);
    }
  }

  /** A scanned file lies in the set of its digest. */
  lemma InItsGroup(fs: seq<Found>, hash: seq<byte> -> string, i: nat)
    requires i < |fs|
    ensures File(fs[i].path, Some(fs[i].created)) in FilesOf(WithDigest(fs, hash, hash(fs[i].content)))
  {
    InWithDigest(fs, hash, i);
    var w := WithDigest(fs, hash, hash(fs[i].content));
    var j :| 0 <= j < |w| && w[j] == fs[i];
    assert FilesOf(w)[j] == File(fs[i].path, Some(fs[i].created));
  }

  /** The duplicate sets `scan_dir` reports group the scanned files by
      digest, as `GroupedByDigest` spells out. */
  lemma DuplicateSetsGroupDuplicates(path: Path, entries: seq<Entry>, hash: seq<byte> -> string)
    ensures var fs := FilesIn(entries, path);
            var g := AddAll(Groups([], map[]), fs, hash);
            GroupedByDigest(ExpectedReport(path, entries, hash).duplicates,
                            DuplicateDigests(g.keys, g.lists, |g.keys|), fs, hash)
  {
    var fs := FilesIn(entries, path);
    var g := AddAll(Groups([], map[]), fs, hash);
    SetsAreDigestGroups(fs, hash);
    FilesInTheirGroups(DuplicateSets(g.keys, g.lists, |g.keys|), DuplicateDigests(g.keys, g.lists, |g.keys|), fs, hash);
  }

  /** The number of entries at every depth below a directory. */
  function Nodes(entries: seq<Entry>): nat
  {
    if entries == [] then 0
    else
      Nodes(entries[..|entries| - 1]) + 1 +
      match entries[|entries| - 1]
      case Directory(_, children) => Nodes(children)
      case _ => 0
  }

  /** When the scan succeeds, every entry below the root is counted exactly
      once, either as a scanned file or as a scanned folder. */
  lemma {:induction false} EveryEntryCounted(entries: seq<Entry>, dir: Path)
    requires AllOk(entries)
    ensures |FilesIn(entries, dir)| + DirsIn(entries) == Nodes(entries)
  {
    if entries != [] {
      EveryEntryCounted(entries[..|entries| - 1], dir);
      match entries[|entries| - 1]
      case Directory(name, children) =>
        EveryEntryCounted(children, dir + [name]);
      case _ =>
    }
  }

  /** The `two_duplicates` layout below the scanned directory: two files with
      the text "same text", an empty directory, and a directory holding one
      file with different text. */
  function TwoDuplicates(sameText: seq<byte>, sameFileName: seq<byte>, created: Date): seq<Entry>
  {
    [Directory("path", [
      RegularFile("file 1.txt", sameText, created),
      RegularFile("file 2.txt", sameText, created),
      Directory("empty dir", []),
      Directory("dir", [RegularFile("file 1.txt", sameFileName, created)])])]
  }

  /** Scanning `two_duplicates` finds 3 files in 4 folders and one duplicate
      set of size 9, provided the two texts have different digests. */
  lemma TwoDuplicatesReport(root: Path, sameText: seq<byte>, sameFileName: seq<byte>, created: Date,
                            hash: seq<byte> -> string)
    requires |sameText| == 9 && hash(sameText) != hash(sameFileName)
    ensures var r := ExpectedReport(root, TwoDuplicates(sameText, sameFileName, created), hash);
            var dir := root + ["path"];
            r.filesScanned == 3 && r.foldersScanned == 4 && r.duplicatesFound == 1 &&
            r.duplicates == [DuplicatesData([File(dir + ["file 1.txt"], Some(created)),
                                             File(dir + ["file 2.txt"], Some(created))], 9)]
  {
    var dir := root + ["path"];
    var f1 := Found(dir + ["file 1.txt"], sameText, created);
    var f2 := Found(dir + ["file 2.txt"], sameText, created);
    var f3 := Found(dir + ["dir", "file 1.txt"], sameFileName, created);
    TwoDuplicatesFiles(root, sameText, sameFileName, created);
    TwoDuplicatesGroups(f1, f2, f3, hash);
    var a, b := hash(sameText), hash(sameFileName);
    var lists := map[a := [f1, f2], b := [f3]];
    assert DuplicatesFound([a, b], lists, 1) == 1;
    assert DuplicatesFound([a, b], lists, 2) == 1;
    assert DuplicateSets([a, b], lists, 1) == [DuplicatesData(FilesOf([f1, f2]), 9)];
    assert DuplicateSets([a, b], lists, 2) == [DuplicatesData(FilesOf([f1, f2]), 9)];
    assert FilesOf([f1, f2]) == [File(f1.path, Some(created)), File(f2.path, Some(created))];
  }

  lemma TwoDuplicatesFiles(root: Path, sameText: seq<byte>, sameFileName: seq<byte>, created: Date)
    ensures var dir := root + ["path"];
            FilesIn(TwoDuplicates(sameText, sameFileName, created), root) ==
              [Found(dir + ["file 1.txt"], sameText, created), Found(dir + ["file 2.txt"], sameText, created),
               Found(dir + ["dir", "file 1.txt"], sameFileName, created)]
    ensures DirsIn(TwoDuplicates(sameText, sameFileName, created)) == 3
  {
    var entries := TwoDuplicates(sameText, sameFileName, created);
    var dir := root + ["path"];
    var f1 := Found(dir + ["file 1.txt"], sameText, created);
    var f2 := Found(dir + ["file 2.txt"], sameText, created);
    var f3 := Found(dir + ["dir", "file 1.txt"], sameFileName, created);
    var inner := entries[0].entries;
    var sub := inner[3].entries;
    assert sub[..0] == [];
    assert (dir + ["dir"]) + ["file 1.txt"] == dir + ["dir", "file 1.txt"];
    assert FilesIn(sub, dir + ["dir"]) == [f3];
    assert DirsIn(sub) == 0;
    assert inner[..1][..0] == [];
    assert inner[..2][..1] == inner[..1];
    assert inner[..3][..2] == inner[..2];
    assert inner[..3] == inner[..|inner| - 1];
    assert FilesIn(inner[..1], dir) == [f1];
    assert FilesIn(inner[..2], dir) == [f1, f2];
    assert FilesIn(inner[..3], dir) == [f1, f2];
    assert FilesIn(inner, dir) == [f1, f2, f3];
    assert DirsIn(inner[..1]) == 0;
    assert DirsIn(inner[..2]) == 0;
    assert DirsIn(inner[..3]) == 1;
    assert DirsIn(inner) == 2;
    assert entries[..0] == [];
  }

  lemma TwoDuplicatesGroups(f1: Found, f2: Found, f3: Found, hash: seq<byte> -> string)
    requires f1.content == f2.content && hash(f1.content) != hash(f3.content)
    ensures var a, b := hash(f1.content), hash(f3.content);
            AddAll(Groups([], map[]), [f1, f2, f3], hash) == Groups([a, b], map[a := [f1, f2], b := [f3]])
  {
    var a, b := hash(f1.content), hash(f3.content);
    var fs := [f1, f2, f3];
    assert fs[..2] == [f1, f2] && fs[..2][..1] == [f1] && [f1][..0] == [];
    assert AddAll(Groups([], map[]), [f1], hash) == Groups([a], map[a := [f1]]);
    assert [f1, f2][..1] == [f1];
    assert AddAll(Groups([], map[]), [f1, f2], hash) == AddFile(Groups([a], map[a := [f1]]), a, f2);
    assert [f1] + [f2] == [f1, f2];
    assert map[a := [f1]][a := [f1, f2]] == map[a := [f1, f2]];
    assert AddAll(Groups([], map[]), [f1, f2], hash) == Groups([a], map[a := [f1, f2]]);
  }
}
