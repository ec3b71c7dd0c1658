/**
 * The maintenance script that lists the binary and auto-generated files of a
 * directory tree: the binary test on a file's first bytes, the top-down walk
 * that prunes ignored directories, and the listing it writes, one path
 * relative to the root per line, with the number of paths written.
 *
 * The directory tree is an input (the walk's listing order is the order of
 * each directory's entries); a file whose bytes cannot be read has no
 * content.
 */
module FileScanner {
  import opened Common

  /** Directory names the walk never descends into. */
  const IgnoreDirs: set<string> := {
    "scripts", "images", "build", "dist", "out", "target", "bin", "obj", ".next", ".nuxt", ".cache",
    "coverage", "test_output", "tests", "__pycache__", ".pytest_cache", ".tox", ".gradle", ".idea",
    ".vscode", ".vs", ".npm", ".yarn", ".venv"
  }

  /** File names listed whatever their content. */
  const AutoGeneratedFiles: set<string> := {
    "poetry.lock", "package-lock.json", "yarn.lock", "Pipfile.lock", "Gemfile.lock", "npm-debug.log",
    "yarn-error.log", ".DS_Store", "Thumbs.db"
  }

  /** How many leading bytes the binary test reads. */
  const ChunkSize := 1024

  /** A directory tree: a file's bytes are None when they cannot be read. */
  datatype Entry = File(name: string, content: Option<seq<bv8>>) | Dir(name: string, entries: seq<Entry>)

  // ---------------------------------------------------------------------------
  // The binary test

  /** At most the first ChunkSize bytes, as one read of that size returns them. */
  function Chunk(bytes: seq<bv8>): (r: seq<bv8>)
    ensures |r| <= ChunkSize && |r| <= |bytes| && r == bytes[..|r|]
    ensures |r| == ChunkSize || r == bytes
  {
    if |bytes| <= ChunkSize then bytes else bytes[..ChunkSize]
  }

  /** A file is binary when a zero byte appears in its first ChunkSize bytes, or when it cannot be read. */
  function IsBinaryFile(content: Option<seq<bv8>>): (r: bool)
    ensures r <==> content.None? ||
                   exists i :: 0 <= i < |content.value| && i < ChunkSize && content.value[i] == 0
  {
    match content
    case None => true
    case Some(bytes) =>
      var chunk := Chunk(bytes);
      assert forall i :: 0 <= i < |chunk| ==> chunk[i] == bytes[i];
      0 in chunk
  }

  /** Bytes after the first ChunkSize never change the verdict. */
  lemma BinaryDecidedByChunk(bytes: seq<bv8>, more: seq<bv8>)
    requires |bytes| >= ChunkSize
    ensures IsBinaryFile(Some(bytes + more)) == IsBinaryFile(Some(bytes))
  {
    var longer := bytes + more;
    assert forall i :: 0 <= i < ChunkSize ==> longer[i] == bytes[i];
  }

  lemma BinaryExamples()
    ensures IsBinaryFile(None)
    ensures !IsBinaryFile(Some([]))
    ensures IsBinaryFile(Some([65, 0, 66]))
    ensures !IsBinaryFile(Some(seq(ChunkSize, _ => 65) + [0]))
  {
    var mixed: seq<bv8> := [65, 0, 66];
    assert mixed[1] == 0;
    var late := seq(ChunkSize, _ => 65 as bv8) + [0];
    assert forall i :: 0 <= i < ChunkSize ==> late[i] == 65;
  }

  /** A file is listed when it is binary or its name is a known generated file. */
  predicate Listed(f: Entry)
  {
    f.File? && (IsBinaryFile(f.content) || f.name in AutoGeneratedFiles)
  }

  // ---------------------------------------------------------------------------
  // What the walk lists

  /** A directory the walk enters: not in IgnoreDirs. */
  predicate Kept(e: Entry)
  {
    e.Dir? && e.name !in IgnoreDirs
  }

  /** The path of `name`, relative to the root, in the directory reached through `prefix`. */
  function RelPath(prefix: seq<string>, name: string): string
  {
    Join(prefix + [name], '/')
  }

  /** The listed path for one entry of the directory reached through `prefix`, if it is a listed file. */
  function Hit(prefix: seq<string>, e: Entry): seq<string>
  {
    if Listed(e) then [RelPath(prefix, e.name)] else []
  }

  /** The listed files among the entries of one directory, in order. */
  function FilesFound(prefix: seq<string>, entries: seq<Entry>): (r: seq<string>)
    ensures |r| <= |entries|
    decreases |entries|
  {
    if entries == [] then []
    else FilesFound(prefix, entries[..|entries| - 1]) + Hit(prefix, entries[|entries| - 1])
  }

  /** Everything the walk lists below the directory `d`, reached through `prefix`: its own files first, then each kept subdirectory in order. */
  function Found(prefix: seq<string>, d: Entry): seq<string>
    decreases d, 1, 0
  {
    if d.File? then [] else FilesFound(prefix, d.entries) + SubdirsFound(prefix, d, 0)
  }

  /** What the walk lists below the kept subdirectories of `d` from entry `i` on. */
  function SubdirsFound(prefix: seq<string>, d: Entry, i: nat): seq<string>
    requires d.Dir? && i <= |d.entries|
    decreases d, 0, |d.entries| - i
  {
    if i == |d.entries| then []
    else
      var c := d.entries[i];
      (if Kept(c) then Found(prefix + [c.name], c) else []) + SubdirsFound(prefix, d, i + 1)
  }

  // ---------------------------------------------------------------------------
  // The walk

  /** One more entry adds its own hit, if any, at the end. */
  lemma FilesFoundStep(prefix: seq<string>, entries: seq<Entry>, i: nat)
    requires i < |entries|
    ensures FilesFound(prefix, entries[..i + 1]) == FilesFound(prefix, entries[..i]) + Hit(prefix, entries[i])
    ensures !Listed(entries[i]) ==> FilesFound(prefix, entries[..i + 1]) == FilesFound(prefix, entries[..i])
  {
    assert entries[..i + 1][..i] == entries[..i];
    assert FilesFound(prefix, entries[..i]) + [] == FilesFound(prefix, entries[..i]);
  }

  /** The loop over one directory's files: each listed file is written as a line, relative to the root, and counted. */
  method ListFiles(prefix: seq<string>, entries: seq<Entry>, written: string, total: nat) returns (out: string, count: nat)
    ensures out == written + ListLines("", "", FilesFound(prefix, entries))
    ensures count == total + |FilesFound(prefix, entries)|
  {
    out, count := written, total;
    for i := 0 to |entries|
      invariant out == written + ListLines("", "", FilesFound(prefix, entries[..i]))
      invariant count == total + |FilesFound(prefix, entries[..i])|
    {
      var e := entries[i];
      ghost var before := FilesFound(prefix, entries[..i]);
      FilesFoundStep(prefix, entries, i);
      if e.File? && (IsBinaryFile(e.content) || e.name in AutoGeneratedFiles) {
        var relativePath := Join(prefix + [e.name], '/');
        assert written + ListLines("", "", before + [relativePath]) == out + (relativePath + "\n") by {
          ListLinesSnoc("", "", before, relativePath);
          assert ListLine("", "", relativePath) == relativePath;
          Assoc(written, ListLines("", "", before), relativePath + "\n");
        }
        out := out + (relativePath + "\n");
        count := count + 1;
      }
    }
    assert entries[..|entries|] == entries;
  }

  /**
   * One directory of the top-down walk: its listed files are written and
   * counted, then the walk descends into each subdirectory whose name is not
   * ignored.
   */
  method Walk(prefix: seq<string>, d: Entry, written: string, total: nat) returns (out: string, count: nat)
    ensures out == written + ListLines("", "", Found(prefix, d))
    ensures count == total + |Found(prefix, d)|
    decreases d
  {
    out, count := written, total;
    if d.File? {
      return;
    }
    out, count := ListFiles(prefix, d.entries, out, count);
    ghost var filesOut, filesCount := out, count;
    for i := 0 to |d.entries|
      invariant out + ListLines("", "", SubdirsFound(prefix, d, i)) == filesOut + ListLines("", "", SubdirsFound(prefix, d, 0))
      invariant count + |SubdirsFound(prefix, d, i)| == filesCount + |SubdirsFound(prefix, d, 0)|
    {
      var c := d.entries[i];
      ghost var before, countBefore := out, count;
      if c.Dir? && c.name !in IgnoreDirs {
        out, count := Walk(prefix + [c.name], c, out, count);
      }
      assert out + ListLines("", "", SubdirsFound(prefix, d, i + 1)) == before + ListLines("", "", SubdirsFound(prefix, d, i)) &&
             count + |SubdirsFound(prefix, d, i + 1)| == countBefore + |SubdirsFound(prefix, d, i)| by {
        var below := if Kept(c) then Found(prefix + [c.name], c) else [];
        var later := SubdirsFound(prefix, d, i + 1);
        assert SubdirsFound(prefix, d, i) == below + later;
        assert out == before + ListLines("", "", below);
        ListLinesAppend("", "", below, later);
        Assoc(before, ListLines("", "", below), ListLines("", "", later));
      }
    }
    ListLinesAppend("", "", FilesFound(prefix, d.entries), SubdirsFound(prefix, d, 0));
    Assoc(written, ListLines("", "", FilesFound(prefix, d.entries)), ListLines("", "", SubdirsFound(prefix, d, 0)));
  }

  /** find_files: walk the tree from its root, returning the number of paths written and the text written. */
  method FindFiles(root: Entry) returns (total: nat, written: string)
    ensures written == ListLines("", "", Found([], root))
    ensures total == |Found([], root)|
  {
    written, total := Walk([], root, "", 0);
  }

  /** When no listed path holds a newline, the text read back as lines is the listed paths, so the count is the number of lines. */
  lemma WrittenLines(found: seq<string>)
    requires forall k :: 0 <= k < |found| ==> '\n' !in found[k]
    ensures Split(ListLines("", "", found), '\n') == found + [""]
    ensures |Split(ListLines("", "", found), '\n')| == |found| + 1
  {
    ListLinesSplit("", "", found);
    forall k | 0 <= k < |found| ensures ListLine("", "", found[k]) == found[k] {
      assert "" + found[k] + "" == found[k];
    }
    assert seq(|found|, k requires 0 <= k < |found| => ListLine("", "", found[k])) == found;
  }

  // ---------------------------------------------------------------------------
  // What the listing means

  /** The file `f` lies below `d` along the directory names `path`, each of them a kept directory. */
  predicate Located(d: Entry, path: seq<string>, f: Entry)
    decreases d
  {
    d.Dir? &&
    if path == [] then f in d.entries && f.File?
    else exists c :: c in d.entries && Kept(c) && c.name == path[0] && Located(c, path[1..], f)
  }

  /** The walk never enters an ignored directory: no directory on the way to a located file is ignored. */
  lemma {:induction false} LocatedPruned(d: Entry, path: seq<string>, f: Entry)
    requires Located(d, path, f)
    ensures forall k :: 0 <= k < |path| ==> path[k] !in IgnoreDirs
    decreases d
  {
    if path != [] {
      var c :| c in d.entries && Kept(c) && c.name == path[0] && Located(c, path[1..], f);
      LocatedPruned(c, path[1..], f);
      forall k | 0 <= k < |path| ensures path[k] !in IgnoreDirs {
        if k > 0 {
          assert path[k] == path[1..][k - 1];
        }
      }
    }
  }

  /** A path is among a directory's own listed files exactly when a listed file among its entries has that path. */
  lemma {:induction false} FilesFoundMembers(prefix: seq<string>, entries: seq<Entry>, p: string)
    ensures p in FilesFound(prefix, entries) <==>
              exists f :: f in entries && Listed(f) && p == RelPath(prefix, f.name)
    decreases |entries|
  {
    if entries != [] {
      var front := entries[..|entries| - 1];
      var last := entries[|entries| - 1];
      FilesFoundMembers(prefix, front, p);
      assert entries == front + [last];
      assert forall f :: f in entries <==> f in front || f == last;
    }
  }

  /** Everything listed below `d` is a listed file located below it, written relative to the root. */
  lemma {:induction false} FoundSound(prefix: seq<string>, d: Entry, p: string)
    requires p in Found(prefix, d)
    ensures exists path, f :: Located(d, path, f) && Listed(f) && p == RelPath(prefix + path, f.name)
    decreases d, 1, 0
  {
    if p in FilesFound(prefix, d.entries) {
      FilesFoundMembers(prefix, d.entries, p);
      var f :| f in d.entries && Listed(f) && p == RelPath(prefix, f.name);
      assert prefix + [] == prefix;
      assert Located(d, [], f);
    } else {
      SubdirsSound(prefix, d, 0, p);
    }
  }

  lemma {:induction false} SubdirsSound(prefix: seq<string>, d: Entry, i: nat, p: string)
    requires d.Dir? && i <= |d.entries|
    requires p in SubdirsFound(prefix, d, i)
    ensures exists path, f :: Located(d, path, f) && Listed(f) && p == RelPath(prefix + path, f.name)
    decreases d, 0, |d.entries| - i
  {
    var c := d.entries[i];
    if Kept(c) && p in Found(prefix + [c.name], c) {
      FoundSound(prefix + [c.name], c, p);
      var path, f :| Located(c, path, f) && Listed(f) && p == RelPath(prefix + [c.name] + path, f.name);
      var full := [c.name] + path;
      assert full[0] == c.name && full[1..] == path;
      assert Located(d, full, f);
      assert prefix + [c.name] + path == prefix + full;
    } else {
      SubdirsSound(prefix, d, i + 1, p);
    }
  }

  /** What the walk lists below the subdirectory at index `j` is listed from any earlier index on. */
  lemma {:induction false} SubdirsInclude(prefix: seq<string>, d: Entry, i: nat, j: nat, p: string)
    requires d.Dir? && i <= j < |d.entries| && Kept(d.entries[j])
    requires p in Found(prefix + [d.entries[j].name], d.entries[j])
    ensures p in SubdirsFound(prefix, d, i)
    decreases j - i
  {
    if i < j {
      SubdirsInclude(prefix, d, i + 1, j, p);
    }
  }

  /** Every listed file located below `d` is listed, under its path relative to the root. */
  lemma {:induction false} FoundComplete(prefix: seq<string>, d: Entry, path: seq<string>, f: Entry)
    requires Located(d, path, f) && Listed(f)
    ensures RelPath(prefix + path, f.name) in Found(prefix, d)
    decreases d
  {
    if path == [] {
      assert prefix + [] == prefix;
      FilesFoundMembers(prefix, d.entries, RelPath(prefix, f.name));
    } else {
      var c :| c in d.entries && Kept(c) && c.name == path[0] && Located(c, path[1..], f);
      FoundComplete(prefix + [c.name], c, path[1..], f);
      assert prefix + [c.name] + path[1..] == prefix + path;
      var j :| 0 <= j < |d.entries| && d.entries[j] == c;
      SubdirsInclude(prefix, d, 0, j, RelPath(prefix + path, f.name));
    }
  }

  /**
   * The listing from the root holds exactly the paths, relative to the root,
   * of the files that are binary or generated and do not lie below an
   * ignored directory.
   */
  lemma FindFilesListsExactly(root: Entry, p: string)
    ensures p in Found([], root) <==>
              exists path, f :: Located(root, path, f) && Listed(f) && p == Join(path + [f.name], '/')
  {
    if p in Found([], root) {
      FoundSound([], root, p);
      var path, f :| Located(root, path, f) && Listed(f) && p == RelPath([] + path, f.name);
      assert [] + path == path;
    }
    if exists path, f :: Located(root, path, f) && Listed(f) && p == Join(path + [f.name], '/') {
      var path, f :| Located(root, path, f) && Listed(f) && p == Join(path + [f.name], '/');
      FoundComplete([], root, path, f);
      assert [] + path == path;
    }
  }
}
