// The file browser's directory listing, its scene-file filter, the
// extension helpers and the human-readable file size. The native open and
// save dialogs are not modelled; the directory is read from a `Disk` value.

module FileBrowsing {
  import opened Common

  /** FileBrowser::FileInfo: one listed entry. */
  datatype FileInfo = FileInfo(filename: string, fullPath: string, isDirectory: bool, fileSize: nat, extension: string)

  /** The text after the last '.' of a name, or "" when it has none. */
  function TextAfterLastDot(name: string): string
  {
    var k := LastIndexOf(name, '.');
    if k < 0 then "" else name[k + 1..]
  }

  /** FileInfo(name, path, isDir, size): the four arguments are copied; a
      file's extension is what follows the last '.' of its name (nothing
      when there is no '.'), and a directory has no extension. */
  function MakeFileInfo(name: string, path: string, isDir: bool, size: nat): (f: FileInfo)
    ensures f.filename == name && f.fullPath == path && f.isDirectory == isDir && f.fileSize == size
    ensures isDir || '.' !in name ==> f.extension == ""
    ensures !isDir && '.' in name ==>
      && '.' !in f.extension
      && |f.extension| < |name|
      && name == name[..|name| - |f.extension| - 1] + "." + f.extension
  {
    TextAfterLastDotSplits(name);
    FileInfo(name, path, isDir, size, if isDir then "" else TextAfterLastDot(name))
  }

  /** A name with a '.' is what precedes its last '.', the '.', and a
      dot-free rest; a name without one has no text after a dot. */
  lemma TextAfterLastDotSplits(name: string)
    ensures '.' !in name ==> TextAfterLastDot(name) == ""
    ensures '.' in name ==>
      var ext := TextAfterLastDot(name);
      && '.' !in ext
      && |ext| < |name|
      && name == name[..|name| - |ext| - 1] + "." + ext
  {
    LastIndexOfIsLast(name, '.');
    var k := LastIndexOf(name, '.');
    if '.' in name {
      var d :| 0 <= d < |name| && name[d] == '.';
      assert k >= 0;
      var ext := name[k + 1..];
      forall i | 0 <= i < |ext|
        ensures ext[i] != '.'
      {
        assert ext[i] == name[k + 1 + i];
      }
      assert name == name[..k] + "." + name[k + 1..];
    }
  }

  /** The constructor's defaults: a file of size 0. */
  function MakeDefaultFileInfo(name: string, path: string): (f: FileInfo)
    ensures f == MakeFileInfo(name, path, false, 0)
    ensures !f.isDirectory && f.fileSize == 0
  {
    MakeFileInfo(name, path, false, 0)
  }

  /** getFileExtension: path::extension() without its leading '.'. */
  function GetFileExtension(path: string): (ext: string)
    ensures '.' !in ext && '/' !in ext
    ensures PathExtension(path) == [] || PathExtension(path) == "." + ext
  {
    GetFileExtensionShape(path);
    var e := PathExtension(path);
    if e != [] && e[0] == '.' then e[1..] else e
  }

  lemma GetFileExtensionShape(path: string)
    ensures var e := PathExtension(path);
      && '.' !in (if e != [] && e[0] == '.' then e[1..] else e)
      && '/' !in e
      && (e == [] || e == "." + e[1..])
  {
    PathParts(path);
    var name := FileName(path);
    NotInSuffix(name, ExtensionStart(name), '/');
    var e := PathExtension(path);
    if e != [] {
      assert e == [e[0]] + e[1..];
    }
  }

  /** A character missing from a string is missing from its suffixes. */
  lemma NotInSuffix(s: string, k: nat, c: char)
    requires k <= |s| && c !in s
    ensures c !in s[k..]
  {
  }

  /** A name without '/' is its own file name. */
  lemma FileNameOfPlainName(name: string)
    requires '/' !in name
    ensures FileName(name) == name
  {
    FileNameIsLastComponent(name);
    assert forall i :: 0 <= i < |name| ==> name[i] != '/';
  }

  /** The two ways of taking an extension agree on a file's plain name
      unless the name's only '.' leads it (".scene") or the name is "..":
      there path::extension() sees no extension while FileInfo does. */
  lemma {:induction false} ExtensionsAgree(name: string)
    requires '/' !in name && name != ".."
    requires LastIndexOf(name, '.') != 0
    ensures MakeFileInfo(name, name, false, 0).extension == GetFileExtension(name)
  {
    FileNameOfPlainName(name);
    var k := LastIndexOf(name, '.');
    if k > 0 {
      assert name != ".";
      assert ExtensionStart(name) == k;
      assert PathExtension(name) == name[k..];
      assert name[k..] == "." + name[k + 1..];
    }
  }

  /** A hidden file named ".scene" has extension "scene" as a FileInfo but
      none as far as getFileExtension is concerned. */
  lemma HiddenFileExtensionsDiffer()
    ensures MakeFileInfo(".scene", ".scene", false, 0).extension == "scene"
    ensures GetFileExtension(".scene") == ""
  {
    assert LastIndexOf(".scene", '.') == 0;
    FileNameOfPlainName(".scene");
    assert ExtensionStart(".scene") == 6;
  }

  // ---------------------------------------------------------------------
  // The listing order.

  /** std::string operator<: lexicographic order on characters. */
  predicate LexLess(a: string, b: string)
  {
    if a == [] then b != []
    else if b == [] then false
    else if a[0] != b[0] then a[0] < b[0]
    else LexLess(a[1..], b[1..])
  }

  lemma {:induction false} LexLessAsymmetric(a: string, b: string)
    ensures LexLess(a, b) ==> !LexLess(b, a)
  {
    if a != [] && b != [] && a[0] == b[0] {
      LexLessAsymmetric(a[1..], b[1..]);
    }
  }

  /** Whenever a < c, every b lies above a or below c. */
  lemma {:induction false} LexLessSplits(a: string, b: string, c: string)
    ensures LexLess(a, c) ==> LexLess(a, b) || LexLess(b, c)
  {
    if a != [] && b != [] && c != [] && a[0] == b[0] && b[0] == c[0] {
      LexLessSplits(a[1..], b[1..], c[1..]);
    }
  }

  /** Two strings neither of which is below the other are equal. */
  lemma {:induction false} LexLessTotal(a: string, b: string)
    ensures !LexLess(a, b) && !LexLess(b, a) ==> a == b
  {
    if a != [] && b != [] && a[0] == b[0] {
      LexLessTotal(a[1..], b[1..]);
      if a[1..] == b[1..] {
        assert a == [a[0]] + a[1..] && b == [b[0]] + b[1..];
      }
    }
  }

  /** The comparator of listDirectory: directories before files, then by
      file name. */
  predicate Before(a: FileInfo, b: FileInfo)
  {
    if a.isDirectory != b.isDirectory then a.isDirectory else LexLess(a.filename, b.filename)
  }

  lemma BeforeAsymmetric(a: FileInfo, b: FileInfo)
    ensures Before(a, b) ==> !Before(b, a)
  {
    LexLessAsymmetric(a.filename, b.filename);
  }

  /** Not being before is transitive: the comparator is a strict weak
      order, as std::sort requires. */
  lemma NotBeforeTransitive(a: FileInfo, b: FileInfo, c: FileInfo)
    ensures !Before(a, b) && !Before(b, c) ==> !Before(a, c)
  {
    LexLessSplits(a.filename, b.filename, c.filename);
  }

  /** Entries the comparator cannot tell apart have the same kind and name. */
  lemma BeforeTotal(a: FileInfo, b: FileInfo)
    ensures !Before(a, b) && !Before(b, a) ==> a.isDirectory == b.isDirectory && a.filename == b.filename
  {
    LexLessTotal(a.filename, b.filename);
  }

  /** No entry is placed after one that the comparator puts after it. */
  ghost predicate Ordered(s: seq<FileInfo>)
  {
    forall i, j :: 0 <= i < j < |s| ==> !Before(s[j], s[i])
  }

  /** x inserted into s before the first element that x does not follow. */
  function Insert(x: FileInfo, s: seq<FileInfo>): (r: seq<FileInfo>)
    ensures multiset(r) == multiset(s) + multiset{x}
  {
    if s == [] then [x]
    else if !Before(s[0], x) then [x] + s
    else
      assert s == [s[0]] + s[1..];
      [s[0]] + Insert(x, s[1..])
  }

  /** Inserting into an ordered list keeps it ordered. */
  lemma {:induction false} InsertOrdered(x: FileInfo, s: seq<FileInfo>)
    requires Ordered(s)
    ensures Ordered(Insert(x, s))
  {
    if s == [] {
    } else if !Before(s[0], x) {
      forall j | 0 <= j < |s|
        ensures !Before(s[j], x)
      {
        NotBeforeTransitive(s[j], s[0], x);
      }
    } else {
      var rest := Insert(x, s[1..]);
      InsertOrdered(x, s[1..]);
      BeforeAsymmetric(s[0], x);
      assert s == [s[0]] + s[1..];
      forall j | 0 <= j < |rest|
        ensures !Before(rest[j], s[0])
      {
        var y := rest[j];
        assert y in multiset(rest);
        if y != x {
          assert y in multiset(s[1..]);
          var i :| 0 <= i < |s[1..]| && s[1..][i] == y;
          assert s[i + 1] == y;
        }
      }
    }
  }

  /** The std::sort step of listDirectory, by insertion: the result holds
      the same entries and is ordered. */
  function SortListing(s: seq<FileInfo>): (r: seq<FileInfo>)
    ensures multiset(r) == multiset(s)
    ensures Ordered(r)
  {
    if s == [] then []
    else
      assert s == s[..|s| - 1] + [s[|s| - 1]];
      InsertOrdered(s[|s| - 1], SortListing(s[..|s| - 1]));
      Insert(s[|s| - 1], SortListing(s[..|s| - 1]))
  }

  /** No two entries share a file name, as in one directory. */
  ghost predicate DistinctNames(s: seq<FileInfo>)
  {
    forall i, j :: 0 <= i < j < |s| ==> s[i].filename != s[j].filename
  }

  /** Nothing in an ordered list comes before its first entry. */
  lemma FirstIsLeast(r: seq<FileInfo>, x: FileInfo)
    requires Ordered(r) && x in r
    ensures !Before(x, r[0])
  {
    BeforeAsymmetric(x, x);
  }

  lemma TailMultiset(s: seq<FileInfo>)
    requires s != []
    ensures multiset(s[1..]) == multiset(s) - multiset{s[0]}
  {
    assert s == [s[0]] + s[1..];
  }

  /** Two ordered lists holding the same entries, no two with the same
      name, are equal: the listing does not depend on which sort produced
      it. */
  lemma {:induction false} OrderedUnique(r: seq<FileInfo>, t: seq<FileInfo>)
    requires Ordered(r) && Ordered(t) && multiset(r) == multiset(t)
    requires DistinctNames(r)
    ensures r == t
  {
    if r == [] {
      assert |t| == |multiset(t)|;
    } else {
      HeadsAgree(r, t);
      TailMultiset(r);
      TailMultiset(t);
      TailKeepsOrder(r);
      TailKeepsOrder(t);
      OrderedUnique(r[1..], t[1..]);
      assert r == [r[0]] + r[1..] && t == [t[0]] + t[1..];
    }
  }

  /** Two such lists start with the same entry. */
  lemma HeadsAgree(r: seq<FileInfo>, t: seq<FileInfo>)
    requires Ordered(r) && Ordered(t) && multiset(r) == multiset(t)
    requires DistinctNames(r) && r != []
    ensures t != [] && r[0] == t[0]
  {
    assert t != [] by {
      assert |multiset(t)| == |r|;
    }
    assert r[0] in multiset(t) && t[0] in multiset(r);
    FirstIsLeast(r, t[0]);
    FirstIsLeast(t, r[0]);
    BeforeTotal(r[0], t[0]);
    var j :| 0 <= j < |r| && r[j] == t[0];
    assert r[j].filename == r[0].filename;
  }

  /** Dropping the first entry keeps a list ordered and its names
      distinct. */
  lemma TailKeepsOrder(s: seq<FileInfo>)
    requires s != []
    ensures Ordered(s) ==> Ordered(s[1..])
    ensures DistinctNames(s) ==> DistinctNames(s[1..])
  {
    if Ordered(s) {
      forall i, j | 0 <= i < j < |s| - 1
        ensures !Before(s[1..][j], s[1..][i])
      {
        assert s[1..][j] == s[j + 1] && s[1..][i] == s[i + 1];
      }
    }
    if DistinctNames(s) {
      forall i, j | 0 <= i < j < |s| - 1
        ensures s[1..][i].filename != s[1..][j].filename
      {
        assert s[1..][j] == s[j + 1] && s[1..][i] == s[i + 1];
      }
    }
  }


  // ---------------------------------------------------------------------
  // listDirectory and listSceneFiles.

  /** file_size can be taken: the entry is a directory or a regular file. */
  predicate Sizable(disk: Disk, e: DirEntry)
  {
    e.isDirectory || e.path in disk.files
  }

  /** The FileInfo made for one directory entry. */
  function EntryInfo(disk: Disk, e: DirEntry): FileInfo
  {
    MakeFileInfo(FileName(e.path), e.path, e.isDirectory, if e.isDirectory then 0 else disk.SizeOf(e.path))
  }

  /** How many entries are read before file_size fails (all of them when
      none fails). */
  function SizablePrefix(disk: Disk, es: seq<DirEntry>): (k: nat)
    ensures k <= |es|
    ensures forall i :: 0 <= i < k ==> Sizable(disk, es[i])
    ensures k < |es| ==> !Sizable(disk, es[k])
  {
    if es == [] || !Sizable(disk, es[0]) then 0 else 1 + SizablePrefix(disk, es[1..])
  }

  /** The FileInfos of the first k entries, in iteration order. */
  function Collected(disk: Disk, es: seq<DirEntry>, k: nat): (r: seq<FileInfo>)
    requires k <= |es|
    ensures |r| == k
    ensures forall i :: 0 <= i < k ==> r[i] == EntryInfo(disk, es[i])
  {
    seq(k, i requires 0 <= i < k => EntryInfo(disk, es[i]))
  }

  /** The result of listDirectory: nothing for a path that is not a
      directory; the entries sorted when every size can be read; when
      file_size fails the exception is caught and the entries collected so
      far are returned in iteration order, unsorted. */
  function Listed(disk: Disk, path: string): seq<FileInfo>
  {
    if path !in disk.dirs then []
    else
      var es := disk.dirs[path].children;
      var k := SizablePrefix(disk, es);
      var infos := Collected(disk, es, k);
      if k < |es| then infos else SortListing(infos)
  }

  /** A missing path or one that is not a directory lists nothing. */
  lemma ListedMissing(disk: Disk, path: string)
    requires path !in disk.dirs
    ensures Listed(disk, path) == []
  {
  }

  /** When every entry can be sized, the listing holds one FileInfo per
      entry and is ordered directories first, then by name. */
  lemma ListedOrdered(disk: Disk, path: string)
    requires path in disk.dirs
    requires forall e :: e in disk.dirs[path].children ==> Sizable(disk, e)
    ensures Ordered(Listed(disk, path))
    ensures multiset(Listed(disk, path)) == multiset(Collected(disk, disk.dirs[path].children, |disk.dirs[path].children|))
  {
    var es := disk.dirs[path].children;
    assert forall i :: 0 <= i < |es| ==> Sizable(disk, es[i]);
    assert SizablePrefix(disk, es) == |es|;
  }

  /** Any other ordering of the same entries that the comparator accepts
      is this very listing, since the names in a directory are distinct. */
  lemma ListedIsTheOnlyOrdering(disk: Disk, path: string, other: seq<FileInfo>)
    requires path in disk.dirs
    requires forall e :: e in disk.dirs[path].children ==> Sizable(disk, e)
    requires Ordered(other) && DistinctNames(other)
    requires multiset(other) == multiset(Collected(disk, disk.dirs[path].children, |disk.dirs[path].children|))
    ensures other == Listed(disk, path)
  {
    ListedOrdered(disk, path);
    OrderedUnique(other, Listed(disk, path));
  }

  /** listDirectory: the directory's entries collected in iteration order,
      then sorted; a failing file_size ends the listing early. */
  method ListDirectory(disk: Disk, path: string) returns (files: seq<FileInfo>)
    ensures files == Listed(disk, path)
  {
    files := [];
    if path !in disk.dirs {
      return;
    }
    var es := disk.dirs[path].children;
    var i := 0;
    while i < |es|
      invariant 0 <= i <= SizablePrefix(disk, es)
      invariant files == Collected(disk, es, i)
    {
      var e := es[i];
      if !e.isDirectory && e.path !in disk.files {
        return;
      }
      var size := if e.isDirectory then 0 else disk.SizeOf(e.path);
      files := files + [MakeFileInfo(FileName(e.path), e.path, e.isDirectory, size)];
      i := i + 1;
    }
    files := SortListing(files);
  }

  /** The scene files of a listing: the files whose extension is "scene",
      in listing order. */
  function SceneFilesOf(s: seq<FileInfo>): (r: seq<FileInfo>)
    ensures forall f :: f in r <==> f in s && !f.isDirectory && f.extension == "scene"
    ensures |r| <= |s|
  {
    if s == [] then []
    else
      var rest := SceneFilesOf(s[..|s| - 1]);
      var f := s[|s| - 1];
      assert s == s[..|s| - 1] + [f];
      if !f.isDirectory && f.extension == "scene" then rest + [f] else rest
  }

  /** Filtering keeps the listing's order. */
  lemma {:induction false} SceneFilesOrdered(s: seq<FileInfo>)
    requires Ordered(s)
    ensures Ordered(SceneFilesOf(s))
  {
    if s != [] {
      var init := s[..|s| - 1];
      assert Ordered(init);
      SceneFilesOrdered(init);
      var rest := SceneFilesOf(init);
      var f := s[|s| - 1];
      forall g | g in rest
        ensures !Before(f, g)
      {
        var i :| 0 <= i < |init| && init[i] == g;
        assert s[i] == g;
      }
    }
  }

  /** listSceneFiles: the non-directory entries of the listing whose
      extension is "scene". */
  method ListSceneFiles(disk: Disk, directory: string) returns (sceneFiles: seq<FileInfo>)
    ensures sceneFiles == SceneFilesOf(Listed(disk, directory))
  {
    var allFiles := ListDirectory(disk, directory);
    sceneFiles := [];
    var i := 0;
    while i < |allFiles|
      invariant 0 <= i <= |allFiles|
      invariant sceneFiles == SceneFilesOf(allFiles[..i])
    {
      var file := allFiles[i];
      assert allFiles[..i + 1][..i] == allFiles[..i];
      if !file.isDirectory && file.extension == "scene" {
        sceneFiles := sceneFiles + [file];
      }
      i := i + 1;
    }
    assert allFiles[..i] == allFiles;
  }

  // ---------------------------------------------------------------------
  // formatFileSize.

  /** 1024 to the power n. */
  function Pow1024(n: nat): (p: nat)
    ensures p >= 1
  {
    if n == 0 then 1 else 1024 * Pow1024(n - 1)
  }

  const Suffixes: seq<string> := ["B", "KB", "MB", "GB", "TB"]

  /** The suffix formatFileSize picks: the largest power of 1024 (up to
      TB) that does not exceed the byte count, B below 1024. */
  function SizeUnit(bytes: nat): (k: nat)
    ensures k <= 4
    ensures k == 0 <==> bytes < 1024
    ensures k > 0 ==> Pow1024(k) <= bytes
    ensures k < 4 ==> bytes < Pow1024(k + 1)
  {
    if bytes < 1024 then 0
    else if bytes < Pow1024(2) then 1
    else if bytes < Pow1024(3) then 2
    else if bytes < Pow1024(4) then 3
    else 4
  }

  function DigitChar(d: nat): char
    requires d < 10
  {
    "0123456789"[d]
  }

  /** The decimal digits of n, as "%zu" prints them. */
  function Decimal(n: nat): (s: string)
    ensures s != []
    ensures forall i :: 0 <= i < |s| ==> '0' <= s[i] <= '9'
  {
    if n < 10 then [DigitChar(n)] else Decimal(n / 10) + [DigitChar(n % 10)]
  }

  /** "%.1f" of a non-negative value: rounded to the nearest tenth. */
  function OneDecimal(x: real): string
    requires x >= 0.0
  {
    var tenths := (x * 10.0 + 0.5).Floor;
    assert tenths >= 0;
    Decimal(tenths / 10) + "." + [DigitChar(tenths % 10)]
  }

  /** Dividing by 1024 once more when the scaled size is still at least
      1024 keeps it equal to the byte count over a power of 1024. */
  lemma ScaleStep(bytes: nat, size: real, k: nat)
    requires size * Pow1024(k) as real == bytes as real
    ensures (size / 1024.0) * Pow1024(k + 1) as real == bytes as real
    ensures size >= 1024.0 <==> bytes >= Pow1024(k + 1)
  {
    var p := Pow1024(k) as real;
    assert Pow1024(k + 1) as real == 1024.0 * p;
    ScaleReal(size, p, bytes as real);
  }

  /** The real arithmetic of ScaleStep: with size * p == b and p positive,
      size / 1024 times 1024 * p is still b, and size reaches 1024 exactly
      when b reaches 1024 * p. */
  lemma ScaleReal(size: real, p: real, b: real)
    requires p > 0.0 && size * p == b
    ensures (size / 1024.0) * (1024.0 * p) == b
    ensures size >= 1024.0 <==> b >= 1024.0 * p
  {
    var t := size / 1024.0;
    assert t * 1024.0 == size;
    MulAssoc(t, 1024.0, p);
    ScaleMonotone(size, 1024.0, p);
  }


  /** A byte count of at least 1024^k, k <= 4, has a unit of at least k. */
  lemma UnitAtLeast(bytes: nat, k: nat)
    requires k <= 4 && bytes >= Pow1024(k)
    ensures k <= SizeUnit(bytes)
  {
    PowMonotone(k, SizeUnit(bytes) + 1);
  }

  /** A byte count below 1024^(k+1), or any count when k is 4, has a unit
      of at most k. */
  lemma UnitAtMost(bytes: nat, k: nat)
    requires k == 4 || bytes < Pow1024(k + 1)
    ensures SizeUnit(bytes) <= k
  {
    if k < 4 && SizeUnit(bytes) > k {
      PowMonotone(k + 1, SizeUnit(bytes));
    }
  }

  /** Powers of 1024 grow with the exponent. */
  lemma {:induction false} PowMonotone(i: nat, j: nat)
    requires i <= j
    ensures Pow1024(i) <= Pow1024(j)
    decreases j
  {
    if i < j {
      PowMonotone(i, j - 1);
    }
  }

  /** A factor of a non-negative product by a positive number is its
      quotient, and is non-negative. */
  lemma Quotient(size: real, p: real, b: real)
    requires p > 0.0 && size * p == b && b >= 0.0
    ensures size == b / p && size >= 0.0
  {
    if size < 0.0 {
      ScaleMonotone(0.0, size, p);
    }
  }

  lemma MulAssoc(a: real, b: real, c: real)
    ensures a * (b * c) == (a * b) * c
  {
  }

  /** Scaling by a positive factor keeps the order. */
  lemma ScaleMonotone(a: real, b: real, p: real)
    requires p > 0.0
    ensures a * p >= b * p <==> a >= b
  {
    if a >= b {
      assert a * p - b * p == (a - b) * p;
    } else {
      assert b * p - a * p == (b - a) * p;
    }
  }

  /** The byte count in the unit formatFileSize picks. */
  function Scaled(bytes: nat): (x: real)
    ensures x >= 0.0
  {
    bytes as real / Pow1024(SizeUnit(bytes)) as real
  }

  /** formatFileSize: "<bytes> B" below 1024; otherwise the size in the
      chosen unit with one decimal, then the unit. */
  method FormatFileSize(bytes: nat) returns (text: string)
    ensures SizeUnit(bytes) == 0 ==> text == Decimal(bytes) + " B"
    ensures SizeUnit(bytes) > 0 ==> text == OneDecimal(Scaled(bytes)) + " " + Suffixes[SizeUnit(bytes)]
  {
    var suffixIndex := 0;
    var size := bytes as real;
    while size >= 1024.0 && suffixIndex < 4
      invariant 0 <= suffixIndex <= SizeUnit(bytes)
      invariant size * Pow1024(suffixIndex) as real == bytes as real
      decreases 4 - suffixIndex
    {
      ScaleStep(bytes, size, suffixIndex);
      UnitAtLeast(bytes, suffixIndex + 1);
      size := size / 1024.0;
      suffixIndex := suffixIndex + 1;
    }
    ScaleStep(bytes, size, suffixIndex);
    UnitAtMost(bytes, suffixIndex);
    if suffixIndex == 0 {
      text := Decimal(bytes) + " " + Suffixes[suffixIndex];
    } else {
      Quotient(size, Pow1024(suffixIndex) as real, bytes as real);
      assert size == Scaled(bytes);
      text := OneDecimal(size) + " " + Suffixes[suffixIndex];
    }
  }
}
