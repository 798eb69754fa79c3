// Shared vocabulary: optional values, ASCII lower-casing, the parts of a
// path as std::filesystem::path splits them, and the file system seen as a
// value that callers pass in (the disk is never touched by the model).

module Common {

  datatype Option<T> = None | Some(value: T)

  /** ::tolower in the "C" locale: only 'A'..'Z' change. */
  function LowerChar(c: char): char
  {
    if 'A' <= c <= 'Z' then (c as int + 32) as char else c
  }

  /** std::transform(s.begin(), s.end(), s.begin(), ::tolower). */
  function Lower(s: string): string
  {
    seq(|s|, i requires 0 <= i < |s| => LowerChar(s[i]))
  }

  /** Index of the last c among the first n characters of s, or -1. */
  function LastIndexBefore(s: string, c: char, n: nat): (r: int)
    requires n <= |s|
    ensures -1 <= r < n
    ensures r >= 0 ==> s[r] == c
  {
    if n == 0 then -1
    else if s[n - 1] == c then n - 1
    else LastIndexBefore(s, c, n - 1)
  }

  /** Index of the last occurrence of c in s, or -1 (std::string::rfind / find_last_of). */
  function LastIndexOf(s: string, c: char): (r: int)
    ensures -1 <= r < |s|
    ensures r >= 0 ==> s[r] == c
  {
    LastIndexBefore(s, c, |s|)
  }

  /** Nothing between the index found and n is c. */
  lemma {:induction false} LastIndexBeforeIsLast(s: string, c: char, n: nat)
    requires n <= |s|
    ensures forall i :: LastIndexBefore(s, c, n) < i < n ==> s[i] != c
  {
    if n > 0 && s[n - 1] != c {
      LastIndexBeforeIsLast(s, c, n - 1);
    }
  }

  /** Nothing after the index found is c, and c occurs nowhere when -1 is returned. */
  lemma LastIndexOfIsLast(s: string, c: char)
    ensures forall i :: LastIndexOf(s, c) < i < |s| ==> s[i] != c
  {
    LastIndexBeforeIsLast(s, c, |s|);
  }

  /** path::filename(): the text after the last '/'. */
  function FileName(path: string): string
  {
    if path == [] || path[|path| - 1] == '/' then [] else FileName(path[..|path| - 1]) + [path[|path| - 1]]
  }

  /** The file name is the part of the path after its last '/', and holds no '/'. */
  lemma {:induction false} FileNameIsLastComponent(path: string)
    ensures '/' !in FileName(path)
    ensures |FileName(path)| <= |path| && FileName(path) == path[|path| - |FileName(path)|..]
    ensures |FileName(path)| < |path| ==> path[|path| - |FileName(path)| - 1] == '/'
  {
    if path != [] && path[|path| - 1] != '/' {
      var n, init := |path|, path[..|path| - 1];
      FileNameIsLastComponent(init);
      var m := |FileName(init)|;
      assert path[n - 1 - m..] == init[n - 1 - m..] + [path[n - 1]];
    }
  }

  /** Where the extension of a file name starts, or |name| when it has none:
      the last '.', unless that '.' is the name's first character or the
      name is "." or "..". */
  function ExtensionStart(name: string): (k: nat)
    ensures k <= |name|
  {
    var k := LastIndexOf(name, '.');
    if name == "." || name == ".." || k <= 0 then |name| else k
  }

  /** path::extension() */
  function PathExtension(path: string): string
  {
    var name := FileName(path);
    name[ExtensionStart(name)..]
  }

  /** path::stem(): the file name without its extension. */
  function Stem(path: string): string
  {
    var name := FileName(path);
    name[..ExtensionStart(name)]
  }

  /** The file name has no '/', and an extension is one '.' followed by
      no other '.'. */
  lemma PathParts(path: string)
    ensures '/' !in FileName(path)
    ensures PathExtension(path) != [] ==> PathExtension(path)[0] == '.' && '.' !in PathExtension(path)[1..]
  {
    FileNameIsLastComponent(path);
    var name := FileName(path);
    LastIndexOfIsLast(name, '.');
  }

  /** The stem and the extension split the file name; the stem is never
      empty when there is an extension (a leading '.' belongs to the stem). */
  lemma StemExtensionSplit(path: string)
    ensures Stem(path) + PathExtension(path) == FileName(path)
    ensures PathExtension(path) != [] ==> Stem(path) != []
  {
  }

  // ---------------------------------------------------------------------
  // The file system as a value.

  /** What a regular file looks like to the engine: its byte size, its last
      write time, its text, and whether the media decoder (stb_image,
      raudio, the font loader) accepts it. */
  datatype FileEntry = FileEntry(size: nat, modified: int, text: string, decodes: bool)

  /** One entry produced by a directory iterator. */
  datatype DirEntry = DirEntry(path: string, isDirectory: bool)

  /** What directory_iterator (children) and recursive_directory_iterator
      (descendants) yield for a directory, in iteration order, and the
      directory's last write time. */
  datatype Listing = Listing(children: seq<DirEntry>, descendants: seq<DirEntry>, modified: int)

  datatype Disk = Disk(files: map<string, FileEntry>, dirs: map<string, Listing>)
  {
    /** std::filesystem::exists */
    predicate Exists(path: string) { path in files || path in dirs }

    /** readFileToString / an ifstream read: "" when the file cannot be opened. */
    function ReadText(path: string): string
    {
      if path in files then files[path].text else ""
    }

    /** getFileSize: 0 for a path that does not exist. */
    function SizeOf(path: string): nat
    {
      if path in files then files[path].size else 0
    }
  }
}
