/**
 * The image scan and the count-cache key of image-viewer.js.
 *
 * The file system is replaced by a directory tree: every directory carries
 * what fs.readdir would give for it, its entries or a read error. Paths are
 * strings; path.join is modelled as joining with a single '/'.
 */
module Scanner {
  import opened JsText

  /** One entry readdir reports: a regular file, a directory, or anything else (a link, a socket, ...). */
  datatype Entry =
    | File(name: string)
    | Directory(name: string, listing: Listing)
    | Special(name: string)

  /** What reading a directory yields: its entries, or an error. */
  datatype Listing = Unreadable | Entries(entries: seq<Entry>)

  /** IMAGE_EXTENSIONS. */
  const ImageExtensions: seq<string> := [".jpg", ".jpeg", ".png", ".gif", ".bmp", ".tiff", ".webp"]

  /** path.join(directory, name) for an entry name. */
  function JoinPath(directory: string, name: string): string
  {
    directory + "/" + name
  }

  /** The index of the last '.' in `s`, if it has one. */
  function LastDot(s: string): (k: Option<nat>)
    ensures k.Some? ==> k.value < |s| && s[k.value] == '.' && forall i :: k.value < i < |s| ==> s[i] != '.'
    ensures k.None? ==> forall i :: 0 <= i < |s| ==> s[i] != '.'
  {
    if s == [] then None
    else if s[|s| - 1] == '.' then Some(|s| - 1)
    else LastDot(s[..|s| - 1])
  }

  /**
   * path.extname of an entry name: from the last '.' to the end, or empty
   * when no '.' follows the first character (".profile" has none).
   */
  function ExtName(name: string): (ext: string)
    ensures ext == [] <==> forall i :: 0 < i < |name| ==> name[i] != '.'
    ensures ext != [] ==> ext[0] == '.' && |ext| < |name| && ext == name[|name| - |ext|..]
    ensures forall i :: 0 < i < |ext| ==> ext[i] != '.'
  {
    match LastDot(name)
    case None => ""
    case Some(k) => if k > 0 then name[k..] else ""
  }

  /** The extension starts at the last '.' past the first character. */
  lemma ExtNameAt(name: string, k: nat)
    requires 0 < k < |name| && name[k] == '.'
    requires forall i :: k < i < |name| ==> name[i] != '.'
    ensures ExtName(name) == name[k..]
  {
    var last := LastDot(name);
    assert last.Some?;
    assert last.value == k;
  }

  /** Whether findImageFiles keeps a file of this name: its lower-cased extension is an image extension. */
  predicate IsImageName(name: string)
  {
    ToLowerAscii(ExtName(name)) in ImageExtensions
  }

  // ---------------------------------------------------------------------
  // findImageFiles
  // ---------------------------------------------------------------------

  /**
   * findImageFiles(directory, allowedSubdirs): the image files under
   * `directory` in readdir order, entering a subdirectory only when there is
   * no allow-set or the set holds its full path; an unreadable directory
   * contributes nothing.
   */
  function FindImageFiles(directory: string, listing: Listing, allowed: Option<seq<string>>): seq<string>
    decreases listing
  {
    match listing
    case Unreadable => []
    case Entries(entries) => ScanEntries(directory, entries, allowed)
  }

  function ScanEntries(directory: string, entries: seq<Entry>, allowed: Option<seq<string>>): seq<string>
    decreases entries
  {
    if entries == [] then []
    else ScanEntry(directory, entries[0], allowed) + ScanEntries(directory, entries[1..], allowed)
  }

  function ScanEntry(directory: string, entry: Entry, allowed: Option<seq<string>>): seq<string>
    decreases entry
  {
    match entry
    case File(name) => if IsImageName(name) then [JoinPath(directory, name)] else []
    case Directory(name, listing) =>
      var fullPath := JoinPath(directory, name);
      if allowed.None? || fullPath in allowed.value then FindImageFiles(fullPath, listing, allowed) else []
    case Special(_) => []
  }

  // ---------------------------------------------------------------------
  // The same result described without the traversal's filtering
  // ---------------------------------------------------------------------

  /** A regular file of the tree: its path, its name, and the full paths of the directories below the root leading to it. */
  datatype FoundFile = FoundFile(path: string, name: string, via: seq<string>)

  /** Every regular file of the readable part of the tree, in readdir order, with no filtering at all. */
  function TreeFiles(directory: string, listing: Listing): seq<FoundFile>
    decreases listing
  {
    match listing
    case Unreadable => []
    case Entries(entries) => EntriesFiles(directory, entries)
  }

  function EntriesFiles(directory: string, entries: seq<Entry>): seq<FoundFile>
    decreases entries
  {
    if entries == [] then []
    else EntryFiles(directory, entries[0]) + EntriesFiles(directory, entries[1..])
  }

  function EntryFiles(directory: string, entry: Entry): seq<FoundFile>
    decreases entry
  {
    match entry
    case File(name) => [FoundFile(JoinPath(directory, name), name, [])]
    case Directory(name, listing) =>
      var fullPath := JoinPath(directory, name);
      Below(fullPath, TreeFiles(fullPath, listing))
    case Special(_) => []
  }

  /** The files of a subdirectory, seen from its parent: reached through `dir` first. */
  function Below(dir: string, files: seq<FoundFile>): (r: seq<FoundFile>)
    ensures |r| == |files|
    ensures forall i :: 0 <= i < |r| ==> r[i] == files[i].(via := [dir] + files[i].via)
  {
    seq(|files|, i requires 0 <= i < |files| => files[i].(via := [dir] + files[i].via))
  }

  /** A file the allow-set admits: there is no set, or every directory on its way is in it. */
  predicate Admitted(file: FoundFile, allowed: Option<seq<string>>)
  {
    allowed.None? || forall d :: d in file.via ==> d in allowed.value
  }

  /** A file findImageFiles reports: admitted, with an image extension. */
  predicate Kept(file: FoundFile, allowed: Option<seq<string>>)
  {
    Admitted(file, allowed) && IsImageName(file.name)
  }

  /** The paths of the kept files, in order. */
  function Selected(files: seq<FoundFile>, allowed: Option<seq<string>>): seq<string>
  {
    if files == [] then []
    else (if Kept(files[0], allowed) then [files[0].path] else []) + Selected(files[1..], allowed)
  }

  lemma {:induction false} SelectedConcat(a: seq<FoundFile>, b: seq<FoundFile>, allowed: Option<seq<string>>)
    ensures Selected(a + b, allowed) == Selected(a, allowed) + Selected(b, allowed)
  {
    if a != [] {
      var head := if Kept(a[0], allowed) then [a[0].path] else [];
      assert (a + b)[0] == a[0];
      assert (a + b)[1..] == a[1..] + b;
      assert Selected(a + b, allowed) == head + Selected(a[1..] + b, allowed);
      SelectedConcat(a[1..], b, allowed);
      assert Selected(a, allowed) == head + Selected(a[1..], allowed);
    } else {
      assert a + b == b;
    }
  }

  /** Seen from the parent, a subdirectory's files are kept when the subdirectory is admitted and they are. */
  lemma {:induction false} SelectedBelow(dir: string, files: seq<FoundFile>, allowed: Option<seq<string>>)
    ensures Selected(Below(dir, files), allowed)
         == if allowed.None? || dir in allowed.value then Selected(files, allowed) else []
  {
    if files != [] {
      assert Below(dir, files)[1..] == Below(dir, files[1..]);
      SelectedBelow(dir, files[1..], allowed);
      var f := Below(dir, files)[0];
      assert dir in f.via;
    }
  }

  /**
   * findImageFiles keeps exactly the files of the tree that have an image
   * extension and whose every directory below the root is admitted, in
   * readdir order.
   */
  lemma {:induction false} FindImageFilesSelects(directory: string, listing: Listing, allowed: Option<seq<string>>)
    ensures FindImageFiles(directory, listing, allowed) == Selected(TreeFiles(directory, listing), allowed)
    decreases listing
  {
    match listing
    case Unreadable =>
    case Entries(entries) => ScanEntriesSelects(directory, entries, allowed);
  }

  lemma {:induction false} ScanEntriesSelects(directory: string, entries: seq<Entry>, allowed: Option<seq<string>>)
    ensures ScanEntries(directory, entries, allowed) == Selected(EntriesFiles(directory, entries), allowed)
    decreases entries
  {
    if entries != [] {
      ScanEntrySelects(directory, entries[0], allowed);
      ScanEntriesSelects(directory, entries[1..], allowed);
      SelectedConcat(EntryFiles(directory, entries[0]), EntriesFiles(directory, entries[1..]), allowed);
    }
  }

  lemma {:induction false} ScanEntrySelects(directory: string, entry: Entry, allowed: Option<seq<string>>)
    ensures ScanEntry(directory, entry, allowed) == Selected(EntryFiles(directory, entry), allowed)
    decreases entry
  {
    match entry
    case File(name) =>
      var files := EntryFiles(directory, entry);
      assert files[1..] == [];
    case Directory(name, listing) =>
      var fullPath := JoinPath(directory, name);
      FindImageFilesSelects(fullPath, listing, allowed);
      SelectedBelow(fullPath, TreeFiles(fullPath, listing), allowed);
    case Special(_) =>
  }

  /** A path is selected exactly when it is the path of an admitted file with an image extension. */
  lemma {:induction false} SelectedMembers(files: seq<FoundFile>, allowed: Option<seq<string>>, p: string)
    ensures p in Selected(files, allowed)
        <==> exists f :: f in files && f.path == p && Admitted(f, allowed) && IsImageName(f.name)
  {
    if files != [] {
      SelectedMembers(files[1..], allowed, p);
      assert files == [files[0]] + files[1..];
    }
  }

  /**
   * What the IPC handlers scan: a path is found exactly when it is an image
   * file of the tree reached only through the root's chosen subdirectories.
   */
  lemma HandlerScanMembers(directory: string, includeSubdirs: seq<string>, listing: Listing, p: string)
    ensures p in FindImageFiles(directory, listing, Some(AllowedSet(directory, includeSubdirs)))
        <==> exists f :: f in TreeFiles(directory, listing) && f.path == p && IsImageName(f.name)
                         && forall d :: d in f.via ==> d == directory || d in includeSubdirs
  {
    var allowed := Some(AllowedSet(directory, includeSubdirs));
    FindImageFilesSelects(directory, listing, allowed);
    SelectedMembers(TreeFiles(directory, listing), allowed, p);
  }

  /** Lower-casing a name lower-cases its extension and nothing else: '.' is not a letter. */
  lemma ExtNameLower(name: string)
    ensures ExtName(ToLowerAscii(name)) == ToLowerAscii(ExtName(name))
  {
    var lower := ToLowerAscii(name);
    assert forall i :: 0 <= i < |name| ==> (lower[i] == '.' <==> name[i] == '.');
    match LastDot(name)
    case None =>
    case Some(k) =>
      if k > 0 {
        ExtNameAt(lower, k);
        assert ToLowerAscii(name[k..]) == lower[k..];
      }
  }

  /** Whether a file is an image does not depend on the case of its name. */
  lemma IsImageNameIgnoresCase(name: string)
    ensures IsImageName(name) <==> IsImageName(ToLowerAscii(name))
  {
    ExtNameLower(name);
    ToLowerAsciiIdempotent(ExtName(name));
  }

  /** A capitalised extension still counts. */
  lemma UpperCaseExtension()
    ensures IsImageName("c.PNG")
  {
    ExtNameAt("c.PNG", 1);
    assert ToLowerAscii(".PNG") == ".png";
  }

  /**
   * With only the root in the allow-set, as the handlers pass when no
   * subdirectory is chosen, an image one level down is not found; with no
   * set at all it is.
   */
  lemma SubdirectoryExample(root: string, sub: string, d: string)
    requires IsImageName(d)
    ensures ScanEntries(root, [Directory(sub, Entries([File(d)]))], None) == [JoinPath(JoinPath(root, sub), d)]
    ensures ScanEntries(root, [Directory(sub, Entries([File(d)]))], Some([root])) == []
  {
    var dir := Directory(sub, Entries([File(d)]));
    ScanCons(root, dir, [], None);
    ScanCons(root, dir, [], Some([root]));
    assert [dir] + [] == [dir];
    ScanCons(JoinPath(root, sub), File(d), [], None);
    assert [File(d)] + [] == [File(d)];
    assert JoinPath(root, sub) !in [root] by {
      assert |JoinPath(root, sub)| > |root|;
    }
  }

  lemma ScanCons(directory: string, e: Entry, rest: seq<Entry>, allowed: Option<seq<string>>)
    ensures ScanEntries(directory, [e] + rest, allowed) == ScanEntry(directory, e, allowed) + ScanEntries(directory, rest, allowed)
  {
    assert ([e] + rest)[1..] == rest;
  }

  // ---------------------------------------------------------------------
  // The count cache key
  // ---------------------------------------------------------------------

  /** getImageCountCacheKey: the directory alone, or the directory, '|' and the sorted set joined by ';'. */
  function CacheKey(directory: string, allowed: Option<seq<string>>): (key: string)
    ensures |key| >= |directory| && key[..|directory|] == directory
    ensures key == directory <==> allowed.None? || allowed.value == []
  {
    if allowed.None? || |allowed.value| == 0 then directory
    else directory + "|" + JoinWith(SortStrings(allowed.value), ";")
  }

  /** The allow-set both IPC handlers build: the chosen subdirectories, then the directory itself. */
  function AllowedSet(directory: string, includeSubdirs: seq<string>): (s: seq<string>)
    ensures Distinct(s) && directory in s
    ensures forall x :: x in s <==> x == directory || x in includeSubdirs
  {
    SetAdd(SetOf(includeSubdirs), directory)
  }

  /** Two sets with the same elements give the same key, whatever order they were filled in. */
  lemma CacheKeyOrderFree(directory: string, a: seq<string>, b: seq<string>)
    requires Distinct(a) && Distinct(b)
    requires forall x :: x in a <==> x in b
    ensures CacheKey(directory, Some(a)) == CacheKey(directory, Some(b))
  {
    SortedSetElements(a, b);
  }

  /** The handlers' key depends only on which subdirectories were chosen, not on their order or repeats. */
  lemma HandlerKeyOrderFree(directory: string, chosen: seq<string>, chosen': seq<string>)
    requires forall x :: x in chosen <==> x in chosen'
    ensures CacheKey(directory, Some(AllowedSet(directory, chosen)))
         == CacheKey(directory, Some(AllowedSet(directory, chosen')))
  {
    CacheKeyOrderFree(directory, AllowedSet(directory, chosen), AllowedSet(directory, chosen'));
  }
}
