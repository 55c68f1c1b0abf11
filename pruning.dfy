/** Image-directory pruning and listing. After each upload the FastAPI
    service lists the `*.jpg` files newest first, keeps the first
    `display_last_images` of them and deletes the rest; the Flask service has
    the same clean-up and lists images oldest first, keeping the last
    `keep_count`. */
module ImagePruning {
  import opened Text

  /** A directory entry: its name and its modification time. */
  datatype Entry = Entry(name: string, mtime: int)

  predicate JpgName(name: string)
  {
    |name| >= 4 && name[|name| - 4..] == ".jpg"
  }

  /** The files `*.jpg` matches, in directory order. `Path.glob` (FastAPI)
      also matches names that start with a dot; `glob.glob` (Flask) skips
      them. */
  function Glob(entries: seq<Entry>, skipHidden: bool): (r: seq<Entry>)
    ensures forall e :: e in r <==> e in entries && JpgName(e.name) && !(skipHidden && e.name[0] == '.')
    ensures |r| <= |entries|
  {
    if entries == [] then []
    else
      var rest := Glob(entries[1..], skipHidden);
      var e := entries[0];
      assert forall x :: x in entries <==> x == e || x in entries[1..];
      if JpgName(e.name) && !(skipHidden && e.name[0] == '.') then [e] + rest else rest
  }

  function Names(files: seq<Entry>): (r: seq<string>)
    ensures |r| == |files| && forall i :: 0 <= i < |files| ==> r[i] == files[i].name
  {
    seq(|files|, i requires 0 <= i < |files| => files[i].name)
  }

  /** `os.path.join(folder, name)`: the name after the folder, with a
      separator between them unless the folder is empty or already ends in
      one. */
  function JoinPath(folder: string, name: string): (p: string)
    ensures |p| >= |folder| + |name| && p[..|folder|] == folder && p[|p| - |name|..] == name
  {
    if folder == [] || folder[|folder| - 1] == '/' then folder + name else folder + "/" + name
  }

  /** The paths of the files in a folder, in the same order. */
  function Paths(folder: string, files: seq<Entry>): (r: seq<string>)
    ensures |r| == |files| && forall i :: 0 <= i < |files| ==> r[i] == JoinPath(folder, files[i].name)
  {
    seq(|files|, i requires 0 <= i < |files| => JoinPath(folder, files[i].name))
  }

  /** A joined path ends in its name, after the last separator; the path is
      the bare name when the folder is empty. */
  lemma JoinedBaseName(folder: string, name: string)
    requires forall i :: 0 <= i < |name| ==> name[i] != '/'
    ensures LastIndexOf(JoinPath(folder, name), '/') == |JoinPath(folder, name)| - |name| - 1
    ensures JoinPath(folder, name)[LastIndexOf(JoinPath(folder, name), '/') + 1..] == name
    ensures folder == [] ==> JoinPath(folder, name) == name
  {
    var p := JoinPath(folder, name);
    var k := LastIndexOf(p, '/');
    var s := |p| - |name| - 1;
    assert forall j :: s < j < |p| ==> p[j] == name[j - s - 1];
    if folder == [] {
      assert p == name;
    } else {
      assert p[s] == '/';
      assert k == s;
    }
  }

  // ---------------------------------------------------------------- sorting

  /** `x` sorts strictly before `y`: newer when the listing is newest
      first, older otherwise. */
  predicate Ahead(x: Entry, y: Entry, newestFirst: bool)
  {
    if newestFirst then x.mtime > y.mtime else x.mtime < y.mtime
  }

  predicate Ordered(s: seq<Entry>, newestFirst: bool)
  {
    forall i, j :: 0 <= i < j < |s| ==> !Ahead(s[j], s[i], newestFirst)
  }

  /** Place a file that came later in the listing behind every file it does
      not sort strictly before. */
  function Insert(s: seq<Entry>, x: Entry, newestFirst: bool): (r: seq<Entry>)
    ensures multiset(r) == multiset(s) + multiset{x}
  {
    if s == [] then [x]
    else if Ahead(x, s[0], newestFirst) then [x] + s
    else
      assert s == [s[0]] + s[1..];
      [s[0]] + Insert(s[1..], x, newestFirst)
  }

  /** `sorted(files, key=mtime, reverse=newestFirst)`, a stable sort. */
  function SortBy(s: seq<Entry>, newestFirst: bool): (r: seq<Entry>)
    ensures multiset(r) == multiset(s)
  {
    if s == [] then []
    else
      assert s == s[..|s| - 1] + [s[|s| - 1]];
      Insert(SortBy(s[..|s| - 1], newestFirst), s[|s| - 1], newestFirst)
  }

  /** The files with modification time `t`, in order. */
  function AtTime(s: seq<Entry>, t: int): seq<Entry>
  {
    if s == [] then [] else (if s[0].mtime == t then [s[0]] else []) + AtTime(s[1..], t)
  }

  lemma {:induction false} InsertOrdered(s: seq<Entry>, x: Entry, newestFirst: bool)
    requires Ordered(s, newestFirst)
    ensures Ordered(Insert(s, x, newestFirst), newestFirst)
    decreases |s|
  {
    if s != [] && !Ahead(x, s[0], newestFirst) {
      OrderedTail(s, newestFirst);
      InsertOrdered(s[1..], x, newestFirst);
      var r := Insert(s[1..], x, newestFirst);
      forall k | 0 <= k < |r|
        ensures !Ahead(r[k], s[0], newestFirst)
      {
        assert r[k] in multiset(s[1..]) + multiset{x};
        if r[k] != x {
          var m :| 0 <= m < |s[1..]| && s[1..][m] == r[k];
          assert s[m + 1] == r[k];
        }
      }
      ConsOrdered(s[0], r, newestFirst);
    }
  }

  /** A file that no file of an ordered listing sorts ahead of can head it. */
  lemma ConsOrdered(y: Entry, r: seq<Entry>, newestFirst: bool)
    requires Ordered(r, newestFirst) && forall k :: 0 <= k < |r| ==> !Ahead(r[k], y, newestFirst)
    ensures Ordered([y] + r, newestFirst)
  {
    var c := [y] + r;
    forall i, j | 0 <= i < j < |c|
      ensures !Ahead(c[j], c[i], newestFirst)
    {
      assert c[j] == r[j - 1];
      if i > 0 {
        assert c[i] == r[i - 1];
      }
    }
  }

  lemma {:induction false} SortOrdered(s: seq<Entry>, newestFirst: bool)
    ensures Ordered(SortBy(s, newestFirst), newestFirst)
    decreases |s|
  {
    if s != [] {
      SortOrdered(s[..|s| - 1], newestFirst);
      InsertOrdered(SortBy(s[..|s| - 1], newestFirst), s[|s| - 1], newestFirst);
    }
  }

  lemma AtTimeCons(x: Entry, r: seq<Entry>, t: int)
    ensures AtTime([x] + r, t) == (if x.mtime == t then [x] else []) + AtTime(r, t)
  {
    assert ([x] + r)[0] == x && ([x] + r)[1..] == r;
  }

  lemma {:induction false} AtTimeConcat(a: seq<Entry>, b: seq<Entry>, t: int)
    ensures AtTime(a + b, t) == AtTime(a, t) + AtTime(b, t)
    decreases |a|
  {
    if a == [] {
      assert a + b == b;
    } else {
      assert a + b == [a[0]] + (a[1..] + b);
      AtTimeCons(a[0], a[1..] + b, t);
      AtTimeConcat(a[1..], b, t);
      AtTimeCons(a[0], a[1..], t);
      assert a == [a[0]] + a[1..];
    }
  }

  /** Every file of an ordered listing headed by `y` is not ahead of `y`,
      so none has the time of a file strictly ahead of `y`. */
  lemma NoneAtTime(s: seq<Entry>, x: Entry, newestFirst: bool)
    requires Ordered(s, newestFirst) && s != [] && Ahead(x, s[0], newestFirst)
    ensures AtTime(s, x.mtime) == []
  {
    forall j | 0 < j < |s|
      ensures s[j].mtime != x.mtime
    {
      assert !Ahead(s[j], s[0], newestFirst);
    }
    NoneAtTimeTail(s, x.mtime);
  }

  lemma {:induction false} NoneAtTimeTail(s: seq<Entry>, t: int)
    requires forall j :: 0 <= j < |s| ==> s[j].mtime != t
    ensures AtTime(s, t) == []
    decreases |s|
  {
    if s != [] {
      NoneAtTimeTail(s[1..], t);
    }
  }

  lemma OrderedTail(s: seq<Entry>, newestFirst: bool)
    requires s != [] && Ordered(s, newestFirst)
    ensures Ordered(s[1..], newestFirst)
  {
    assert forall j :: 0 <= j < |s| - 1 ==> s[1..][j] == s[j + 1];
  }

  /** A file that sorts ahead of the whole listing goes in front. */
  lemma InsertAheadAtTime(s: seq<Entry>, x: Entry, newestFirst: bool, t: int)
    requires Ordered(s, newestFirst) && s != [] && Ahead(x, s[0], newestFirst)
    ensures AtTime(Insert(s, x, newestFirst), t) == AtTime(s, t) + (if x.mtime == t then [x] else [])
  {
    assert Insert(s, x, newestFirst) == [x] + s;
    AtTimeCons(x, s, t);
    if x.mtime == t {
      NoneAtTime(s, x, newestFirst);
    }
  }

  /** Putting the same file in front of two listings keeps what one adds to
      the other at time `t`. */
  lemma ConsAtTime(y: Entry, r: seq<Entry>, tail: seq<Entry>, e: seq<Entry>, t: int)
    requires AtTime(r, t) == AtTime(tail, t) + e
    ensures AtTime([y] + r, t) == AtTime([y] + tail, t) + e
  {
    var h := if y.mtime == t then [y] else [];
    AtTimeCons(y, r, t);
    AtTimeCons(y, tail, t);
    assert h + (AtTime(tail, t) + e) == (h + AtTime(tail, t)) + e;
  }

  lemma {:induction false} InsertAtTime(s: seq<Entry>, x: Entry, newestFirst: bool, t: int)
    requires Ordered(s, newestFirst)
    ensures AtTime(Insert(s, x, newestFirst), t) == AtTime(s, t) + (if x.mtime == t then [x] else [])
    decreases |s|
  {
    if s == [] {
      AtTimeCons(x, [], t);
    } else if Ahead(x, s[0], newestFirst) {
      InsertAheadAtTime(s, x, newestFirst, t);
    } else {
      OrderedTail(s, newestFirst);
      InsertAtTime(s[1..], x, newestFirst, t);
      assert Insert(s, x, newestFirst) == [s[0]] + Insert(s[1..], x, newestFirst);
      ConsAtTime(s[0], Insert(s[1..], x, newestFirst), s[1..], if x.mtime == t then [x] else [], t);
      assert [s[0]] + s[1..] == s;
    }
  }

  /** The sort is stable: files with the same modification time keep their
      directory order. */
  lemma {:induction false} SortStable(s: seq<Entry>, newestFirst: bool, t: int)
    ensures AtTime(SortBy(s, newestFirst), t) == AtTime(s, t)
    decreases |s|
  {
    if s != [] {
      var n := |s| - 1;
      SortStable(s[..n], newestFirst, t);
      SortSnocAtTime(s, newestFirst, t);
      AtTimeSnoc(s, t);
    }
  }

  /** Sorting one more file adds it, at its time, behind the others. */
  lemma SortSnocAtTime(s: seq<Entry>, newestFirst: bool, t: int)
    requires s != []
    ensures AtTime(SortBy(s, newestFirst), t) ==
      AtTime(SortBy(s[..|s| - 1], newestFirst), t) + (if s[|s| - 1].mtime == t then [s[|s| - 1]] else [])
  {
    var n := |s| - 1;
    var sorted := SortBy(s[..n], newestFirst);
    assert SortBy(s, newestFirst) == Insert(sorted, s[n], newestFirst);
    SortOrdered(s[..n], newestFirst);
    InsertAtTime(sorted, s[n], newestFirst, t);
  }

  lemma AtTimeSnoc(s: seq<Entry>, t: int)
    requires s != []
    ensures AtTime(s, t) == AtTime(s[..|s| - 1], t) + (if s[|s| - 1].mtime == t then [s[|s| - 1]] else [])
  {
    var n := |s| - 1;
    assert s == s[..n] + [s[n]];
    AtTimeConcat(s[..n], [s[n]], t);
    AtTimeCons(s[n], [], t);
    assert [s[n]] + [] == [s[n]];
  }

  // ---------------------------------------------------------- keep / delete

  /** The newest-first listing the FastAPI service prunes. */
  function Listing(entries: seq<Entry>): seq<Entry>
  {
    SortBy(Glob(entries, false), true)
  }

  /** Names that `delete_old_files(files, keep)` removes: those of
      `files[keep:]` whose removal does not raise. */
  function Doomed(files: seq<Entry>, keep: int, stuck: set<string>): set<string>
  {
    set e | e in PyFrom(files, keep) && e.name !in stuck :: e.name
  }

  /** The directory after removing the named files. */
  function Without(entries: seq<Entry>, gone: set<string>): (r: seq<Entry>)
    ensures forall e :: e in r <==> e in entries && e.name !in gone
  {
    if entries == [] then []
    else
      assert forall x :: x in entries <==> x == entries[0] || x in entries[1..];
      (if entries[0].name in gone then [] else [entries[0]]) + Without(entries[1..], gone)
  }

  lemma WithoutCons(x: Entry, r: seq<Entry>, gone: set<string>)
    ensures Without([x] + r, gone) == (if x.name in gone then [] else [x]) + Without(r, gone)
  {
    assert ([x] + r)[0] == x && ([x] + r)[1..] == r;
  }

  lemma {:induction false} WithoutNothing(entries: seq<Entry>)
    ensures Without(entries, {}) == entries
    decreases |entries|
  {
    if entries != [] {
      WithoutNothing(entries[1..]);
      assert entries == [entries[0]] + entries[1..];
    }
  }

  lemma {:induction false} WithoutTwice(entries: seq<Entry>, a: set<string>, b: set<string>)
    ensures Without(Without(entries, a), b) == Without(entries, a + b)
    decreases |entries|
  {
    if entries != [] {
      var x := entries[0];
      var r := entries[1..];
      WithoutTwice(r, a, b);
      if x.name in a {
        assert Without(entries, a) == Without(r, a);
      } else {
        assert Without(entries, a) == [x] + Without(r, a);
        WithoutCons(x, Without(r, a), b);
      }
    }
  }

  /** The kept files are the newest: none of the deleted ones is newer. */
  lemma KeptAreNewest(entries: seq<Entry>, keep: int)
    ensures var files := Listing(entries);
      forall a, b :: a in PyTo(files, keep) && b in PyFrom(files, keep) ==> a.mtime >= b.mtime
  {
    var files := Listing(entries);
    SortOrdered(Glob(entries, false), true);
    var k := SliceBound(|files|, keep);
    forall a, b | a in PyTo(files, keep) && b in PyFrom(files, keep)
      ensures a.mtime >= b.mtime
    {
      var i :| 0 <= i < k && files[i] == a;
      var j :| 0 <= j < |files| - k && files[k..][j] == b;
      assert files[k + j] == b;
    }
  }

  /** Kept and deleted files split the listing; for a count in range the
      kept part has exactly that many files. */
  lemma KeepDeleteSplit(files: seq<Entry>, keep: int)
    ensures PyTo(files, keep) + PyFrom(files, keep) == files
    ensures 0 <= keep <= |files| ==> |PyTo(files, keep)| == keep
    ensures keep >= |files| ==> PyTo(files, keep) == files && PyFrom(files, keep) == []
  {
    PyToFromSplit(files, keep);
  }

  /** With nothing stuck, everything past the first `keep` files goes. */
  lemma NothingStuck(files: seq<Entry>, keep: int, e: Entry)
    requires e in PyFrom(files, keep)
    ensures e.name in Doomed(files, keep, {})
  {
  }

  // ------------------------------------------------------------ listing

  /** The image files of the folder, hidden ones left out, oldest first. */
  function OldestFirst(entries: seq<Entry>): seq<Entry>
  {
    SortBy(Glob(entries, true), false)
  }

  /** `get_images(keep_count)` (Flask utilities): oldest first, the last
      `keep_count` when one is given. */
  function GetImages(entries: seq<Entry>, keepCount: Option<int>): seq<string>
  {
    var files := OldestFirst(entries);
    Names(if keepCount.None? then files else PyFrom(files, -keepCount.value))
  }

  /** `FileManager.get_image_list(keep_count)`: the same, except that the
      count is tested for truth, so 0 lists everything. */
  function ImageList(entries: seq<Entry>, keepCount: Option<int>): seq<string>
  {
    var files := OldestFirst(entries);
    Names(if keepCount.None? || keepCount.value == 0 then files else PyFrom(files, -keepCount.value))
  }

  /** The two listings never differ: `images[-0:]` is the whole list too. */
  lemma ListingsAgree(entries: seq<Entry>, keepCount: Option<int>)
    ensures GetImages(entries, keepCount) == ImageList(entries, keepCount)
  {
    var files := OldestFirst(entries);
    var kept := if keepCount.None? then files else PyFrom(files, -keepCount.value);
    var listed := if keepCount.None? || keepCount.value == 0 then files else PyFrom(files, -keepCount.value);
    assert kept == listed by {
      if keepCount.Some? && keepCount.value == 0 {
        assert SliceBound(|files|, 0) == 0;
      }
    }
    assert GetImages(entries, keepCount) == Names(kept);
    assert ImageList(entries, keepCount) == Names(listed);
  }

  /** A positive count lists the newest `keepCount` files (or all, if there
      are fewer), oldest of them first. */
  lemma ListsNewest(entries: seq<Entry>, keepCount: int)
    requires keepCount > 0
    ensures var files := OldestFirst(entries);
      var cut := if keepCount < |files| then |files| - keepCount else 0;
      GetImages(entries, Some(keepCount)) == Names(files[cut..])
      && forall i, j :: 0 <= i < cut <= j < |files| ==> files[i].mtime <= files[j].mtime
  {
    ListedSuffix(entries, keepCount);
    SortOrdered(Glob(entries, true), false);
  }

  lemma ListedSuffix(entries: seq<Entry>, keepCount: int)
    requires keepCount > 0
    ensures var files := OldestFirst(entries);
      GetImages(entries, Some(keepCount)) == Names(files[if keepCount < |files| then |files| - keepCount else 0..])
  {
    var files := OldestFirst(entries);
    assert GetImages(entries, Some(keepCount)) == Names(PyFrom(files, -keepCount));
    PyFromRules(files, -keepCount);
  }

  /** A directory of images. Removing a file named in `stuck` raises (a
      permission error, or the file vanished); the clean-up logs it and goes
      on. */
  class ImageFolder {
    var folder: string
    var present: bool
    var entries: seq<Entry>
    var stuck: set<string>

    constructor (path: string, isPresent: bool, listing: seq<Entry>, failing: set<string>)
      ensures folder == path && present == isPresent && entries == listing && stuck == failing
    {
      folder := path;
      present := isPresent;
      entries := listing;
      stuck := failing;
    }

    /** `delete_old_files(files, keep)`: one removal per file past the
        first `keep`; a failure does not stop the rest. */
    method DeleteOldFiles(files: seq<Entry>, keep: int)
      modifies this
      ensures entries == Without(old(entries), Doomed(files, keep, stuck))
      ensures folder == old(folder) && present == old(present) && stuck == old(stuck)
    {
      var doomed := PyFrom(files, keep);
      var i := 0;
      ghost var gone: set<string> := {};
      WithoutNothing(entries);
      while i < |doomed|
        invariant i <= |doomed|
        invariant gone == set e | e in doomed[..i] && e.name !in stuck :: e.name
        invariant entries == Without(old(entries), gone)
        invariant folder == old(folder) && present == old(present) && stuck == old(stuck)
        decreases |doomed| - i
      {
        var f := doomed[i];
        if f.name !in stuck {
          WithoutTwice(old(entries), gone, {f.name});
          entries := Without(entries, {f.name});
          gone := gone + {f.name};
        }
        assert doomed[..i + 1] == doomed[..i] + [f];
        i := i + 1;
      }
      assert doomed[..i] == doomed;
    }

    /** `clean_directory(config)` of the FastAPI service: nothing for a
        missing folder; otherwise the paths of the newest `keep` images are
        returned and the rest deleted. */
    method CleanDirectory(keep: int) returns (kept: seq<string>)
      modifies this
      ensures !old(present) ==> kept == [] && entries == old(entries)
      ensures old(present) ==>
        kept == Paths(folder, PyTo(Listing(old(entries)), keep))
        && entries == Without(old(entries), Doomed(Listing(old(entries)), keep, stuck))
      ensures folder == old(folder) && present == old(present) && stuck == old(stuck)
    {
      if !present {
        return [];
      }
      var files := Listing(entries);
      DeleteOldFiles(files, keep);
      kept := Paths(folder, PyTo(files, keep));
    }

    /** `clean_directory(keep_count)` of the Flask utilities: the same
        split over `glob.glob`, which skips hidden names, with no check for
        the folder. */
    method CleanDirectoryFlask(keep: int) returns (kept: seq<string>)
      modifies this
      ensures kept == Paths(folder, PyTo(SortBy(Glob(old(entries), true), true), keep))
      ensures entries == Without(old(entries), Doomed(SortBy(Glob(old(entries), true), true), keep, stuck))
      ensures folder == old(folder) && present == old(present) && stuck == old(stuck)
    {
      var files := SortBy(Glob(entries, true), true);
      DeleteOldFiles(files, keep);
      kept := Paths(folder, PyTo(files, keep));
    }
  }

  predicate UniqueNames(s: seq<Entry>)
  {
    forall i, j :: 0 <= i < j < |s| ==> s[i].name != s[j].name
  }

  lemma {:induction false} GlobUnique(entries: seq<Entry>, skipHidden: bool)
    requires UniqueNames(entries)
    ensures UniqueNames(Glob(entries, skipHidden))
    decreases |entries|
  {
    if entries != [] {
      assert UniqueNames(entries[1..]) by {
        assert forall j :: 0 <= j < |entries| - 1 ==> entries[1..][j] == entries[j + 1];
      }
      GlobUnique(entries[1..], skipHidden);
      var rest := Glob(entries[1..], skipHidden);
      var e := entries[0];
      assert Glob(entries, skipHidden) == if JpgName(e.name) && !(skipHidden && e.name[0] == '.') then [e] + rest else rest;
      forall k | 0 <= k < |rest|
        ensures rest[k].name != e.name
      {
        assert rest[k] in entries[1..];
        var j :| 0 <= j < |entries[1..]| && entries[1..][j] == rest[k];
        assert entries[j + 1] == rest[k];
      }
      ConsUnique(e, rest);
    }
  }

  lemma ConsUnique(e: Entry, rest: seq<Entry>)
    requires UniqueNames(rest) && forall k :: 0 <= k < |rest| ==> rest[k].name != e.name
    ensures UniqueNames([e] + rest)
  {
    var c := [e] + rest;
    forall i, j | 0 <= i < j < |c|
      ensures c[i].name != c[j].name
    {
      assert c[j] == rest[j - 1];
      if i > 0 {
        assert c[i] == rest[i - 1];
      }
    }
  }

  lemma {:induction false} InsertUnique(s: seq<Entry>, x: Entry, newestFirst: bool)
    requires UniqueNames(s) && forall y :: y in s ==> y.name != x.name
    ensures UniqueNames(Insert(s, x, newestFirst))
    decreases |s|
  {
    if s != [] && !Ahead(x, s[0], newestFirst) {
      assert UniqueNames(s[1..]) by {
        assert forall j :: 0 <= j < |s| - 1 ==> s[1..][j] == s[j + 1];
      }
      InsertUnique(s[1..], x, newestFirst);
      var r := Insert(s[1..], x, newestFirst);
      forall y | y in r
        ensures y.name != s[0].name
      {
        assert y in multiset(s[1..]) + multiset{x};
        if y != x {
          var j :| 0 <= j < |s[1..]| && s[1..][j] == y;
          assert s[j + 1] == y;
        }
      }
    }
  }

  lemma {:induction false} SortUnique(s: seq<Entry>, newestFirst: bool)
    requires UniqueNames(s)
    ensures UniqueNames(SortBy(s, newestFirst))
    decreases |s|
  {
    if s != [] {
      var n := |s| - 1;
      assert UniqueNames(s[..n]);
      SortUnique(s[..n], newestFirst);
      forall y | y in SortBy(s[..n], newestFirst)
        ensures y.name != s[n].name
      {
        assert y in multiset(s[..n]);
        var j :| 0 <= j < n && s[..n][j] == y;
      }
      InsertUnique(SortBy(s[..n], newestFirst), s[n], newestFirst);
    }
  }

  lemma UniqueSame(s: seq<Entry>, a: Entry, b: Entry)
    requires UniqueNames(s) && a in s && b in s && a.name == b.name
    ensures a == b
  {
    var i :| 0 <= i < |s| && s[i] == a;
    var j :| 0 <= j < |s| && s[j] == b;
    assert i == j;
  }

  /** In a listing without repeated names a file is kept exactly when it is
      not past the cut. */
  lemma KeptOrDropped(files: seq<Entry>, keep: int, e: Entry)
    requires UniqueNames(files) && e in files
    ensures e in PyTo(files, keep) <==> e !in PyFrom(files, keep)
  {
    var k := SliceBound(|files|, keep);
    var i :| 0 <= i < |files| && files[i] == e;
    assert forall j :: 0 <= j < |files| - k ==> files[k..][j] == files[k + j];
    if i < k {
      assert PyTo(files, keep)[i] == e;
    } else {
      assert PyFrom(files, keep)[i - k] == e;
    }
  }

  /** A name is removed exactly when some file past the cut carries it. */
  lemma DoomedSource(files: seq<Entry>, keep: int, name: string) returns (d: Entry)
    requires name in Doomed(files, keep, {})
    ensures d in files && d in PyFrom(files, keep) && d.name == name
  {
    d :| d in PyFrom(files, keep) && d.name == name;
    var k := SliceBound(|files|, keep);
    var j :| 0 <= j < |files| - k && files[k..][j] == d;
    assert files[k + j] == d;
  }

  /** After a FastAPI clean-up with no failing removal, the folder holds
      every entry that is not a listed image, and exactly the kept images. */
  lemma CleanLeavesKept(entries: seq<Entry>, keep: int, e: Entry)
    requires e in entries && UniqueNames(entries)
    ensures e in Without(entries, Doomed(Listing(entries), keep, {})) <==>
      e !in Glob(entries, false) || e in PyTo(Listing(entries), keep)
  {
    var files := Listing(entries);
    GlobUnique(entries, false);
    SortUnique(Glob(entries, false), true);
    assert forall x :: x in Glob(entries, false) <==> x in multiset(files);
    if e.name in Doomed(files, keep, {}) {
      var d := DoomedSource(files, keep, e.name);
      assert d in Glob(entries, false);
      UniqueSame(entries, d, e);
      KeptOrDropped(files, keep, e);
    } else if e in files {
      KeptOrDropped(files, keep, e);
    }
  }
}
