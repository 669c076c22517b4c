/** The byte stream fed to the build fingerprint: sorted files, each framed as its path,
    a NUL, its contents, a NUL. */
module Fingerprint {
  import opened Options

  type Byte = b: int | 0 <= b < 256
  type Bytes = seq<Byte>

  datatype File = File(path: Bytes, contents: Bytes)

  /** A strict total order on paths; how paths compare is left open. */
  ghost predicate TotalOrder(before: (Bytes, Bytes) -> bool) {
    && (forall a, b :: before(a, b) || a == b || before(b, a))
    && (forall a, b :: before(a, b) ==> !before(b, a) && a != b)
    && (forall a, b, c :: before(a, b) && before(b, c) ==> before(a, c))
  }

  // ----- Sorting -----

  ghost predicate Sorted(before: (Bytes, Bytes) -> bool, s: seq<Bytes>) {
    forall i, j :: 0 <= i < j < |s| ==> !before(s[j], s[i])
  }

  function Insert(before: (Bytes, Bytes) -> bool, x: Bytes, s: seq<Bytes>): (r: seq<Bytes>)
    ensures multiset(r) == multiset(s) + multiset{x}
  {
    if s == [] || before(x, s[0]) then
      [x] + s
    else
      assert s == [s[0]] + s[1..];
      [s[0]] + Insert(before, x, s[1..])
  }

  function Sort(before: (Bytes, Bytes) -> bool, s: seq<Bytes>): (r: seq<Bytes>)
    ensures multiset(r) == multiset(s)
  {
    if s == [] then [] else
    assert s == [s[0]] + s[1..];
    Insert(before, s[0], Sort(before, s[1..]))
  }

  lemma {:induction false} InsertSorted(before: (Bytes, Bytes) -> bool, x: Bytes, s: seq<Bytes>)
    requires TotalOrder(before) && Sorted(before, s)
    ensures Sorted(before, Insert(before, x, s))
    decreases |s|
  {
    var r := Insert(before, x, s);
    if s != [] && !before(x, s[0]) {
      var rest := Insert(before, x, s[1..]);
      InsertSorted(before, x, s[1..]);
      forall j | 0 <= j < |rest| ensures !before(rest[j], s[0]) {
        assert rest[j] in multiset(rest);
        if rest[j] != x {
          assert rest[j] in multiset(s[1..]);
          assert rest[j] in s[1..];
        }
      }
    } else if s != [] {
      forall j | 0 < j < |r| ensures !before(r[j], x) { assert r[j] == s[j - 1]; }
    }
  }

  lemma {:induction false} SortSorts(before: (Bytes, Bytes) -> bool, s: seq<Bytes>)
    requires TotalOrder(before)
    ensures Sorted(before, Sort(before, s))
    decreases |s|
  {
    if s != [] {
      SortSorts(before, s[1..]);
      InsertSorted(before, s[0], Sort(before, s[1..]));
    }
  }

  lemma {:induction false} SortedUnique(before: (Bytes, Bytes) -> bool, s: seq<Bytes>, t: seq<Bytes>)
    requires TotalOrder(before) && Sorted(before, s) && Sorted(before, t) && multiset(s) == multiset(t)
    ensures s == t
    decreases |s|
  {
    assert |s| == |multiset(s)| == |multiset(t)| == |t|;
    if s != [] {
      FirstSame(before, s, t);
      hide TotalOrder;
      assert s == [s[0]] + s[1..] && t == [t[0]] + t[1..];
      assert multiset(s[1..]) == multiset(s) - multiset{s[0]};
      assert multiset(t[1..]) == multiset(t) - multiset{t[0]};
      SortedUnique(before, s[1..], t[1..]);
    }
  }

  lemma FirstSame(before: (Bytes, Bytes) -> bool, s: seq<Bytes>, t: seq<Bytes>)
    requires TotalOrder(before) && Sorted(before, s) && Sorted(before, t) && multiset(s) == multiset(t) && s != [] && t != []
    ensures s[0] == t[0]
  {
    assert s[0] in multiset(t) && t[0] in multiset(s);
    var i :| 0 <= i < |t| && t[i] == s[0];
    var j :| 0 <= j < |s| && s[j] == t[0];
    assert !(i > 0 && before(t[i], t[0])) && !(j > 0 && before(s[j], s[0]));
  }

  // ----- The stream -----

  function Framed(f: File): Bytes { f.path + [0] + f.contents + [0] }

  function Stream(files: seq<File>): Bytes {
    if files == [] then [] else Stream(files[..|files| - 1]) + Framed(files[|files| - 1])
  }

  function Load(paths: seq<Bytes>, disk: map<Bytes, Bytes>): (files: seq<File>)
    requires forall i :: 0 <= i < |paths| ==> paths[i] in disk
    ensures |files| == |paths|
  {
    seq(|paths|, i requires 0 <= i < |paths| => File(paths[i], disk[paths[i]]))
  }

  lemma SortKeeps(before: (Bytes, Bytes) -> bool, found: seq<Bytes>)
    ensures forall p :: p in Sort(before, found) <==> p in found
  {
    var files := Sort(before, found);
    forall p ensures p in files <==> p in found {
      assert p in files <==> p in multiset(files);
      assert p in found <==> p in multiset(found);
    }
  }

  lemma StreamNext(files: seq<Bytes>, disk: map<Bytes, Bytes>, i: nat)
    requires i < |files| && forall k :: 0 <= k <= i ==> files[k] in disk
    ensures Stream(Load(files[..i + 1], disk)) == Stream(Load(files[..i], disk)) + files[i] + [0] + disk[files[i]] + [0]
  {
    var now := Load(files[..i + 1], disk);
    assert now[..i] == Load(files[..i], disk) && now[i] == File(files[i], disk[files[i]]);
    assert |now| - 1 == i;
  }

  /** The build reads the sorted files one after the other and stops at a missing one. */
  method BuildFingerprint(before: (Bytes, Bytes) -> bool, found: seq<Bytes>, disk: map<Bytes, Bytes>) returns (hashed: Option<Bytes>)
    ensures hashed.None? <==> exists p :: p in found && p !in disk
    ensures hashed.Some? ==>
      && (forall i :: 0 <= i < |Sort(before, found)| ==> Sort(before, found)[i] in disk)
      && hashed.value == Stream(Load(Sort(before, found), disk))
  {
    var files := Sort(before, found);
    SortKeeps(before, found);
    hide Sort, Stream, Load;
    var hasher: Bytes := [];
    assert Stream(Load(files[..0], disk)) == [] by { StreamNone(files, disk); }
    for i := 0 to |files|
      invariant forall k :: 0 <= k < i ==> files[k] in disk
      invariant hasher == Stream(Load(files[..i], disk))
    {
      var path := files[i];
      hasher := hasher + path;
      hasher := hasher + [0];
      if path !in disk {
        assert path in found;
        return None;
      }
      hasher := hasher + disk[path];
      hasher := hasher + [0];
      StreamNext(files, disk, i);
    }
    assert files[..|files|] == files;
    forall p | p in found ensures p in disk { assert p in files; }
    hashed := Some(hasher);
  }

  lemma StreamNone(files: seq<Bytes>, disk: map<Bytes, Bytes>)
    ensures Stream(Load(files[..0], disk)) == []
  {
  }

  /** The order in which directories list their files does not matter. */
  lemma ListingOrderIrrelevant(before: (Bytes, Bytes) -> bool, found: seq<Bytes>, listed: seq<Bytes>)
    requires TotalOrder(before) && multiset(found) == multiset(listed)
    ensures Sort(before, found) == Sort(before, listed)
  {
    SortSorts(before, found);
    SortSorts(before, listed);
    SortedUnique(before, Sort(before, found), Sort(before, listed));
  }

  // ----- Reading the stream back -----

  ghost predicate NulFree(s: Bytes) { forall i :: 0 <= i < |s| ==> s[i] != 0 }

  ghost predicate AllNulFree(files: seq<File>) {
    forall i :: 0 <= i < |files| ==> NulFree(files[i].path) && NulFree(files[i].contents)
  }

  /** The bytes up to the first NUL. */
  function Head(s: Bytes): (h: Bytes)
    ensures |h| <= |s| && h == s[..|h|]
    ensures |h| < |s| ==> s[|h|] == 0
  {
    if s == [] || s[0] == 0 then [] else [s[0]] + Head(s[1..])
  }

  lemma {:induction false} HeadStops(a: Bytes, rest: Bytes)
    requires NulFree(a)
    ensures Head(a + [0] + rest) == a
    decreases |a|
  {
    var s := a + [0] + rest;
    if a == [] {
      assert s[0] == 0;
    } else {
      HeadStops(a[1..], rest);
      assert s[1..] == a[1..] + [0] + rest;
    }
  }

  /** Frames read off one after the other. */
  function Parse(s: Bytes): Option<seq<File>>
    decreases |s|
  {
    if s == [] then Some([]) else
    var path := Head(s);
    if |path| == |s| then None else
    var after := s[|path| + 1..];
    var contents := Head(after);
    if |contents| == |after| then None else
    match Parse(after[|contents| + 1..])
    case None => None
    case Some(files) => Some([File(path, contents)] + files)
  }

  lemma {:induction false} StreamFirst(files: seq<File>)
    requires files != []
    ensures Stream(files) == Framed(files[0]) + Stream(files[1..])
    decreases |files|
  {
    hide Framed;
    if |files| > 1 {
      var n := |files| - 1;
      StreamFirst(files[..n]);
      assert files[..n][1..] == files[1..][..n - 1] && files[1..][n - 1] == files[n];
      assert files[..n][0] == files[0];
    } else {
      assert files[..0] == [] && files[1..] == [];
    }
  }

  lemma ParseFramed(f: File, rest: Bytes)
    requires NulFree(f.path) && NulFree(f.contents)
    ensures Parse(Framed(f) + rest) ==
            match Parse(rest) case None => None case Some(files) => Some([f] + files)
  {
    var s, after := Framed(f) + rest, f.contents + [0] + rest;
    assert s == f.path + [0] + after;
    HeadStops(f.path, after);
    HeadStops(f.contents, rest);
    hide Head, NulFree;
    assert s[|f.path| + 1..] == after;
    assert after[|f.contents| + 1..] == rest;
  }

  /** For NUL-free paths and contents the files can be read back from the stream. */
  lemma {:induction false} ParseStream(files: seq<File>)
    requires AllNulFree(files)
    ensures Parse(Stream(files)) == Some(files)
    decreases |files|
  {
    if files != [] {
      StreamFirst(files);
      assert AllNulFree(files[1..]);
      ParseStream(files[1..]);
      ParseFramed(files[0], Stream(files[1..]));
      hide Parse, Stream, Framed;
      assert files == [files[0]] + files[1..];
    }
  }

  /** Different NUL-free file sets are hashed as different streams. */
  lemma StreamInjective(files: seq<File>, others: seq<File>)
    requires AllNulFree(files) && AllNulFree(others) && Stream(files) == Stream(others)
    ensures files == others
  {
    ParseStream(files);
    ParseStream(others);
  }

  // ----- Exactly which lists can be confused -----

  /** Paths are NUL-free; contents may hold anything. */
  ghost predicate PathsNulFree(files: seq<File>) {
    forall i :: 0 <= i < |files| ==> NulFree(files[i].path)
  }

  function Nuls(s: Bytes): nat {
    if s == [] then 0 else Nuls(s[..|s| - 1]) + (if s[|s| - 1] == 0 then 1 else 0)
  }

  /** The NULs in all contents. */
  function NulsIn(files: seq<File>): nat {
    if files == [] then 0 else NulsIn(files[..|files| - 1]) + Nuls(files[|files| - 1].contents)
  }

  lemma {:induction false} NulsAppend(a: Bytes, b: Bytes)
    ensures Nuls(a + b) == Nuls(a) + Nuls(b)
    decreases |b|
  {
    if b == [] {
      assert a + b == a;
    } else {
      NulsAppend(a, b[..|b| - 1]);
      assert (a + b)[..|a + b| - 1] == a + b[..|b| - 1];
    }
  }

  lemma {:induction false} NulFreeIffNone(s: Bytes)
    ensures NulFree(s) <==> Nuls(s) == 0
    decreases |s|
  {
    if s != [] {
      NulFreeIffNone(s[..|s| - 1]);
      assert NulFree(s) ==> NulFree(s[..|s| - 1]);
    }
  }

  lemma OneNul()
    ensures Nuls([0]) == 1
  {
    assert [0 as Byte][..0] == [];
  }

  lemma FramedNuls(f: File)
    requires NulFree(f.path)
    ensures Nuls(Framed(f)) == 2 + Nuls(f.contents)
  {
    NulFreeIffNone(f.path);
    OneNul();
    NulsAppend(f.path, [0]);
    NulsAppend(f.path + [0], f.contents);
    NulsAppend(f.path + [0] + f.contents, [0]);
  }

  /** Two NULs a file, and those in the contents. */
  lemma {:induction false} StreamNuls(files: seq<File>)
    requires PathsNulFree(files)
    ensures Nuls(Stream(files)) == 2 * |files| + NulsIn(files)
    decreases |files|
  {
    hide Framed;
    if files != [] {
      var n := |files| - 1;
      StreamNuls(files[..n]);
      FramedNuls(files[n]);
      NulsAppend(Stream(files[..n]), Framed(files[n]));
    }
  }

  lemma {:induction false} NoneInMeansFree(files: seq<File>, i: nat)
    requires i < |files|
    ensures NulsIn(files) >= Nuls(files[i].contents)
    decreases |files|
  {
    if i < |files| - 1 { NoneInMeansFree(files[..|files| - 1], i); }
  }

  lemma {:induction false} FreeMeansNoneIn(files: seq<File>)
    requires AllNulFree(files)
    ensures NulsIn(files) == 0
    decreases |files|
  {
    if files != [] {
      FreeMeansNoneIn(files[..|files| - 1]);
      NulFreeIffNone(files[|files| - 1].contents);
    }
  }

  lemma {:induction false} StreamAppend(a: seq<File>, b: seq<File>)
    ensures Stream(a + b) == Stream(a) + Stream(b)
    decreases |b|
  {
    hide Framed;
    if b == [] {
      assert a + b == a;
    } else {
      var n := |b| - 1;
      StreamAppend(a, b[..n]);
      assert (a + b)[..|a + b| - 1] == a + b[..n];
    }
  }

  lemma StreamOne(f: File)
    ensures Stream([f]) == Framed(f)
  {
    assert [f][..0] == [];
    assert Stream([f]) == [] + Framed(f);
  }

  lemma StreamTwo(f: File, g: File)
    ensures Stream([f, g]) == Framed(f) + Framed(g)
  {
    hide Framed;
    StreamOne(f);
    assert [f, g][..1] == [f];
  }

  /** Replacing a stretch by files with the same stream. */
  lemma StreamReplaced(front: seq<File>, old_: seq<File>, new_: seq<File>, back: seq<File>)
    requires Stream(old_) == Stream(new_)
    ensures Stream(front + old_ + back) == Stream(front + new_ + back)
  {
    StreamAppend(front + old_, back);
    StreamAppend(front, old_);
    StreamAppend(front + new_, back);
    StreamAppend(front, new_);
  }

  /** A NUL-free path ends at the first NUL, so one file alone cannot be misread. */
  lemma OneFileDecoded(f: File, g: File)
    requires NulFree(f.path) && NulFree(g.path) && Framed(f) == Framed(g)
    ensures f == g
  {
    var s := Framed(f);
    assert s == f.path + [0] + (f.contents + [0]) && s == g.path + [0] + (g.contents + [0]);
    HeadStops(f.path, f.contents + [0]);
    HeadStops(g.path, g.contents + [0]);
    assert f.path == g.path;
    var n := |f.path| + 1;
    assert s[n..|s| - 1] == f.contents && s[n..|s| - 1] == g.contents;
  }

  /** The frame of a file and that of the next can be cut in other places. */
  lemma FrameShift(p: Bytes, x: Bytes, y: Bytes, q: Bytes, c: Bytes)
    ensures Framed(File(p, x + [0] + y)) + Framed(File(q, c)) == Framed(File(p, x)) + Framed(File(y, q + [0] + c))
  {
    var s := p + [0] + x + [0] + y + [0] + q + [0] + c + [0];
    assert Framed(File(p, x + [0] + y)) + Framed(File(q, c)) == s;
    assert Framed(File(p, x)) + Framed(File(y, q + [0] + c)) == s;
  }

  lemma FrameMerge(p: Bytes, x: Bytes, q: Bytes, y: Bytes)
    ensures Framed(File(p, x + [0] + q + [0] + y)) == Framed(File(p, x)) + Framed(File(q, y))
  {
    assert Framed(File(p, x + [0] + q + [0] + y)) == p + [0] + x + [0] + q + [0] + y + [0];
    assert Framed(File(p, x)) + Framed(File(q, y)) == p + [0] + x + [0] + q + [0] + y + [0];
  }

  /** The first and the last NUL of contents that hold one. */
  lemma {:induction false} FirstNul(s: Bytes) returns (x: Bytes, y: Bytes)
    requires Nuls(s) > 0
    ensures s == x + [0] + y && NulFree(x) && Nuls(y) == Nuls(s) - 1
  {
    x := Head(s);
    HeadFree(s);
    NulFreeIffNone(s);
    y := s[|x| + 1..];
    assert s == x + [0] + y;
    NulFreeIffNone(x);
    OneNul();
    NulsAppend(x, [0]);
    NulsAppend(x + [0], y);
  }

  lemma {:induction false} HeadFree(s: Bytes)
    ensures NulFree(Head(s)) && (|Head(s)| == |s| ==> NulFree(s))
    decreases |s|
  {
    if s != [] && s[0] != 0 {
      HeadFree(s[1..]);
      assert s == [s[0]] + s[1..];
    }
  }

  lemma {:induction false} LastNul(s: Bytes) returns (x: Bytes, y: Bytes)
    requires Nuls(s) > 0
    ensures s == x + [0] + y && NulFree(y)
    decreases |s|
  {
    var n := |s| - 1;
    if s[n] == 0 {
      x, y := s[..n], [];
    } else {
      var z;
      x, z := LastNul(s[..n]);
      y := z + [s[n]];
      assert s == s[..n] + [s[n]];
    }
  }

  /** No other list of as many files gives the same stream. */
  ghost predicate ClearAmongEquals(files: seq<File>) {
    forall others :: PathsNulFree(others) && |others| == |files| && Stream(others) == Stream(files) ==> others == files
  }

  /** No other list at all gives the same stream. */
  ghost predicate Clear(files: seq<File>) {
    forall others :: PathsNulFree(others) && Stream(others) == Stream(files) ==> others == files
  }

  /** With at least two files, a NUL in any contents lets a boundary move. */
  lemma BoundaryMoves(files: seq<File>, i: nat) returns (others: seq<File>)
    requires PathsNulFree(files) && |files| >= 2 && i < |files| && Nuls(files[i].contents) > 0
    ensures PathsNulFree(others) && |others| == |files| && Stream(others) == Stream(files) && others != files
  {
    hide Framed, Nuls, Stream;
    var k: nat := if i == |files| - 1 then i - 1 else i;
    var f, g := files[k], files[k + 1];
    var f', g' := f, g;
    if i == k {
      var x, y := LastNul(f.contents);
      f', g' := File(f.path, x), File(y, g.path + [0] + g.contents);
      FrameShift(f.path, x, y, g.path, g.contents);
      assert |f'.contents| < |f.contents|;
    } else {
      var x, y := FirstNul(g.contents);
      f', g' := File(f.path, f.contents + [0] + g.path), File(x, y);
      FrameShift(f.path, f.contents, g.path, x, y);
      assert |f'.contents| > |f.contents|;
    }
    StreamTwo(f, g);
    StreamTwo(f', g');
    others := files[..k] + [f', g'] + files[k + 2..];
    StreamReplaced(files[..k], [f, g], [f', g'], files[k + 2..]);
    assert files == files[..k] + [f, g] + files[k + 2..];
    assert others[k] == f';
  }

  /** Among lists of as many files, exactly the lists of at most one file and the
      NUL-free ones cannot be confused. */
  lemma ClearAmongEqualsIff(files: seq<File>)
    requires PathsNulFree(files)
    ensures ClearAmongEquals(files) <==> |files| <= 1 || AllNulFree(files)
  {
    hide Stream, Nuls, NulsIn, Framed, NulFree;
    if |files| <= 1 || AllNulFree(files) {
      forall others: seq<File> | PathsNulFree(others) && |others| == |files| && Stream(others) == Stream(files) ensures others == files {
        if |files| == 1 {
          assert files == [files[0]] && others == [others[0]];
          StreamOne(files[0]);
          StreamOne(others[0]);
          OneFileDecoded(files[0], others[0]);
        } else if |files| > 1 {
          StreamNuls(files);
          StreamNuls(others);
          FreeMeansNoneIn(files);
          forall i: nat | i < |others| ensures NulFree(others[i].contents) {
            NoneInMeansFree(others, i);
            NulFreeIffNone(others[i].contents);
          }
          StreamInjective(files, others);
        }
      }
    } else {
      var i: nat :| i < |files| && !NulFree(files[i].contents);
      NulFreeIffNone(files[i].contents);
      var others := BoundaryMoves(files, i);
    }
  }

  /** Among all lists, exactly the empty list and a single file with at most one NUL
      cannot be confused: two files can always stand for one. */
  lemma ClearIff(files: seq<File>)
    requires PathsNulFree(files)
    ensures Clear(files) <==> |files| == 0 || (|files| == 1 && Nuls(files[0].contents) <= 1)
  {
    hide Stream, Nuls, Framed, NulFree;
    if |files| == 0 || (|files| == 1 && Nuls(files[0].contents) <= 1) {
      forall others: seq<File> | PathsNulFree(others) && Stream(others) == Stream(files) ensures others == files {
        FewFiles(files, others);
      }
    } else if |files| == 1 {
      assert files == [files[0]];
      var x, rest := FirstNul(files[0].contents);
      var q, y := FirstNul(rest);
      NulCollides(files[0].path, x, q, y);
      assert x + [0] + (q + [0] + y) == x + [0] + q + [0] + y;
      var others := [File(files[0].path, x), File(q, y)];
      assert PathsNulFree(others) && Stream(others) == Stream(files) && others != files;
    } else {
      var f, g := files[0], files[1];
      var merged := File(f.path, f.contents + [0] + g.path + [0] + g.contents);
      NulCollides(f.path, f.contents, g.path, g.contents);
      StreamReplaced([], [f, g], [merged], files[2..]);
      var others := [] + [merged] + files[2..];
      assert files == [] + [f, g] + files[2..];
      assert PathsNulFree(others) && |others| < |files| && Stream(others) == Stream(files);
    }
  }

  lemma FewFiles(files: seq<File>, others: seq<File>)
    requires PathsNulFree(files) && PathsNulFree(others) && Stream(others) == Stream(files)
    requires |files| == 0 || (|files| == 1 && Nuls(files[0].contents) <= 1)
    ensures others == files
  {
    hide Stream, Framed, NulFree;
    StreamNuls(files);
    StreamNuls(others);
    if |files| == 1 {
      assert files == [files[0]] && NulsIn(files) == NulsIn([]) + Nuls(files[0].contents) by { assert files[..0] == []; }
      ClearAmongEqualsIff(files);
    }
  }

  /** One file with two NULs can stand for two files. */
  lemma NulCollides(p: Bytes, x: Bytes, q: Bytes, y: Bytes)
    ensures Stream([File(p, x + [0] + q + [0] + y)]) == Stream([File(p, x), File(q, y)])
  {
    hide Framed;
    StreamOne(File(p, x + [0] + q + [0] + y));
    StreamTwo(File(p, x), File(q, y));
    FrameMerge(p, x, q, y);
  }
}
