/**
 * The video id and the directory layout `assets_gen.py` prepares before any asset is
 * fetched: `get_random_string` and `video_setup`.
 */
module AssetSetup {
  import opened Common
  import opened Settings
  import opened FileSystem

  /** The 36 characters a video id is drawn from. */
  const Letters: string := "abcdefghijklmnopqrstuvwxyz1234567890"

  /** Indices into `Letters`, one per `random.choice` draw. */
  predicate ValidPicks(picks: seq<nat>)
  {
    forall k :: 0 <= k < |picks| ==> picks[k] < |Letters|
  }

  /** `get_random_string(len(picks))`, the k-th character being the k-th draw. */
  function RandomString(picks: seq<nat>): (s: string)
    requires ValidPicks(picks)
    ensures |s| == |picks|
    ensures forall k :: 0 <= k < |s| ==> s[k] in Letters
  {
    seq(|picks|, k requires 0 <= k < |picks| => Letters[picks[k]])
  }

  /** A position of `c` in `Letters`. */
  ghost function LetterIndex(c: char): (i: nat)
    requires c in Letters
    ensures i < |Letters| && Letters[i] == c
  {
    var i :| 0 <= i < |Letters| && Letters[i] == c; i
  }

  /** The draws that spell `s`. */
  ghost function PicksOf(s: string): (picks: seq<nat>)
    requires forall k :: 0 <= k < |s| ==> s[k] in Letters
    ensures |picks| == |s| && ValidPicks(picks)
  {
    seq(|s|, k requires 0 <= k < |s| => LetterIndex(s[k]))
  }

  /** Every string over the alphabet can come out of `get_random_string`, and only those can. */
  lemma RandomStringOnto(s: string)
    requires forall k :: 0 <= k < |s| ==> s[k] in Letters
    ensures RandomString(PicksOf(s)) == s
  {
    var t := RandomString(PicksOf(s));
    forall k | 0 <= k < |s|
      ensures t[k] == s[k]
    {
      assert t[k] == Letters[LetterIndex(s[k])];
    }
  }

  /** An id never holds a path separator, so `videos/<id>` is one new path component. */
  lemma RandomStringHasNoSeparator(picks: seq<nat>)
    requires ValidPicks(picks)
    ensures '/' !in RandomString(picks) && '.' !in RandomString(picks)
  {
    var s := RandomString(picks);
    forall k | 0 <= k < |s|
      ensures s[k] != '/' && s[k] != '.'
    {
      assert s[k] == Letters[picks[k]];
    }
  }

  /** `videos/<id>`, the directory of one video. */
  function VideoDir(id: string): string
  {
    "videos/" + id
  }

  /** `videos/<id>/p<i>`, the directory of part `i`, where its narration is saved. */
  function PartRoot(id: string, i: nat): string
  {
    "videos/" + id + "/p" + NatToString(i)
  }

  /** `videos/<id>/p<i>/<sub>`. */
  function PartDir(id: string, i: nat, sub: string): string
  {
    PartRoot(id, i) + "/" + sub
  }

  /** The two sub-directories of a part. */
  predicate SubDir(sub: string)
  {
    sub == "img" || sub == "video"
  }

  /** Whether `path` is taken, as a directory or as a file. */
  predicate Occupied(dirs: set<string>, files: map<string, string>, path: string)
  {
    path in dirs || path in files
  }

  /** The id `video_setup` settles on: the 15-character draw, or the 20-character one when `videos/<first>` is taken. */
  function ChosenId(dirs: set<string>, files: map<string, string>, first: string, second: string): string
  {
    if Occupied(dirs, files, "videos/" + first) then second else first
  }

  /** Every directory `os.makedirs` leaves behind for parts 0..n-1 of sub-directory `sub`. */
  function PartsChain(id: string, sub: string, n: nat): set<string>
    decreases n
  {
    if n == 0 then {} else PartsChain(id, sub, n - 1) + DirChain(PartDir(id, n - 1, sub))
  }

  /** The directories a successful setup leaves for `id`. */
  function Layout(id: string): set<string>
  {
    PartsChain(id, "img", MaxParagraphs) + PartsChain(id, "video", MaxParagraphs)
  }

  /** Some part directory of `id` is already taken, so one of the `os.makedirs` calls raises. */
  predicate Blocked(dirs: set<string>, files: map<string, string>, id: string)
  {
    exists i :: 0 <= i < MaxParagraphs && (Occupied(dirs, files, PartDir(id, i, "img")) || Occupied(dirs, files, PartDir(id, i, "video")))
  }

  lemma DirChainMember(p: string, q: string)
    requires q in DirChain(p)
    ensures 1 <= |q| <= |p| && q == p[..|q|]
  {
  }

  /** Making a directory also makes all of its ancestors. */
  lemma DirChainExtend(p: string, rest: string)
    ensures DirChain(p) <= DirChain(p + "/" + rest)
  {
    var long := p + "/" + rest;
    forall q | q in DirChain(p)
      ensures q in DirChain(long)
    {
      var k :| 1 <= k <= |p| && (k == |p| || p[k] == '/') && q == p[..k];
      assert long[..k] == q;
      assert long[k] == '/';
    }
  }

  lemma SmallNatToString(i: nat)
    requires i < 10
    ensures NatToString(i) == [DigitChar(i)]
  {
  }

  /** Two different part directories are never ancestors of one another. */
  lemma PartDirNotInChain(id: string, i: nat, s: string, j: nat, t: string)
    requires i < 10 && j < 10 && SubDir(s) && SubDir(t)
    requires i != j || s != t
    ensures PartDir(id, i, s) !in DirChain(PartDir(id, j, t))
  {
    var a, b := PartDir(id, i, s), PartDir(id, j, t);
    var pre := "videos/" + id + "/p";
    SmallNatToString(i);
    SmallNatToString(j);
    assert a == pre + [DigitChar(i)] + "/" + s;
    assert b == pre + [DigitChar(j)] + "/" + t;
    assert a[|pre|] == DigitChar(i) && b[|pre|] == DigitChar(j);
    assert a[|pre| + 2] == s[0] && b[|pre| + 2] == t[0];
    assert a[|pre|] != b[|pre|] || a[|pre| + 2] != b[|pre| + 2];
    if a in DirChain(b) {
      DirChainMember(b, a);
      assert false;
    }
  }

  /** A part directory is not left behind by making the part directories of another sub-directory, or earlier ones of its own. */
  lemma {:induction false} PartDirNotInParts(id: string, i: nat, s: string, t: string, n: nat)
    requires i < 10 && n <= 10 && SubDir(s) && SubDir(t)
    requires s != t || n <= i
    ensures PartDir(id, i, s) !in PartsChain(id, t, n)
    decreases n
  {
    if n > 0 {
      PartDirNotInParts(id, i, s, t, n - 1);
      PartDirNotInChain(id, i, s, n - 1, t);
    }
  }

  /** A part directory is longer than anything made before the part loops. */
  lemma PartDirLength(id: string, i: nat, s: string)
    requires SubDir(s)
    ensures |PartDir(id, i, s)| >= |"videos/" + id| + 6
  {
  }

  /** `videos` and `videos/<id>` are ancestors of every part directory. */
  lemma LayoutHoldsRoots(id: string)
    ensures DirChain("videos") + DirChain("videos/" + id) <= Layout(id)
  {
    var p := PartDir(id, 0, "img");
    assert p == "videos" + "/" + (id + "/p" + NatToString(0) + "/img");
    assert p == ("videos/" + id) + "/" + ("p" + NatToString(0) + "/img");
    DirChainExtend("videos", id + "/p" + NatToString(0) + "/img");
    DirChainExtend("videos/" + id, "p" + NatToString(0) + "/img");
    assert DirChain(p) <= PartsChain(id, "img", 1);
    assert PartsChain(id, "img", 1) <= PartsChain(id, "img", 2) <= PartsChain(id, "img", 3);
  }

  /** After a successful setup the video directory and every part directory exist. */
  lemma LayoutHoldsPartRoots(id: string, i: nat)
    requires i < MaxParagraphs
    ensures VideoDir(id) in Layout(id)
    ensures PartRoot(id, i) in Layout(id) && PartDir(id, i, "img") in Layout(id) && PartDir(id, i, "video") in Layout(id)
  {
    LayoutHoldsRoots(id);
    DirChainExtend(PartRoot(id, i), "img");
    DirChainExtend(PartRoot(id, i), "video");
    PartsChainHolds(id, "img", i, MaxParagraphs);
    PartsChainHolds(id, "video", i, MaxParagraphs);
  }

  lemma {:induction false} PartsChainHolds(id: string, sub: string, i: nat, n: nat)
    requires i < n
    ensures DirChain(PartDir(id, i, sub)) <= PartsChain(id, sub, n)
    decreases n
  {
    if i < n - 1 {
      PartsChainHolds(id, sub, i, n - 1);
    }
  }

  /** None of the part directories `sub` of `id` is taken in `dirs` unless it was already taken in `dirs0`. */
  predicate NoNewClaim(dirs: set<string>, dirs0: set<string>, files0: map<string, string>, id: string, sub: string)
  {
    forall k :: 0 <= k < MaxParagraphs && Occupied(dirs, files0, PartDir(id, k, sub)) ==> Occupied(dirs0, files0, PartDir(id, k, sub))
  }

  /** None of the part directories `sub` of `id` was taken in `dirs0`. */
  predicate PartsFree(dirs0: set<string>, files0: map<string, string>, id: string, sub: string, n: nat)
  {
    forall k :: 0 <= k < n ==> !Occupied(dirs0, files0, PartDir(id, k, sub))
  }

  /** Directories no longer than `videos/<id>` never claim a part directory. */
  lemma ShortAddsNoClaim(dirs: set<string>, dirs0: set<string>, files0: map<string, string>, id: string, sub: string)
    requires SubDir(sub)
    requires forall q :: q in dirs && q !in dirs0 ==> |q| <= |"videos/" + id|
    ensures NoNewClaim(dirs, dirs0, files0, id, sub)
  {
    forall k | 0 <= k < MaxParagraphs
      ensures PartDir(id, k, sub) in dirs ==> PartDir(id, k, sub) in dirs0
    {
      PartDirLength(id, k, sub);
    }
  }

  /** What the first steps of `video_setup` add is no longer than `videos/<id>`. */
  lemma RootsAreShort(base: set<string>, dirs0: set<string>, first: string)
    requires base <= dirs0 + DirChain("videos") + DirChain("videos/" + first)
    ensures forall q :: q in base && q !in dirs0 ==> |q| <= |"videos/" + first|
  {
    forall q | q in base && q !in dirs0
      ensures |q| <= |"videos/" + first|
    {
      if q in DirChain("videos") {
        DirChainMember("videos", q);
      } else {
        DirChainMember("videos/" + first, q);
      }
    }
  }

  /** Making the `img` directories never claims a `video` directory. */
  lemma ImgPartsNoClaim(dirs: set<string>, dirs0: set<string>, files0: map<string, string>, id: string)
    requires NoNewClaim(dirs, dirs0, files0, id, "video")
    ensures NoNewClaim(dirs + PartsChain(id, "img", MaxParagraphs), dirs0, files0, id, "video")
  {
    forall k | 0 <= k < MaxParagraphs
      ensures PartDir(id, k, "video") !in PartsChain(id, "img", MaxParagraphs)
    {
      PartDirNotInParts(id, k, "video", "img", MaxParagraphs);
    }
  }

  /** A part directory free in a superset of `dirs0` extends the run of free part directories. */
  lemma PartsFreeMore(dirs0: set<string>, files0: map<string, string>, id: string, sub: string, i: nat, dirs: set<string>)
    requires PartsFree(dirs0, files0, id, sub, i) && dirs0 <= dirs
    requires !Occupied(dirs, files0, PartDir(id, i, sub))
    ensures PartsFree(dirs0, files0, id, sub, i + 1)
  {
  }

  /**
   * One of the two loops of `video_setup`: `os.makedirs("videos/<id>/p<i>/<sub>")` for each
   * part in turn, stopping at the first one that raises.
   */
  method MakePartDirs(disk: Disk, id: string, sub: string, ghost dirs0: set<string>, ghost files0: map<string, string>)
    returns (r: Result<(), PyError>)
    requires SubDir(sub)
    requires disk.files == files0 && dirs0 <= disk.dirs && NoNewClaim(disk.dirs, dirs0, files0, id, sub)
    modifies disk
    ensures r.Ok? <==> PartsFree(dirs0, files0, id, sub, MaxParagraphs)
    ensures r.Ok? ==> disk.dirs == old(disk.dirs) + PartsChain(id, sub, MaxParagraphs)
    ensures r.Err? ==> r.error == FileExistsError && old(disk.dirs) <= disk.dirs <= old(disk.dirs) + PartsChain(id, sub, MaxParagraphs)
    ensures disk.files == files0
  {
    ghost var start := disk.dirs;
    var i := 0;
    while i < MaxParagraphs
      invariant 0 <= i <= MaxParagraphs
      invariant disk.dirs == start + PartsChain(id, sub, i)
      invariant disk.files == files0
      invariant PartsFree(dirs0, files0, id, sub, i)
    {
      PartDirNotInParts(id, i, sub, sub, i);
      ghost var before := disk.dirs;
      var res := disk.MakeDirs(PartDir(id, i, sub));
      if res.Err? {
        assert Occupied(dirs0, files0, PartDir(id, i, sub));
        assert PartsChain(id, sub, i) <= PartsChain(id, sub, i + 1) <= PartsChain(id, sub, MaxParagraphs);
        return Err(res.error);
      }
      PartsFreeMore(dirs0, files0, id, sub, i, before);
      i := i + 1;
    }
    return Ok(());
  }

  /** With the `img` directories in place the `video` directories are still free, and conversely. */
  lemma BlockedSplit(dirs0: set<string>, files0: map<string, string>, id: string)
    ensures Blocked(dirs0, files0, id) <==> !(PartsFree(dirs0, files0, id, "img", MaxParagraphs) && PartsFree(dirs0, files0, id, "video", MaxParagraphs))
  {
  }

  /**
   * `video_setup()`: draws a 15-character id, makes `videos` and `videos/<id>` when they are
   * missing (drawing a 20-character id instead, without making it, when `videos/<id>` is
   * taken), then makes `p<i>/img` for every part and `p<i>/video` for every part. A part
   * directory that is already taken makes `os.makedirs` raise.
   */
  method VideoSetup(disk: Disk, picks15: seq<nat>, picks20: seq<nat>) returns (r: Result<string, PyError>)
    requires |picks15| == 15 && |picks20| == 20 && ValidPicks(picks15) && ValidPicks(picks20)
    modifies disk
    ensures var id := ChosenId(old(disk.dirs), old(disk.files), RandomString(picks15), RandomString(picks20));
      && (r.Ok? <==> !Blocked(old(disk.dirs), old(disk.files), id))
      && (r.Ok? ==> r.value == id && disk.dirs == old(disk.dirs) + Layout(id))
      && (r.Err? ==> r.error == FileExistsError && old(disk.dirs) <= disk.dirs <= old(disk.dirs) + Layout(id))
    ensures disk.files == old(disk.files)
  {
    ghost var dirs0, files0 := disk.dirs, disk.files;
    var first := RandomString(picks15);
    var id := first;
    if !disk.Exists("videos") {
      var _ := disk.MakeDirs("videos");
    }
    if !disk.Exists("videos/" + id) {
      var _ := disk.MakeDirs("videos/" + id);
    } else {
      id := RandomString(picks20);
    }
    assert id == ChosenId(dirs0, files0, first, RandomString(picks20));
    ghost var base := disk.dirs;
    assert dirs0 <= base <= dirs0 + DirChain("videos") + DirChain("videos/" + first);
    assert NoNewClaim(base, dirs0, files0, id, "img") && NoNewClaim(base, dirs0, files0, id, "video") by {
      RootsAreShort(base, dirs0, first);
      ShortAddsNoClaim(base, dirs0, files0, id, "img");
      ShortAddsNoClaim(base, dirs0, files0, id, "video");
    }
    assert base <= dirs0 + Layout(id) by {
      LayoutHoldsRoots(id);
    }
    BlockedSplit(dirs0, files0, id);

    var res := MakePartDirs(disk, id, "img", dirs0, files0);
    if res.Err? {
      return Err(res.error);
    }
    ImgPartsNoClaim(base, dirs0, files0, id);
    res := MakePartDirs(disk, id, "video", dirs0, files0);
    if res.Err? {
      return Err(res.error);
    }
    return Ok(id);
  }
}
