/**
 * The segment scheduler of video_gen.py: it turns, paragraph by paragraph, a pool of
 * image and video files and the length of the paragraph's narration into a table of
 * timed visual segments, against a running budget that starts at the total narration
 * length; then the operator accepts the table or asks for a new one.
 *
 * The random source is an input. `random.shuffle` is a supplied permutation of the
 * pool and `random.uniform(a, b)` is `a + (b - a) * u` for a supplied `u` in [0, 1],
 * so the case `a > b` that the code can reach is kept. Durations are `real`.
 */
module Compositor {
  import opened Common
  import opened Settings

  datatype Kind = Image | Video

  /** One row of the segment table: the asset's path, its drawn duration and its kind. */
  datatype Segment = Segment(path: string, duration: real, kind: Kind)

  /** A paragraph directory: the files under img/ and video/, and the length of audio.mp3. */
  datatype Paragraph = Paragraph(images: seq<string>, videos: seq<string>, audioLength: real)

  /** The random choices one paragraph consumes: the shuffle and the uniform draws. */
  datatype Draw = Draw(order: seq<nat>, uniforms: seq<real>)

  /** The segments placed for each processed paragraph, and the budget left at the end. */
  datatype Composition = Composition(groups: seq<seq<Segment>>, remaining: real)

  /** The segments placed for one paragraph, and the budget left afterwards. */
  datatype Placement = Placement(segments: seq<Segment>, remaining: real)

  function Min(a: real, b: real): real { if b < a then b else a }

  /** `x` lies between `a` and `b`, in whichever order they come. */
  predicate Between(x: real, a: real, b: real) { (a <= x <= b) || (b <= x <= a) }

  // ---------------------------------------------------------------------------
  // Sums

  function Sum(s: seq<real>): real
    decreases |s|
  {
    if s == [] then 0.0 else Sum(s[..|s| - 1]) + s[|s| - 1]
  }

  lemma {:induction false} SumAppend(a: seq<real>, b: seq<real>)
    ensures Sum(a + b) == Sum(a) + Sum(b)
    decreases |b|
  {
    if b != [] {
      assert (a + b)[..|a + b| - 1] == a + b[..|b| - 1];
      SumAppend(a, b[..|b| - 1]);
    } else {
      assert a + b == a;
    }
  }

  /** The total duration of a run of segments. */
  function SumDurations(segs: seq<Segment>): real
    decreases |segs|
  {
    if segs == [] then 0.0 else segs[0].duration + SumDurations(segs[1..])
  }

  lemma {:induction false} SumDurationsAppend(a: seq<Segment>, b: seq<Segment>)
    ensures SumDurations(a + b) == SumDurations(a) + SumDurations(b)
    decreases |a|
  {
    if a == [] {
      assert a + b == b;
    } else {
      assert (a + b)[1..] == a[1..] + b;
      SumDurationsAppend(a[1..], b);
    }
  }

  /** The total narration length of a run of paragraphs. */
  function SumAudio(ps: seq<Paragraph>): real
    decreases |ps|
  {
    if ps == [] then 0.0 else ps[0].audioLength + SumAudio(ps[1..])
  }

  /** The segment table of all processed paragraphs, in order. */
  function Flatten(groups: seq<seq<Segment>>): seq<Segment>
    decreases |groups|
  {
    if groups == [] then [] else groups[0] + Flatten(groups[1..])
  }

  lemma FlattenOne(g: seq<Segment>)
    ensures Flatten([g]) == g
  {
    assert [g][1..] == [];
    assert g + [] == g;
  }

  lemma FlattenCons(g: seq<Segment>, groups: seq<seq<Segment>>)
    ensures Flatten([g] + groups) == g + Flatten(groups)
  {
    assert ([g] + groups)[1..] == groups;
  }

  /** The narration of `n + 1` paragraphs from the `i`-th is the `i`-th's plus the rest. */
  lemma SumAudioCons(ps: seq<Paragraph>, i: nat, n: nat)
    requires i + n < |ps|
    ensures SumAudio(ps[i..i + n + 1]) == ps[i].audioLength + SumAudio(ps[i + 1..i + 1 + n])
  {
    var t := ps[i..i + n + 1];
    assert t[0] == ps[i];
    assert t[1..] == ps[i + 1..i + 1 + n];
  }

  // ---------------------------------------------------------------------------
  // calculate_video_length

  /** The target length: the narration lengths added up in a loop. */
  method CalculateVideoLength(audioLengths: seq<real>) returns (total: real)
    ensures total == Sum(audioLengths)
    ensures audioLengths == [] ==> total == 0.0
  {
    total := 0.0;
    var i := 0;
    while i < |audioLengths|
      invariant 0 <= i <= |audioLengths|
      invariant total == Sum(audioLengths[..i])
    {
      assert audioLengths[..i + 1][..i] == audioLengths[..i];
      total := total + audioLengths[i];
      i := i + 1;
    }
    assert audioLengths[..i] == audioLengths;
  }

  lemma {:induction false} SumNonNegative(s: seq<real>)
    requires forall k :: 0 <= k < |s| ==> 0.0 <= s[k]
    ensures 0.0 <= Sum(s)
    decreases |s|
  {
    if s != [] {
      SumNonNegative(s[..|s| - 1]);
    }
  }

  // ---------------------------------------------------------------------------
  // File kinds

  /** Index of the last occurrence of `c` in `s`, or -1. */
  function LastIndex(s: string, c: char): (i: int)
    ensures -1 <= i < |s|
    decreases |s|
  {
    if s == [] then -1
    else if s[|s| - 1] == c then |s| - 1
    else LastIndex(s[..|s| - 1], c)
  }

  /** `LastIndex` finds the last occurrence of `c`, or -1 when there is none. */
  lemma {:induction false} LastIndexIsLast(s: string, c: char)
    ensures var i := LastIndex(s, c);
            && (0 <= i ==> s[i] == c)
            && (forall k :: i < k < |s| ==> s[k] != c)
    decreases |s|
  {
    if s != [] && s[|s| - 1] != c {
      var t := s[..|s| - 1];
      LastIndexIsLast(t, c);
      assert forall k :: 0 <= k < |t| ==> t[k] == s[k];
    }
  }

  /**
   * `os.path.splitext(path)[1]` on POSIX, as the library computes it: the text from the
   * last '.' when that dot lies after the last '/' and some character between the two
   * is not a dot; otherwise the empty string.
   */
  function SplitExt(path: string): string
  {
    var sep := LastIndex(path, '/');
    var dot := LastIndex(path, '.');
    if sep < dot && HasNonDot(path, sep + 1, dot) then path[dot..] else ""
  }

  /** Some character of `path[lo..hi]` is not a dot. */
  predicate HasNonDot(path: string, lo: int, hi: int)
    requires 0 <= lo <= hi <= |path|
  {
    exists k :: lo <= k < hi && path[k] != '.'
  }

  /** The last path component of `s` (the text after its last '/') holds a character other than '.'. */
  predicate ComponentHasNonDot(s: string)
    decreases |s|
  {
    && s != []
    && s[|s| - 1] != '/'
    && (s[|s| - 1] != '.' || ComponentHasNonDot(s[..|s| - 1]))
  }

  /**
   * The extension of `path`, read off character by character from the end: a final '/'
   * leaves no extension, a final '.' is the whole extension when its component has a
   * non-dot before it, and any other character extends the extension of what precedes it.
   */
  function Extension(path: string): string
    decreases |path|
  {
    if path == [] then ""
    else
      var c, init := path[|path| - 1], path[..|path| - 1];
      if c == '/' then ""
      else if c == '.' then (if ComponentHasNonDot(init) then "." else "")
      else
        var e := Extension(init);
        if e == "" then "" else e + [c]
  }

  /** Dropping the last character of `path` keeps `LastIndex` unless that character is the one sought. */
  lemma LastIndexInit(path: string, c: char)
    requires path != []
    ensures LastIndex(path, c) == if path[|path| - 1] == c then |path| - 1 else LastIndex(path[..|path| - 1], c)
  {
  }

  /** A suffix of `path` is the same suffix of all but its last character, followed by that character. */
  lemma SuffixOfInit(path: string, i: int)
    requires 0 <= i < |path|
    ensures path[i..] == path[..|path| - 1][i..] + [path[|path| - 1]]
  {
    var n := |path|;
    assert forall k :: 0 <= k < n - i ==> path[i..][k] == (path[..n - 1][i..] + [path[n - 1]])[k];
  }

  /** Whether a range holds a non-dot does not depend on characters outside it. */
  lemma HasNonDotInit(path: string, lo: int, hi: int)
    requires path != [] && 0 <= lo <= hi <= |path| - 1
    ensures HasNonDot(path, lo, hi) <==> HasNonDot(path[..|path| - 1], lo, hi)
  {
    var init := path[..|path| - 1];
    if HasNonDot(path, lo, hi) {
      var k :| lo <= k < hi && path[k] != '.';
      assert init[k] == path[k];
    }
    if HasNonDot(init, lo, hi) {
      var k :| lo <= k < hi && init[k] != '.';
      assert init[k] == path[k];
    }
  }

  /** `ComponentHasNonDot` looks exactly at the text after the last '/'. */
  lemma {:induction false} ComponentHasNonDotSpec(s: string)
    ensures ComponentHasNonDot(s) <==> HasNonDot(s, LastIndex(s, '/') + 1, |s|)
    decreases |s|
  {
    if s != [] {
      var c, init := s[|s| - 1], s[..|s| - 1];
      LastIndexInit(s, '/');
      if c == '.' {
        var l := LastIndex(init, '/');
        ComponentHasNonDotSpec(init);
        HasNonDotInit(s, l + 1, |s| - 1);
        if HasNonDot(s, l + 1, |s|) {
          var k :| l + 1 <= k < |s| && s[k] != '.';
          assert k < |s| - 1;
        }
      } else if c != '/' {
        assert s[|s| - 1] != '.';
      }
    }
  }

  /** The character-by-character extension is the one `os.path.splitext` computes. */
  lemma {:induction false} ExtensionIsSplitExt(path: string)
    ensures Extension(path) == SplitExt(path)
    decreases |path|
  {
    if path != [] {
      var c := path[|path| - 1];
      if c == '.' {
        ExtensionEndsInDot(path);
      } else if c != '/' {
        ExtensionIsSplitExt(path[..|path| - 1]);
        ExtensionEndsInOther(path);
      } else {
        LastIndexInit(path, '/');
      }
    }
  }

  /** A path ending in '.' has the extension "." exactly when `splitext` says so. */
  lemma ExtensionEndsInDot(path: string)
    requires path != [] && path[|path| - 1] == '.'
    ensures Extension(path) == SplitExt(path)
  {
    var n := |path|;
    var init := path[..n - 1];
    LastIndexInit(path, '/');
    LastIndexInit(path, '.');
    ComponentHasNonDotSpec(init);
    HasNonDotInit(path, LastIndex(init, '/') + 1, n - 1);
    assert path[n - 1..] == ".";
  }

  /** A final character other than '.' and '/' extends the extension `splitext` finds before it. */
  lemma ExtensionEndsInOther(path: string)
    requires path != [] && path[|path| - 1] != '.' && path[|path| - 1] != '/'
    requires Extension(path[..|path| - 1]) == SplitExt(path[..|path| - 1])
    ensures Extension(path) == SplitExt(path)
  {
    var n := |path|;
    var c, init := path[n - 1], path[..n - 1];
    LastIndexInit(path, '/');
    LastIndexInit(path, '.');
    var sep, dot := LastIndex(init, '/'), LastIndex(init, '.');
    var e := SplitExt(init);
    assert Extension(path) == if e == "" then "" else e + [c];
    if sep < dot {
      HasNonDotInit(path, sep + 1, dot);
    }
    if sep < dot && HasNonDot(init, sep + 1, dot) {
      LastIndexIsLast(init, '.');
      assert e == init[dot..] && e[0] == '.';
      SuffixOfInit(path, dot);
    } else {
      assert e == "";
    }
  }

  function KindOf(path: string): Kind
  {
    if Extension(path) == ".jpg" then Image else Video
  }

  /** The shortest duration drawn for a segment of kind `k`. */
  function MinLength(k: Kind): real
  {
    match k
    case Image => MinStockImageLength
    case Video => MinStockVideoLength
  }

  // ---------------------------------------------------------------------------
  // One paragraph

  predicate UnitInterval(us: seq<real>)
  {
    forall k :: 0 <= k < |us| ==> 0.0 <= us[k] <= 1.0
  }

  /** `random.uniform(a, b)` for the draw `u`: a point between `a` and `b`, in either order. */
  function Uniform(a: real, b: real, u: real): (r: real)
    requires 0.0 <= u <= 1.0
    ensures Between(r, a, b)
    ensures u == 0.0 ==> r == a
    ensures u == 1.0 ==> r == b
  {
    UniformBetween(a, b, u);
    a + (b - a) * u
  }

  lemma UniformBetween(a: real, b: real, u: real)
    requires 0.0 <= u <= 1.0
    ensures Between(a + (b - a) * u, a, b)
  {
    if a <= b {
      UniformUp(a, b, u);
    } else {
      UniformDown(a, b, u);
    }
  }

  lemma UniformUp(a: real, b: real, u: real)
    requires a <= b && 0.0 <= u <= 1.0
    ensures a <= a + (b - a) * u <= b
  {
    MulNonNegative(b - a, u);
    MulAtMostOne(b - a, u);
  }

  lemma UniformDown(a: real, b: real, u: real)
    requires b < a && 0.0 <= u <= 1.0
    ensures b <= a + (b - a) * u <= a
  {
    MulNonNegative(a - b, u);
    MulAtMostOne(a - b, u);
    assert (b - a) * u == -((a - b) * u);
  }

  lemma MulNonNegative(x: real, y: real)
    requires 0.0 <= x && 0.0 <= y
    ensures 0.0 <= x * y
  {
  }

  lemma MulAtMostOne(x: real, y: real)
    requires 0.0 <= x && y <= 1.0
    ensures x * y <= x
  {
    MulNonNegative(x, 1.0 - y);
    assert x * (1.0 - y) == x - x * y;
  }

  function Pool(p: Paragraph): seq<string>
  {
    p.images + p.videos
  }

  /** `min(len(assets), max_paragraphs)`. */
  function MaxAssets(p: Paragraph): (n: nat)
    ensures n <= |Pool(p)| && n <= MaxParagraphs
    ensures n == |Pool(p)| || n == MaxParagraphs
  {
    if |Pool(p)| < MaxParagraphs then |Pool(p)| else MaxParagraphs
  }

  /**
   * The per-asset cap of one paragraph: `min_stock_image_length` when at most one asset
   * is selected, otherwise the available duration split evenly, but never above
   * `max_stock_image_length`.
   */
  function PerAssetCap(remaining: real, audioLength: real, maxAssets: nat): (cap: real)
    ensures cap <= MaxStockImageLength
    ensures maxAssets <= 1 ==> cap == MinStockImageLength
    ensures 0.0 <= remaining && 0.0 <= audioLength ==> 0.0 <= cap
  {
    if 1 < maxAssets then Min(Min(remaining, audioLength) / maxAssets as real, MaxStockImageLength)
    else MinStockImageLength
  }

  /**
   * With several assets, the caps of all selected assets together fit the available
   * duration `min(remaining, audio_length)`, unless the cap is `max_stock_image_length`.
   */
  lemma PerAssetCapSplitsAvailable(remaining: real, audioLength: real, maxAssets: nat)
    requires 1 < maxAssets
    ensures var cap := PerAssetCap(remaining, audioLength, maxAssets);
            && cap * maxAssets as real <= Min(remaining, audioLength)
            && (cap < MaxStockImageLength ==> cap * maxAssets as real == Min(remaining, audioLength))
  {
    var n := maxAssets as real;
    var available := Min(remaining, audioLength);
    var cap := PerAssetCap(remaining, audioLength, maxAssets);
    assert available / n * n == available;
    if cap < available / n {
      assert cap == MaxStockImageLength;
      assert cap * n <= available / n * n;
    }
  }

  /** `order` is a permutation of 0 .. n-1. */
  predicate IsPermutation(order: seq<nat>, n: nat)
  {
    && |order| == n
    && (forall i :: 0 <= i < n ==> order[i] < n)
    && (forall i, j :: 0 <= i < j < n ==> order[i] != order[j])
  }

  /** The random choices are well-formed for this paragraph. */
  predicate ValidDraw(p: Paragraph, d: Draw)
  {
    IsPermutation(d.order, |Pool(p)|) && MaxAssets(p) <= |d.uniforms| && UnitInterval(d.uniforms)
  }

  /** The pool after `random.shuffle`, for the supplied permutation. */
  function Shuffled(pool: seq<string>, order: seq<nat>): (r: seq<string>)
    requires IsPermutation(order, |pool|)
    ensures |r| == |pool| && forall i :: 0 <= i < |r| ==> r[i] == pool[order[i]]
  {
    seq(|pool|, i requires 0 <= i < |pool| => pool[order[i]])
  }

  /** `assets[:max_assets]` after the shuffle. */
  function Selected(p: Paragraph, d: Draw): (r: seq<string>)
    requires ValidDraw(p, d)
    ensures |r| == MaxAssets(p)
  {
    Shuffled(Pool(p), d.order)[..MaxAssets(p)]
  }

  function NoDuplicates(s: seq<string>): bool
  {
    forall i, j :: 0 <= i < j < |s| ==> s[i] != s[j]
  }

  /** The selection holds distinct files of the paragraph's own pool. */
  lemma SelectedFromPool(p: Paragraph, d: Draw)
    requires ValidDraw(p, d)
    ensures forall i :: 0 <= i < |Selected(p, d)| ==> Selected(p, d)[i] in Pool(p)
    ensures NoDuplicates(Pool(p)) ==> NoDuplicates(Selected(p, d))
  {
    var sel, pool := Selected(p, d), Pool(p);
    if NoDuplicates(pool) {
      forall i, j | 0 <= i < j < |sel| ensures sel[i] != sel[j] {
        assert sel[i] == pool[d.order[i]] && sel[j] == pool[d.order[j]];
      }
    }
  }


  /** One row of the table: an image or a video, with its duration drawn up to `cap`. */
  function MakeSegment(path: string, cap: real, u: real): Segment
    requires 0.0 <= u <= 1.0
  {
    var kind := KindOf(path);
    Segment(path, Uniform(MinLength(kind), cap, u), kind)
  }

  /** A row made for `path` is tagged by its extension and lasts between the kind's minimum and the cap. */
  lemma MakeSegmentFor(path: string, cap: real, u: real)
    requires 0.0 <= u <= 1.0
    ensures SegmentFor(MakeSegment(path, cap, u), path, cap)
  {
  }

  /**
   * `s` is a row for `path` under the cap `cap`: tagged "image" exactly when the path's
   * extension is ".jpg", with a duration between the kind's minimum and the cap.
   */
  predicate SegmentFor(s: Segment, path: string, cap: real)
  {
    && s.path == path
    && (s.kind == Image <==> Extension(path) == ".jpg")
    && Between(s.duration, MinLength(s.kind), cap)
  }

  /**
   * The inner loop from the `j`-th selected asset on: each placement subtracts its
   * duration from the budget, and the loop stops right after the placement that leaves
   * the budget `<= 0`.
   */
  function PlaceFrom(selected: seq<string>, cap: real, us: seq<real>, j: nat, remaining: real): (r: Placement)
    requires j <= |selected| <= |us| && UnitInterval(us)
    ensures |r.segments| <= |selected| - j
    decreases |selected| - j
  {
    if j == |selected| then Placement([], remaining)
    else
      var s := MakeSegment(selected[j], cap, us[j]);
      var left := remaining - s.duration;
      if left <= 0.0 then Placement([s], left)
      else
        var rest := PlaceFrom(selected, cap, us, j + 1, left);
        Placement([s] + rest.segments, rest.remaining)
  }

  /** What the inner loop places: the `m`-th row is for the `m`-th remaining selected asset, drawn under the cap. */
  lemma {:induction false} PlaceFromRow(selected: seq<string>, cap: real, us: seq<real>, j: nat, remaining: real, m: nat)
    requires j <= |selected| <= |us| && UnitInterval(us)
    requires m < |PlaceFrom(selected, cap, us, j, remaining).segments|
    ensures j + m < |selected|
    ensures SegmentFor(PlaceFrom(selected, cap, us, j, remaining).segments[m], selected[j + m], cap)
    decreases m
  {
    var r := PlaceFrom(selected, cap, us, j, remaining);
    var s := MakeSegment(selected[j], cap, us[j]);
    var left := remaining - s.duration;
    if m == 0 {
      MakeSegmentFor(selected[j], cap, us[j]);
      assert r.segments[0] == s;
    } else {
      assert 0.0 < left;
      var rest := PlaceFrom(selected, cap, us, j + 1, left);
      assert r.segments == [s] + rest.segments;
      PlaceFromRow(selected, cap, us, j + 1, left, m - 1);
      assert r.segments[m] == rest.segments[m - 1];
      assert j + m == (j + 1) + (m - 1);
    }
  }

  /** All rows of the inner loop at once. */
  lemma PlaceFromRows(selected: seq<string>, cap: real, us: seq<real>, j: nat, remaining: real)
    requires j <= |selected| <= |us| && UnitInterval(us)
    ensures var r := PlaceFrom(selected, cap, us, j, remaining);
            forall m :: 0 <= m < |r.segments| ==> SegmentFor(r.segments[m], selected[j + m], cap)
  {
    var r := PlaceFrom(selected, cap, us, j, remaining);
    forall m | 0 <= m < |r.segments| ensures SegmentFor(r.segments[m], selected[j + m], cap) {
      PlaceFromRow(selected, cap, us, j, remaining, m);
    }
  }

  /**
   * The budget drops by exactly the placed durations, and the inner loop stops short of
   * the selection only when the budget has reached zero or below.
   */
  lemma {:induction false} PlaceFromBudget(selected: seq<string>, cap: real, us: seq<real>, j: nat, remaining: real)
    requires j <= |selected| <= |us| && UnitInterval(us)
    ensures var r := PlaceFrom(selected, cap, us, j, remaining);
            && r.remaining == remaining - SumDurations(r.segments)
            && (|r.segments| < |selected| - j ==> r.remaining <= 0.0)
    decreases |selected| - j
  {
    if j < |selected| {
      var s := MakeSegment(selected[j], cap, us[j]);
      var left := remaining - s.duration;
      if 0.0 < left {
        var rest := PlaceFrom(selected, cap, us, j + 1, left);
        PlaceFromBudget(selected, cap, us, j + 1, left);
        assert ([s] + rest.segments)[1..] == rest.segments;
      }
    }
  }

  /** Every placement but the last leaves the budget above zero. */
  predicate BreaksAtOnce(segs: seq<Segment>, remaining: real)
  {
    forall m :: 0 < m < |segs| ==> remaining - SumDurations(segs[..m]) > 0.0
  }

  /** The inner loop breaks as soon as the budget reaches zero or below, and not before. */
  lemma {:induction false} PlaceFromBreaksAtOnce(selected: seq<string>, cap: real, us: seq<real>, j: nat, remaining: real)
    requires j <= |selected| <= |us| && UnitInterval(us)
    ensures BreaksAtOnce(PlaceFrom(selected, cap, us, j, remaining).segments, remaining)
    decreases |selected| - j
  {
    var r := PlaceFrom(selected, cap, us, j, remaining);
    if j < |selected| {
      var s := MakeSegment(selected[j], cap, us[j]);
      var left := remaining - s.duration;
      if 0.0 < left {
        var rest := PlaceFrom(selected, cap, us, j + 1, left);
        PlaceFromBreaksAtOnce(selected, cap, us, j + 1, left);
        assert r.segments == [s] + rest.segments;
        forall m | 0 < m < |r.segments|
          ensures remaining - SumDurations(r.segments[..m]) > 0.0
        {
          var tail := rest.segments[..m - 1];
          assert r.segments[..m] == [s] + tail;
          assert ([s] + tail)[1..] == tail;
          assert SumDurations(r.segments[..m]) == s.duration + SumDurations(tail);
          if m == 1 {
            assert tail == [];
          } else {
            assert 0 < m - 1 < |rest.segments|;
            assert left - SumDurations(tail) > 0.0;
          }
        }
      }
    }
  }

  /** The cap of a paragraph that starts with budget `remaining`. */
  function StepCap(p: Paragraph, remaining: real): real
  {
    PerAssetCap(remaining, p.audioLength, MaxAssets(p))
  }

  /** One iteration of the paragraph loop, ending with the subtraction of the narration length. */
  function ParagraphStep(p: Paragraph, d: Draw, remaining: real): (r: Placement)
    requires ValidDraw(p, d)
    ensures |r.segments| <= MaxAssets(p)
  {
    var placed := PlaceFrom(Selected(p, d), StepCap(p, remaining), d.uniforms, 0, remaining);
    Placement(placed.segments, placed.remaining - p.audioLength)
  }

  /**
   * One paragraph: its rows are its own shuffled selection, drawn under its cap; the
   * budget drops by their durations and then by the narration length; an empty pool
   * places nothing and still costs the narration length.
   */
  lemma ParagraphStepFacts(p: Paragraph, d: Draw, remaining: real)
    requires ValidDraw(p, d)
    ensures var r := ParagraphStep(p, d, remaining);
            && (forall m :: 0 <= m < |r.segments| ==> SegmentFor(r.segments[m], Selected(p, d)[m], StepCap(p, remaining)))
            && r.remaining == remaining - SumDurations(r.segments) - p.audioLength
            && (Pool(p) == [] ==> r.segments == [] && r.remaining == remaining - p.audioLength)
  {
    PlaceFromRows(Selected(p, d), StepCap(p, remaining), d.uniforms, 0, remaining);
    PlaceFromBudget(Selected(p, d), StepCap(p, remaining), d.uniforms, 0, remaining);
  }

  /** One paragraph spends its placed durations and then its narration length. */
  lemma ParagraphStepBudget(p: Paragraph, d: Draw, remaining: real)
    requires ValidDraw(p, d)
    ensures var r := ParagraphStep(p, d, remaining);
            r.remaining == remaining - SumDurations(r.segments) - p.audioLength
  {
    PlaceFromBudget(Selected(p, d), StepCap(p, remaining), d.uniforms, 0, remaining);
  }

  /** One paragraph's rows follow its shuffled selection. */
  lemma ParagraphStepPaths(p: Paragraph, d: Draw, remaining: real)
    requires ValidDraw(p, d)
    ensures var r := ParagraphStep(p, d, remaining);
            forall m :: 0 <= m < |r.segments| ==> r.segments[m].path == Selected(p, d)[m]
  {
    var placed := PlaceFrom(Selected(p, d), StepCap(p, remaining), d.uniforms, 0, remaining);
    assert ParagraphStep(p, d, remaining).segments == placed.segments;
    forall m | 0 <= m < |placed.segments| ensures placed.segments[m].path == Selected(p, d)[m] {
      PlaceFromRow(Selected(p, d), StepCap(p, remaining), d.uniforms, 0, remaining, m);
    }
  }

  // ---------------------------------------------------------------------------
  // All paragraphs

  predicate ValidDraws(ps: seq<Paragraph>, ds: seq<Draw>)
  {
    |ds| == |ps| && forall i :: 0 <= i < |ps| ==> ValidDraw(ps[i], ds[i])
  }

  /** The rows of group `g` are placed for the shuffled selection of `p`, in that order. */
  predicate GroupFor(g: seq<Segment>, p: Paragraph, d: Draw)
    requires ValidDraw(p, d)
  {
    |g| <= MaxAssets(p) && forall m :: 0 <= m < |g| ==> g[m].path == Selected(p, d)[m]
  }

  /**
   * The paragraph loop from the `i`-th paragraph on: each paragraph gets its step, and
   * the loop stops after the first paragraph that leaves the budget `<= 0`.
   */
  function ComposeFrom(ps: seq<Paragraph>, ds: seq<Draw>, i: nat, remaining: real): (r: Composition)
    requires ValidDraws(ps, ds) && i <= |ps|
    ensures |r.groups| <= |ps| - i
    decreases |ps| - i
  {
    if i == |ps| then Composition([], remaining)
    else
      var st := ParagraphStep(ps[i], ds[i], remaining);
      if st.remaining <= 0.0 then Composition([st.segments], st.remaining)
      else
        var rest := ComposeFrom(ps, ds, i + 1, st.remaining);
        Composition([st.segments] + rest.groups, rest.remaining)
  }

  /** The segment groups of one run of `create_video_segments`, with the budget left. */
  function Compose(ps: seq<Paragraph>, ds: seq<Draw>, total: real): Composition
    requires ValidDraws(ps, ds)
  {
    ComposeFrom(ps, ds, 0, total)
  }

  /**
   * How the paragraph loop ends: one group per processed paragraph, at least one when
   * any paragraph is left, and fewer groups than paragraphs only when the budget has
   * reached zero or below.
   */
  lemma {:induction false} ComposeFromStops(ps: seq<Paragraph>, ds: seq<Draw>, i: nat, remaining: real)
    requires ValidDraws(ps, ds) && i <= |ps|
    ensures var r := ComposeFrom(ps, ds, i, remaining);
            && (i < |ps| ==> 1 <= |r.groups|)
            && (|r.groups| < |ps| - i ==> r.remaining <= 0.0)
    decreases |ps| - i
  {
    if i < |ps| {
      var st := ParagraphStep(ps[i], ds[i], remaining);
      if 0.0 < st.remaining {
        ComposeFromStops(ps, ds, i + 1, st.remaining);
      }
    }
  }

  /**
   * The budget left from `start` after the paragraphs from the `i`-th on have placed `groups`:
   * every placed duration and the narration of every paragraph that got a group are spent.
   */
  function BudgetAfter(ps: seq<Paragraph>, i: nat, start: real, groups: seq<seq<Segment>>): real
    requires i + |groups| <= |ps|
  {
    start - SumDurations(Flatten(groups)) - SumAudio(ps[i..i + |groups|])
  }

  /** The budget `start` left `r.remaining` after the groups of `r`. */
  predicate Spent(ps: seq<Paragraph>, i: nat, start: real, r: Composition)
  {
    i + |r.groups| <= |ps| && r.remaining == BudgetAfter(ps, i, start, r.groups)
  }

  /**
   * What the paragraph loop spends: the budget left is the start minus every placed
   * duration minus the narration of every processed paragraph.
   */
  lemma {:induction false} ComposeFromBudget(ps: seq<Paragraph>, ds: seq<Draw>, i: nat, remaining: real)
    requires ValidDraws(ps, ds) && i <= |ps|
    ensures Spent(ps, i, remaining, ComposeFrom(ps, ds, i, remaining))
    decreases |ps| - i
  {
    var r := ComposeFrom(ps, ds, i, remaining);
    if i < |ps| {
      var st := ParagraphStep(ps[i], ds[i], remaining);
      ParagraphStepBudget(ps[i], ds[i], remaining);
      if st.remaining <= 0.0 {
        assert r == Composition([st.segments], st.remaining);
        BudgetOne(ps, i, remaining, st, r);
      } else {
        var rest := ComposeFrom(ps, ds, i + 1, st.remaining);
        ComposeFromBudget(ps, ds, i + 1, st.remaining);
        assert r == Composition([st.segments] + rest.groups, rest.remaining);
        BudgetCons(ps, i, remaining, st, rest, r);
      }
    } else {
      assert ps[i..i] == [];
    }
  }

  /** The budget is still above zero after the paragraphs from the `i`-th on have placed `groups`. */
  predicate Solvent(ps: seq<Paragraph>, i: nat, start: real, groups: seq<seq<Segment>>)
  {
    i + |groups| <= |ps| && 0.0 < BudgetAfter(ps, i, start, groups)
  }

  /**
   * The paragraph loop stops after the first paragraph that leaves the budget `<= 0`: every
   * paragraph before the last one processed left it above zero.
   */
  lemma {:induction false} ComposeFromBreaksAtOnce(ps: seq<Paragraph>, ds: seq<Draw>, i: nat, remaining: real, k: nat)
    requires ValidDraws(ps, ds) && i <= |ps|
    requires k + 1 < |ComposeFrom(ps, ds, i, remaining).groups|
    ensures Solvent(ps, i, remaining, ComposeFrom(ps, ds, i, remaining).groups[..k + 1])
    decreases k
  {
    var r := ComposeFrom(ps, ds, i, remaining);
    var st := ParagraphStep(ps[i], ds[i], remaining);
    ParagraphStepBudget(ps[i], ds[i], remaining);
    assert 0.0 < st.remaining;
    var rest := ComposeFrom(ps, ds, i + 1, st.remaining);
    assert r.groups == [st.segments] + rest.groups;
    var front := rest.groups[..k];
    assert r.groups[..k + 1] == [st.segments] + front;
    if k == 0 {
      BudgetAfterNone(ps, i + 1, st.remaining);
    } else {
      ComposeFromBreaksAtOnce(ps, ds, i + 1, st.remaining, k - 1);
    }
    BudgetAfterCons(ps, i, remaining, st.segments, front, st.remaining);
  }

  /** Nothing placed, nothing spent. */
  lemma BudgetAfterNone(ps: seq<Paragraph>, i: nat, start: real)
    requires i <= |ps|
    ensures BudgetAfter(ps, i, start, []) == start
  {
    assert Flatten([]) == [] && ps[i..i] == [];
  }

  /** The budget equation for the last group, that of paragraph `i`. */
  lemma BudgetOne(ps: seq<Paragraph>, i: nat, remaining: real, st: Placement, r: Composition)
    requires i < |ps| && r == Composition([st.segments], st.remaining)
    requires st.remaining == remaining - SumDurations(st.segments) - ps[i].audioLength
    ensures Spent(ps, i, remaining, r)
  {
    FlattenOne(st.segments);
    SumAudioCons(ps, i, 0);
  }

  /** The budget equation for the groups after paragraph `i` extends to the group of paragraph `i`. */
  lemma BudgetCons(ps: seq<Paragraph>, i: nat, remaining: real, st: Placement, rest: Composition, r: Composition)
    requires i < |ps| && r == Composition([st.segments] + rest.groups, rest.remaining)
    requires st.remaining == remaining - SumDurations(st.segments) - ps[i].audioLength
    requires Spent(ps, i + 1, st.remaining, rest)
    ensures Spent(ps, i, remaining, r)
  {
    BudgetAfterCons(ps, i, remaining, st.segments, rest.groups, st.remaining);
  }

  /** Spending the group of paragraph `i` first leaves the budget `left` the later groups start from. */
  lemma BudgetAfterCons(ps: seq<Paragraph>, i: nat, start: real, g: seq<Segment>, gs: seq<seq<Segment>>, left: real)
    requires i + 1 + |gs| <= |ps|
    requires left == start - SumDurations(g) - ps[i].audioLength
    ensures BudgetAfter(ps, i, start, [g] + gs) == BudgetAfter(ps, i + 1, left, gs)
  {
    var n := |gs|;
    FlattenCons(g, gs);
    SumDurationsAppend(g, Flatten(gs));
    SumAudioCons(ps, i, n);
    assert i + |[g] + gs| == i + n + 1;
    BudgetAdds(start, SumDurations(g), ps[i].audioLength, left,
               SumDurations(Flatten(gs)), SumAudio(ps[i + 1..i + 1 + n]), BudgetAfter(ps, i + 1, left, gs));
  }

  /** Spending `d1 + a` and then `d2 + s` spends the two sums. */
  lemma BudgetAdds(remaining: real, d1: real, a: real, left: real, d2: real, s: real, final: real)
    requires left == remaining - d1 - a
    requires final == left - d2 - s
    ensures final == remaining - (d1 + d2) - (a + s)
  {
  }

  /** The `k`-th group holds rows for paragraph `i + k`'s own shuffled selection, in that order. */
  lemma {:induction false} ComposeFromGroup(ps: seq<Paragraph>, ds: seq<Draw>, i: nat, remaining: real, k: nat)
    requires ValidDraws(ps, ds) && i <= |ps|
    requires k < |ComposeFrom(ps, ds, i, remaining).groups|
    ensures i + k < |ps|
    ensures GroupFor(ComposeFrom(ps, ds, i, remaining).groups[k], ps[i + k], ds[i + k])
    decreases k
  {
    var r := ComposeFrom(ps, ds, i, remaining);
    var st := ParagraphStep(ps[i], ds[i], remaining);
    if k == 0 {
      ParagraphStepPaths(ps[i], ds[i], remaining);
      assert r.groups[0] == st.segments;
      assert GroupFor(st.segments, ps[i], ds[i]);
    } else {
      assert 0.0 < st.remaining;
      var rest := ComposeFrom(ps, ds, i + 1, st.remaining);
      assert r.groups == [st.segments] + rest.groups;
      ComposeFromGroup(ps, ds, i + 1, st.remaining, k - 1);
      assert GroupFor(ComposeFrom(ps, ds, i + 1, st.remaining).groups[k - 1], ps[(i + 1) + (k - 1)], ds[(i + 1) + (k - 1)]);
    }
  }

  /** The segment table that `create_video_segments` returns for these random choices. */
  function Timeline(ps: seq<Paragraph>, ds: seq<Draw>, total: real): seq<Segment>
    requires ValidDraws(ps, ds)
  {
    Flatten(Compose(ps, ds, total).groups)
  }

  /** The inner loop's invariant: the rows placed so far, then the rest of the loop, make the whole. */
  predicate PlacedSoFar(selected: seq<string>, cap: real, us: seq<real>, start: real,
                        placed: seq<Segment>, j: nat, remaining: real)
    requires j <= |selected| <= |us| && UnitInterval(us)
  {
    var rest := PlaceFrom(selected, cap, us, j, remaining);
    PlaceFrom(selected, cap, us, 0, start) == Placement(placed + rest.segments, rest.remaining)
  }

  /** One turn of the inner loop keeps its invariant, or ends the loop with the whole placement. */
  lemma PlacedOneMore(selected: seq<string>, cap: real, us: seq<real>, start: real,
                      placed: seq<Segment>, j: nat, remaining: real)
    requires j < |selected| <= |us| && UnitInterval(us)
    requires PlacedSoFar(selected, cap, us, start, placed, j, remaining)
    ensures var s := MakeSegment(selected[j], cap, us[j]);
            var left := remaining - s.duration;
            if left <= 0.0 then PlaceFrom(selected, cap, us, 0, start) == Placement(placed + [s], left)
            else PlacedSoFar(selected, cap, us, start, placed + [s], j + 1, left)
  {
    var s := MakeSegment(selected[j], cap, us[j]);
    var left := remaining - s.duration;
    var here := PlaceFrom(selected, cap, us, j, remaining);
    if 0.0 < left {
      var next := PlaceFrom(selected, cap, us, j + 1, left);
      assert here == Placement([s] + next.segments, next.remaining);
      assert placed + [s] + next.segments == placed + ([s] + next.segments);
    } else {
      assert here == Placement([s], left);
    }
  }

  /**
   * The row the inner loop appends for one asset: an image row drawn from
   * `min_stock_image_length` when the extension is ".jpg", a video row drawn from
   * `min_stock_video_length` otherwise.
   */
  method DrawSegment(path: string, cap: real, u: real) returns (segment: Segment)
    requires 0.0 <= u <= 1.0
    ensures segment == MakeSegment(path, cap, u)
  {
    if Extension(path) == ".jpg" {
      segment := Segment(path, Uniform(MinStockImageLength, cap, u), Image);
    } else {
      segment := Segment(path, Uniform(MinStockVideoLength, cap, u), Video);
    }
  }

  /** The inner `for asset_path in selected_assets` loop of `create_video_segments`. */
  method PlaceSelected(selected: seq<string>, cap: real, us: seq<real>, start: real)
    returns (placed: seq<Segment>, remaining: real)
    requires |selected| <= |us| && UnitInterval(us)
    ensures PlaceFrom(selected, cap, us, 0, start) == Placement(placed, remaining)
  {
    placed, remaining := [], start;
    var j := 0;
    assert [] + PlaceFrom(selected, cap, us, 0, start).segments == PlaceFrom(selected, cap, us, 0, start).segments;
    while j < |selected|
      invariant 0 <= j <= |selected|
      invariant PlacedSoFar(selected, cap, us, start, placed, j, remaining)
    {
      var segment := DrawSegment(selected[j], cap, us[j]);
      PlacedOneMore(selected, cap, us, start, placed, j, remaining);
      placed := placed + [segment];
      remaining := remaining - segment.duration;
      j := j + 1;
      if remaining <= 0.0 {
        break;
      }
    }
    if j == |selected| {
      assert placed + [] == placed;
    }
  }

  // ---------------------------------------------------------------------------
  // Segment durations

  /** Every row of `segs` lasts between `lo` and `hi` seconds. */
  predicate DurationsWithin(segs: seq<Segment>, lo: real, hi: real)
  {
    forall m :: 0 <= m < |segs| ==> lo <= segs[m].duration <= hi
  }

  lemma DurationsWithinAppend(a: seq<Segment>, b: seq<Segment>, lo: real, hi: real)
    requires DurationsWithin(a, lo, hi) && DurationsWithin(b, lo, hi)
    ensures DurationsWithin(a + b, lo, hi)
  {
    forall m | 0 <= m < |a + b| ensures lo <= (a + b)[m].duration <= hi {
      if m >= |a| {
        assert (a + b)[m] == b[m - |a|];
      }
    }
  }

  /** The narration of every paragraph has a non-negative length. */
  predicate NonNegativeAudio(ps: seq<Paragraph>)
  {
    forall k :: 0 <= k < |ps| ==> 0.0 <= ps[k].audioLength
  }

  /**
   * A paragraph that starts with a non-negative budget draws every row for at most
   * `max_stock_image_length` seconds and never for a negative time: the cap is at most
   * that constant and both minimums lie above it or below it.
   */
  lemma ParagraphStepDurations(p: Paragraph, d: Draw, remaining: real)
    requires ValidDraw(p, d) && 0.0 <= remaining && 0.0 <= p.audioLength
    ensures DurationsWithin(ParagraphStep(p, d, remaining).segments, 0.0, MaxStockImageLength)
  {
    var cap := StepCap(p, remaining);
    assert 0.0 <= cap <= MaxStockImageLength;
    var placed := PlaceFrom(Selected(p, d), cap, d.uniforms, 0, remaining);
    assert ParagraphStep(p, d, remaining).segments == placed.segments;
    forall m | 0 <= m < |placed.segments|
      ensures 0.0 <= placed.segments[m].duration <= MaxStockImageLength
    {
      PlaceFromRow(Selected(p, d), cap, d.uniforms, 0, remaining, m);
      var s := placed.segments[m];
      assert Between(s.duration, MinLength(s.kind), cap);
      assert MinStockImageLength <= MinLength(s.kind) <= MinStockVideoLength;
    }
  }

  /**
   * With a non-negative starting budget and non-negative narration lengths, every row of
   * the table lasts between zero and `max_stock_image_length` seconds. (The loop only goes
   * on to a paragraph while the budget is above zero.)
   */
  lemma {:induction false} ComposeFromDurations(ps: seq<Paragraph>, ds: seq<Draw>, i: nat, remaining: real)
    requires ValidDraws(ps, ds) && i <= |ps| && NonNegativeAudio(ps) && 0.0 <= remaining
    ensures DurationsWithin(Flatten(ComposeFrom(ps, ds, i, remaining).groups), 0.0, MaxStockImageLength)
    decreases |ps| - i
  {
    var r := ComposeFrom(ps, ds, i, remaining);
    if i < |ps| {
      var st := ParagraphStep(ps[i], ds[i], remaining);
      ParagraphStepDurations(ps[i], ds[i], remaining);
      if st.remaining <= 0.0 {
        assert r.groups == [st.segments];
        FlattenOne(st.segments);
      } else {
        var rest := ComposeFrom(ps, ds, i + 1, st.remaining);
        ComposeFromDurations(ps, ds, i + 1, st.remaining);
        assert r.groups == [st.segments] + rest.groups;
        FlattenCons(st.segments, rest.groups);
        DurationsWithinAppend(st.segments, Flatten(rest.groups), 0.0, MaxStockImageLength);
      }
    }
  }

  /**
   * Every row of the table lasts at most `max_stock_image_length` seconds, videos included,
   * and none lasts a negative time, when the budget is the non-negative narration total.
   */
  lemma TimelineDurations(ps: seq<Paragraph>, ds: seq<Draw>, total: real)
    requires ValidDraws(ps, ds) && NonNegativeAudio(ps) && 0.0 <= total
    ensures DurationsWithin(Timeline(ps, ds, total), 0.0, MaxStockImageLength)
  {
    ComposeFromDurations(ps, ds, 0, total);
  }

  /** The paragraph loop's invariant: the rows emitted so far, then the rest of the loop, make the table. */
  predicate ComposedSoFar(ps: seq<Paragraph>, ds: seq<Draw>, total: real,
                          segments: seq<Segment>, i: nat, remaining: real)
    requires ValidDraws(ps, ds) && i <= |ps|
  {
    Timeline(ps, ds, total) == segments + Flatten(ComposeFrom(ps, ds, i, remaining).groups)
  }

  /**
   * One turn of the paragraph loop, which emitted `placed` and left the budget at `left`,
   * keeps the loop's invariant, or ends the loop with the whole table.
   */
  lemma ComposedOneMore(ps: seq<Paragraph>, ds: seq<Draw>, total: real,
                        segments: seq<Segment>, i: nat, remaining: real, placed: seq<Segment>, left: real)
    requires ValidDraws(ps, ds) && i < |ps|
    requires ComposedSoFar(ps, ds, total, segments, i, remaining)
    requires ParagraphStep(ps[i], ds[i], remaining) == Placement(placed, left)
    ensures if left <= 0.0 then Timeline(ps, ds, total) == segments + placed
            else ComposedSoFar(ps, ds, total, segments + placed, i + 1, left)
  {
    var here := ComposeFrom(ps, ds, i, remaining);
    if left <= 0.0 {
      assert here.groups == [placed];
      FlattenOne(placed);
    } else {
      var rest := ComposeFrom(ps, ds, i + 1, left);
      assert here.groups == [placed] + rest.groups;
      FlattenCons(placed, rest.groups);
      assert segments + (placed + Flatten(rest.groups)) == segments + placed + Flatten(rest.groups);
    }
  }

  /**
   * The body of the paragraph loop of `create_video_segments`, up to the subtraction of the
   * narration length: the pool, its size cap, the per-asset cap, the shuffle, the selection
   * and the inner loop.
   */
  method PlaceParagraph(p: Paragraph, d: Draw, remaining: real) returns (placed: seq<Segment>, left: real)
    requires ValidDraw(p, d)
    ensures ParagraphStep(p, d, remaining) == Placement(placed, left)
  {
    var assets := p.images + p.videos;
    var maxAssets := if |assets| < MaxParagraphs then |assets| else MaxParagraphs;
    var cap := PerAssetCap(remaining, p.audioLength, maxAssets);
    assets := Shuffled(assets, d.order);
    var selected := assets[..maxAssets];
    assert selected == Selected(p, d);
    placed, left := PlaceSelected(selected, cap, d.uniforms, remaining);
    left := left - p.audioLength;
  }

  /**
   * `create_video_segments`: the nested loops with their two `break`s, over the
   * paragraph listing and the random choices, starting the budget at `totalVideoLength`.
   */
  method CreateVideoSegments(paragraphs: seq<Paragraph>, totalVideoLength: real, draws: seq<Draw>)
    returns (segments: seq<Segment>)
    requires ValidDraws(paragraphs, draws)
    ensures segments == Timeline(paragraphs, draws, totalVideoLength)
  {
    segments := [];
    var remaining := totalVideoLength;
    var i := 0;
    assert [] + Timeline(paragraphs, draws, totalVideoLength) == Timeline(paragraphs, draws, totalVideoLength);
    while i < |paragraphs|
      invariant 0 <= i <= |paragraphs|
      invariant ComposedSoFar(paragraphs, draws, totalVideoLength, segments, i, remaining)
    {
      var placed, left := PlaceParagraph(paragraphs[i], draws[i], remaining);
      ComposedOneMore(paragraphs, draws, totalVideoLength, segments, i, remaining, placed, left);
      segments := segments + placed;
      remaining := left;
      if remaining <= 0.0 {
        break;
      }
      i := i + 1;
    }
    if i == |paragraphs| {
      assert segments + [] == segments;
    }
  }
}
