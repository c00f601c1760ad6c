/**
 * The stock-asset step of `assets_gen.py`: how many images and videos a part asks for, the
 * Pexels search URLs, and where the downloads are saved (`get_stock_images`,
 * `get_stock_videos`, `get_part_stock_assets`, `get_stock_assets`).
 */
module StockAssets {
  import opened Common
  import opened Settings
  import opened FileSystem
  import opened AssetSetup
  import opened ScriptGen
  import opened Narration
  import Compositor

  /** Python's `int(x)` on a float: truncation toward zero. */
  function Trunc(x: real): (t: int)
    ensures 0.0 <= x ==> 0 <= t && t as real <= x < t as real + 1.0
    ensures x < 0.0 ==> t <= 0 && t as real - 1.0 < x <= t as real
  {
    if 0.0 <= x then x.Floor else -((-x).Floor)
  }

  /** `int(part_len / min_stock_image_length)`: the number of images a part asks for. */
  function ImageCount(partLen: real): int
  {
    Trunc(partLen / MinStockImageLength)
  }

  /** `int(part_len / min_stock_video_length)`: the number of videos a part asks for. */
  function VideoCount(partLen: real): int
  {
    Trunc(partLen / MinStockVideoLength)
  }

  /**
   * For a part of non-negative length the counts are the whole number of minimum-length slots
   * that fit, and a part never asks for more videos than images.
   */
  lemma CountsFit(partLen: real)
    requires 0.0 <= partLen
    ensures 0 <= ImageCount(partLen) && 0 <= VideoCount(partLen)
    ensures MinStockImageLength * ImageCount(partLen) as real <= partLen < MinStockImageLength * (ImageCount(partLen) + 1) as real
    ensures MinStockVideoLength * VideoCount(partLen) as real <= partLen < MinStockVideoLength * (VideoCount(partLen) + 1) as real
    ensures VideoCount(partLen) <= ImageCount(partLen)
  {
    var img, vid := ImageCount(partLen), VideoCount(partLen);
    assert img as real <= partLen / 3.0 < img as real + 1.0;
    assert vid as real <= partLen / 5.0 < vid as real + 1.0;
    assert 5.0 * vid as real <= partLen;
    assert vid as real <= partLen / 3.0 < img as real + 1.0;
  }

  /** Python's `str(n)` for any integer. */
  function IntToString(n: int): string
  {
    if n < 0 then "-" + NatToString(-n) else NatToString(n)
  }

  /**
   * `"+".join(part_tags)`: a list of strings is joined by '+', a string character by character,
   * an object key by key, and anything else raises `TypeError`.
   */
  function TagQuery(tags: Json): (r: Result<string, PyError>)
    ensures r.Ok? <==> StringItems(tags).Some?
    ensures r.Ok? ==> r.value == Join(StringItems(tags).value, "+")
    ensures r.Err? ==> r.error == TypeError
  {
    match StringItems(tags)
    case Some(parts) => Ok(Join(parts, "+"))
    case None => Err(TypeError)
  }

  const ImageSearchBase: string := "https://api.pexels.com/v1/search?query="
  const VideoSearchBase: string := "https://api.pexels.com/videos/search?query="

  /** The parameters after the query in the photo search: page size, orientation and size. */
  function ImageParams(count: int, orientation: string, size: string): string
  {
    "&per_page=" + IntToString(count) + "&orientation=" + orientation + "&size=" + size
  }

  /** The parameters after the query in the video search: orientation, size and page size. */
  function VideoParams(orientation: string, size: string, count: int): string
  {
    "&orientation=" + orientation + "&size=" + size + "&per_page=" + IntToString(count)
  }

  /** The photo search URL of `get_stock_images`. */
  function ImageSearchUrl(query: string, count: int, orientation: string, size: string): string
  {
    ImageSearchBase + query + ImageParams(count, orientation, size)
  }

  /** The video search URL of `get_stock_videos`. */
  function VideoSearchUrl(query: string, orientation: string, size: string, count: int): string
  {
    VideoSearchBase + query + VideoParams(orientation, size, count)
  }

  /** The text of `s` before the first `c`. */
  function TakeUntil(s: string, c: char): (t: string)
    ensures |t| <= |s| && c !in t && t == s[..|t|]
    decreases |s|
  {
    if s == [] || s[0] == c then [] else [s[0]] + TakeUntil(s[1..], c)
  }

  lemma {:induction false} TakeUntilPrefix(a: string, b: string, c: char)
    requires c !in a && b != [] && b[0] == c
    ensures TakeUntil(a + b, c) == a
    decreases |a|
  {
    if a == [] {
      assert a + b == b;
    } else {
      TakeUntilPrefix(a[1..], b, c);
      assert (a + b)[1..] == a[1..] + b;
      assert [a[0]] + a[1..] == a;
    }
  }

  /** A character that is neither the separator nor in any part is not in the join. */
  lemma {:induction false} JoinAvoids(parts: seq<string>, sep: char, c: char)
    requires c != sep
    requires forall k :: 0 <= k < |parts| ==> c !in parts[k]
    ensures c !in Join(parts, [sep])
    decreases |parts|
  {
    if |parts| > 1 {
      JoinAvoids(parts[1..], sep, c);
    }
  }

  /** The query parameter of a search URL: what follows `?query=` up to the next '&'. */
  function QueryOf(url: string, base: string): string
    requires |base| <= |url|
  {
    TakeUntil(url[|base|..], '&')
  }

  /**
   * The search query joins the tags with '+', and nothing else: when no tag holds '+' or '&',
   * splitting the query parameter of either search URL on '+' gives back the tags.
   */
  lemma SearchQueryRoundTrip(tags: seq<string>, count: int, orientation: string, size: string)
    requires |tags| >= 1
    requires forall k :: 0 <= k < |tags| ==> '+' !in tags[k] && '&' !in tags[k]
    ensures Split(QueryOf(ImageSearchUrl(Join(tags, "+"), count, orientation, size), ImageSearchBase), "+") == tags
    ensures Split(QueryOf(VideoSearchUrl(Join(tags, "+"), orientation, size, count), VideoSearchBase), "+") == tags
  {
    var q := Join(tags, "+");
    JoinAvoids(tags, '+', '&');
    QueryParameter(ImageSearchBase, q, ImageParams(count, orientation, size));
    QueryParameter(VideoSearchBase, q, VideoParams(orientation, size, count));
    SplitJoin(tags, '+');
  }

  /** The query parameter is the query, when the query holds no '&'. */
  lemma QueryParameter(base: string, q: string, params: string)
    requires '&' !in q && params != [] && params[0] == '&'
    ensures QueryOf(base + q + params, base) == q
  {
    assert (base + q + params)[|base|..] == q + params;
    TakeUntilPrefix(q, params, '&');
  }

  /** The name of the `i`-th download with extension `ext`: `<i><ext>`. */
  function IndexedName(i: nat, ext: string): string
  {
    NatToString(i) + ext
  }

  /** `videos/<id>/p<n>/img/<i>.jpg`. */
  function ImagePath(id: string, n: nat, i: nat): string
  {
    FilePath(PartDir(id, n, "img"), IndexedName(i, ".jpg"))
  }

  /** `videos/<id>/p<n>/video/<i>.mp4`. */
  function VideoPath(id: string, n: nat, i: nat): string
  {
    FilePath(PartDir(id, n, "video"), IndexedName(i, ".mp4"))
  }

  /** Different downloads get different names. */
  lemma IndexedNameInjective(i: nat, j: nat, ext: string)
    requires IndexedName(i, ext) == IndexedName(j, ext)
    ensures i == j
  {
    var a, b := NatToString(i), NatToString(j);
    assert |a| == |b|;
    assert a == IndexedName(i, ext)[..|a|];
    assert b == IndexedName(j, ext)[..|b|];
    NatToStringInjective(i, j);
  }

  /** `files` after the downloads 0..n-1 have been saved in `dir` with extension `ext`. */
  function WithDownloads(files: map<string, string>, dir: string, ext: string, contents: seq<string>, n: nat): map<string, string>
    requires n <= |contents|
    decreases n
  {
    if n == 0 then files
    else WithDownloads(files, dir, ext, contents, n - 1)[FilePath(dir, IndexedName(n - 1, ext)) := contents[n - 1]]
  }

  /** Different names in one directory are different paths. */
  lemma FilePathInjective(dir: string, x: string, y: string)
    requires FilePath(dir, x) == FilePath(dir, y)
    ensures x == y
  {
    assert x == FilePath(dir, x)[|dir| + 1..];
    assert y == FilePath(dir, y)[|dir| + 1..];
  }

  /** Download `i` is saved as `<i><ext>`. */
  lemma {:induction false} WithDownloadsHit(files: map<string, string>, dir: string, ext: string, contents: seq<string>, n: nat, i: nat)
    requires i < n <= |contents|
    ensures FilePath(dir, IndexedName(i, ext)) in WithDownloads(files, dir, ext, contents, n)
    ensures WithDownloads(files, dir, ext, contents, n)[FilePath(dir, IndexedName(i, ext))] == contents[i]
    decreases n
  {
    if i < n - 1 {
      var before := WithDownloads(files, dir, ext, contents, n - 1);
      var last := FilePath(dir, IndexedName(n - 1, ext));
      WithDownloadsHit(files, dir, ext, contents, n - 1, i);
      DownloadPathsDistinct(dir, ext, i, n - 1);
      assert WithDownloads(files, dir, ext, contents, n) == before[last := contents[n - 1]];
    }
  }

  /** Two different downloads in one directory are saved under different paths. */
  lemma DownloadPathsDistinct(dir: string, ext: string, i: nat, j: nat)
    requires i != j
    ensures FilePath(dir, IndexedName(i, ext)) != FilePath(dir, IndexedName(j, ext))
  {
    if FilePath(dir, IndexedName(i, ext)) == FilePath(dir, IndexedName(j, ext)) {
      FilePathInjective(dir, IndexedName(i, ext), IndexedName(j, ext));
      IndexedNameInjective(i, j, ext);
    }
  }

  /** Every other file is left as it was. */
  lemma {:induction false} WithDownloadsMiss(files: map<string, string>, dir: string, ext: string, contents: seq<string>, n: nat, path: string)
    requires n <= |contents|
    requires forall i :: 0 <= i < n ==> path != FilePath(dir, IndexedName(i, ext))
    ensures path in WithDownloads(files, dir, ext, contents, n) <==> path in files
    ensures path in files ==> WithDownloads(files, dir, ext, contents, n)[path] == files[path]
    decreases n
  {
    if n > 0 {
      WithDownloadsMiss(files, dir, ext, contents, n - 1, path);
    }
  }

  /** The URLs a step searched and downloaded. */
  datatype StockRequests = StockRequests(search: string, downloads: seq<string>)

  /**
   * `get_stock_images`: the photo search, then one download per returned photo URL, saved as
   * `p<n>/img/0.jpg`, `1.jpg`, ... . `urls` are the photo URLs the search answers with and
   * `contents` the downloaded bytes, both given by the network.
   */
  method GetStockImages(disk: Disk, id: string, n: nat, tags: Json, count: int, orientation: string, size: string,
                        urls: seq<string>, contents: seq<string>)
    returns (r: Result<StockRequests, PyError>)
    requires |contents| == |urls|
    modifies disk
    ensures TagQuery(tags).Err? ==> r == Err(TypeError) && disk.files == old(disk.files)
    ensures TagQuery(tags).Ok? && (PartDir(id, n, "img") in old(disk.dirs) || urls == []) ==>
      && r == Ok(StockRequests(ImageSearchUrl(TagQuery(tags).value, count, orientation, size), urls))
      && disk.files == WithDownloads(old(disk.files), PartDir(id, n, "img"), ".jpg", contents, |urls|)
    ensures TagQuery(tags).Ok? && PartDir(id, n, "img") !in old(disk.dirs) && urls != [] ==>
      r == Err(FileNotFoundError) && disk.files == old(disk.files)
    ensures disk.dirs == old(disk.dirs)
  {
    var query := TagQuery(tags);
    if query.Err? {
      return Err(query.error);
    }
    var search := ImageSearchUrl(query.value, count, orientation, size);
    var dir := PartDir(id, n, "img");
    ghost var files0 := disk.files;
    var i := 0;
    while i < |urls|
      invariant 0 <= i <= |urls|
      invariant disk.dirs == old(disk.dirs)
      invariant disk.files == WithDownloads(files0, dir, ".jpg", contents, i)
      invariant dir !in disk.dirs ==> i == 0
    {
      var saved := disk.WriteFile(dir, IndexedName(i, ".jpg"), contents[i]);
      if saved.Err? {
        return Err(saved.error);
      }
      i := i + 1;
    }
    return Ok(StockRequests(search, urls));
  }

  /** How many videos `get_stock_videos` saves before it stops: `count`, or fewer when the search returned fewer. */
  function VideosSaved(count: int, found: nat): nat
  {
    if count <= 0 then 0 else if count <= found then count else found
  }

  /**
   * `get_stock_videos`: the video search, then `for i in range(video_count)` a download of
   * `video_urls[i]`, saved as `p<n>/video/<i>.mp4`. The loop runs to the requested count, not to
   * the number of URLs the search returned, so a short answer raises `IndexError` after the
   * available videos have been saved.
   */
  method GetStockVideos(disk: Disk, id: string, n: nat, tags: Json, count: int, orientation: string, size: string,
                        urls: seq<string>, contents: seq<string>)
    returns (r: Result<StockRequests, PyError>)
    requires |contents| == |urls|
    modifies disk
    ensures TagQuery(tags).Err? ==> r == Err(TypeError) && disk.files == old(disk.files)
    ensures TagQuery(tags).Ok? && PartDir(id, n, "video") in old(disk.dirs) ==>
      && (r.Ok? <==> count <= |urls|)
      && (r.Ok? ==> r.value == StockRequests(VideoSearchUrl(TagQuery(tags).value, orientation, size, count), urls[..VideosSaved(count, |urls|)]))
      && (r.Err? ==> r.error == IndexError)
      && disk.files == WithDownloads(old(disk.files), PartDir(id, n, "video"), ".mp4", contents, VideosSaved(count, |urls|))
    ensures TagQuery(tags).Ok? && PartDir(id, n, "video") !in old(disk.dirs) ==>
      && disk.files == old(disk.files)
      && r == (if count <= 0 then Ok(StockRequests(VideoSearchUrl(TagQuery(tags).value, orientation, size, count), []))
               else if urls == [] then Err(IndexError) else Err(FileNotFoundError))
    ensures disk.dirs == old(disk.dirs)
  {
    var query := TagQuery(tags);
    if query.Err? {
      return Err(query.error);
    }
    var search := VideoSearchUrl(query.value, orientation, size, count);
    var dir := PartDir(id, n, "video");
    ghost var files0 := disk.files;
    var i := 0;
    while i < count
      invariant 0 <= i <= VideosSaved(count, |urls|)
      invariant disk.dirs == old(disk.dirs)
      invariant disk.files == WithDownloads(files0, dir, ".mp4", contents, i)
      invariant dir !in disk.dirs ==> i == 0
    {
      if i >= |urls| {
        assert |urls| < count && i == VideosSaved(count, |urls|);
        return Err(IndexError);
      }
      var saved := disk.WriteFile(dir, IndexedName(i, ".mp4"), contents[i]);
      if saved.Err? {
        assert dir !in old(disk.dirs) && i == 0;
        return Err(saved.error);
      }
      i := i + 1;
    }
    assert count <= |urls| && i == VideosSaved(count, |urls|);
    return Ok(StockRequests(search, urls[..i]));
  }

  /** Appending a character other than '/' or '.' extends a non-empty extension. */
  lemma ExtensionGrows(p: string, c: char)
    requires c != '/' && c != '.' && Compositor.Extension(p) != ""
    ensures Compositor.Extension(p + [c]) == Compositor.Extension(p) + [c]
  {
    assert (p + [c])[..|p|] == p;
  }

  /** A dot after a name that ends in a digit starts an extension. */
  lemma ExtensionStarts(p: string)
    requires p != [] && '0' <= p[|p| - 1] <= '9'
    ensures Compositor.Extension(p + ".") == "."
  {
    assert (p + ".")[..|p|] == p;
  }

  /** A file named `<i><ext>` for a three-letter extension has that extension. */
  lemma IndexedExtension(dir: string, i: nat, ext: string)
    requires |ext| == 4 && ext[0] == '.'
    requires forall k :: 1 <= k < 4 ==> ext[k] != '/' && ext[k] != '.'
    ensures Compositor.Extension(FilePath(dir, IndexedName(i, ext))) == ext
  {
    var stem := dir + "/" + NatToString(i);
    assert stem[|stem| - 1] == NatToString(i)[|NatToString(i)| - 1];
    ExtensionStarts(stem);
    ExtensionGrows(stem + ".", ext[1]);
    ExtensionGrows(stem + "." + [ext[1]], ext[2]);
    ExtensionGrows(stem + "." + [ext[1]] + [ext[2]], ext[3]);
    assert ext == "." + [ext[1]] + [ext[2]] + [ext[3]];
    assert FilePath(dir, IndexedName(i, ext)) == stem + "." + [ext[1]] + [ext[2]] + [ext[3]];
  }

  /** The compositor takes every saved image for an image and every saved video for a video. */
  lemma SavedKinds(id: string, n: nat, i: nat)
    ensures Compositor.KindOf(ImagePath(id, n, i)) == Compositor.Image
    ensures Compositor.KindOf(VideoPath(id, n, i)) == Compositor.Video
  {
    IndexedExtension(PartDir(id, n, "img"), i, ".jpg");
    IndexedExtension(PartDir(id, n, "video"), i, ".mp4");
  }

  /** `videos/<id>/script.json`. */
  function ScriptPath(id: string): string
  {
    FilePath(VideoDir(id), ScriptName)
  }

  /** The search query of part `n`: `"+".join(script["p<n>_img_tags"])`, or the exception it raises. */
  function PartQuery(script: Json, n: nat): (r: Result<string, PyError>)
    ensures r.Ok? <==> Lookup(script, TagsKey(n)).Ok? && TagQuery(Lookup(script, TagsKey(n)).value).Ok?
  {
    match Lookup(script, TagsKey(n))
    case Err(e) => Err(e)
    case Ok(tags) => TagQuery(tags)
  }

  /** What the network answers for one part: photo URLs and their bytes, video URLs and their bytes. */
  datatype PartAnswers = PartAnswers(imageUrls: seq<string>, images: seq<string>, videoUrls: seq<string>, videos: seq<string>)

  predicate WellFormed(a: PartAnswers)
  {
    |a.images| == |a.imageUrls| && |a.videos| == |a.videoUrls|
  }

  /** The requests of one part: its photo search and downloads, then its video search and downloads. */
  datatype PartRequests = PartRequests(images: StockRequests, videos: StockRequests)

  /** The requests a part of length `partLen` makes when nothing raises before its last download. */
  function ExpectedRequests(query: string, partLen: real, orientation: string, size: string, a: PartAnswers): PartRequests
  {
    var videoCount := VideoCount(partLen);
    PartRequests(
      StockRequests(ImageSearchUrl(query, ImageCount(partLen), orientation, size), a.imageUrls),
      StockRequests(VideoSearchUrl(query, orientation, size, videoCount), a.videoUrls[..VideosSaved(videoCount, |a.videoUrls|)]))
  }

  /** The files after part `n` has saved its photos and then its videos. */
  function PartFiles(files: map<string, string>, id: string, n: nat, partLen: real, a: PartAnswers): map<string, string>
    requires WellFormed(a)
  {
    var withImages := WithDownloads(files, PartDir(id, n, "img"), ".jpg", a.images, |a.imageUrls|);
    WithDownloads(withImages, PartDir(id, n, "video"), ".mp4", a.videos, VideosSaved(VideoCount(partLen), |a.videoUrls|))
  }

  /** Saving downloads never touches the script. */
  lemma DownloadsKeepScript(files: map<string, string>, id: string, n: nat, sub: string, ext: string, contents: seq<string>, k: nat)
    requires SubDir(sub) && |ext| == 4 && k <= |contents|
    ensures ScriptPath(id) in WithDownloads(files, PartDir(id, n, sub), ext, contents, k) <==> ScriptPath(id) in files
    ensures ScriptPath(id) in files ==> WithDownloads(files, PartDir(id, n, sub), ext, contents, k)[ScriptPath(id)] == files[ScriptPath(id)]
  {
    forall i | 0 <= i < k
      ensures ScriptPath(id) != FilePath(PartDir(id, n, sub), IndexedName(i, ext))
    {
      assert |ScriptPath(id)| < |FilePath(PartDir(id, n, sub), IndexedName(i, ext))|;
    }
    WithDownloadsMiss(files, PartDir(id, n, sub), ext, contents, k, ScriptPath(id));
  }

  /**
   * `get_part_stock_assets(video_id, n, part_len)`: reads the script back, takes the part's
   * tags, works out the two counts from the part's narration length, then fetches the photos
   * and the videos.
   */
  method GetPartStockAssets(disk: Disk, id: string, n: nat, partLen: real, parse: string -> Option<Json>,
                            orientation: string, size: string, answers: PartAnswers)
    returns (r: Result<PartRequests, PyError>)
    requires WellFormed(answers)
    modifies disk
    ensures ReadScript(old(disk.files), id, parse).Err? ==>
      r == Err(ReadScript(old(disk.files), id, parse).error) && disk.files == old(disk.files)
    ensures ReadScript(old(disk.files), id, parse).Ok? ==>
      var query := PartQuery(ReadScript(old(disk.files), id, parse).value, n);
      && (query.Err? ==> r == Err(query.error) && disk.files == old(disk.files))
      && (r.Ok? ==> query.Ok? && r.value == ExpectedRequests(query.value, partLen, orientation, size, answers))
      && (query.Ok? && PartDir(id, n, "img") in old(disk.dirs) && PartDir(id, n, "video") in old(disk.dirs) ==>
            && (r.Ok? <==> VideoCount(partLen) <= |answers.videoUrls|)
            && (r.Err? ==> r.error == IndexError)
            && disk.files == PartFiles(old(disk.files), id, n, partLen, answers))
    ensures ReadScript(disk.files, id, parse) == ReadScript(old(disk.files), id, parse)
    ensures disk.dirs == old(disk.dirs)
  {
    var read := disk.ReadFile(VideoDir(id), ScriptName);
    if read.Err? {
      return Err(read.error);
    }
    var parsed := parse(read.value);
    if parsed.None? {
      return Err(ValueError);
    }
    var tags := Lookup(parsed.value, TagsKey(n));
    if tags.Err? {
      return Err(tags.error);
    }
    var imageCount := ImageCount(partLen);
    var videoCount := VideoCount(partLen);
    ghost var files0 := disk.files;
    var images := GetStockImages(disk, id, n, tags.value, imageCount, orientation, size, answers.imageUrls, answers.images);
    DownloadsKeepScript(files0, id, n, "img", ".jpg", answers.images, |answers.imageUrls|);
    if images.Err? {
      return Err(images.error);
    }
    ghost var files1 := disk.files;
    var videos := GetStockVideos(disk, id, n, tags.value, videoCount, orientation, size, answers.videoUrls, answers.videos);
    DownloadsKeepScript(files1, id, n, "video", ".mp4", answers.videos, VideosSaved(videoCount, |answers.videoUrls|));
    if videos.Err? {
      return Err(videos.error);
    }
    return Ok(PartRequests(images.value, videos.value));
  }

  /** Every part's query can be formed and every video search returns enough videos. */
  predicate AllPartsServed(script: Json, audioLengths: seq<real>, answers: seq<PartAnswers>, n: nat)
    requires n <= |audioLengths| && n <= |answers|
  {
    forall k :: 0 <= k < n ==> PartQuery(script, k).Ok? && VideoCount(audioLengths[k]) <= |answers[k].videoUrls|
  }

  /** The requests of parts 0..n-1 are the expected ones. */
  predicate PartsRequested(script: Json, audioLengths: seq<real>, answers: seq<PartAnswers>, orientation: string, size: string,
                           requests: seq<PartRequests>, n: nat)
    requires n <= |audioLengths| && n <= |answers| && n <= |requests|
  {
    forall k :: 0 <= k < n ==>
      PartQuery(script, k).Ok? && requests[k] == ExpectedRequests(PartQuery(script, k).value, audioLengths[k], orientation, size, answers[k])
  }

  lemma RequestedOneMore(script: Json, audioLengths: seq<real>, answers: seq<PartAnswers>, orientation: string, size: string,
                         requests: seq<PartRequests>, i: nat, part: PartRequests)
    requires i < |audioLengths| && i < |answers| && |requests| == i
    requires PartsRequested(script, audioLengths, answers, orientation, size, requests, i)
    requires PartQuery(script, i).Ok? && part == ExpectedRequests(PartQuery(script, i).value, audioLengths[i], orientation, size, answers[i])
    ensures PartsRequested(script, audioLengths, answers, orientation, size, requests + [part], i + 1)
  {
    var all := requests + [part];
    forall k | 0 <= k < i + 1
      ensures PartQuery(script, k).Ok? && all[k] == ExpectedRequests(PartQuery(script, k).value, audioLengths[k], orientation, size, answers[k])
    {
      if k < i {
        assert all[k] == requests[k];
      }
    }
  }

  lemma ServedOneMore(script: Json, audioLengths: seq<real>, answers: seq<PartAnswers>, i: nat)
    requires i < |audioLengths| && i < |answers|
    requires AllPartsServed(script, audioLengths, answers, i)
    requires PartQuery(script, i).Ok? && VideoCount(audioLengths[i]) <= |answers[i].videoUrls|
    ensures AllPartsServed(script, audioLengths, answers, i + 1)
  {
  }

  /** The narration length of every part, as mutagen reports it for `videos/<id>/p<i>/audio.mp3`. */
  function PartLengths(id: string, mp3Length: string -> real): (r: seq<real>)
    ensures |r| == MaxParagraphs
  {
    seq(MaxParagraphs, k requires 0 <= k < MaxParagraphs => mp3Length(AudioPath(id, k)))
  }

  /**
   * The first loop of `get_stock_assets`: the length of each part's own `audio.mp3`, appended in
   * part order (`mp3Length` is mutagen's reading of the file at a path).
   */
  method CollectPartLengths(id: string, mp3Length: string -> real) returns (partLengths: seq<real>)
    ensures |partLengths| == MaxParagraphs
    ensures forall k :: 0 <= k < MaxParagraphs ==> partLengths[k] == mp3Length(AudioPath(id, k))
  {
    partLengths := [];
    var i := 0;
    while i < MaxParagraphs
      invariant 0 <= i <= MaxParagraphs && |partLengths| == i
      invariant forall k :: 0 <= k < i ==> partLengths[k] == mp3Length(AudioPath(id, k))
    {
      partLengths := partLengths + [mp3Length(AudioPath(id, i))];
      i := i + 1;
    }
  }

  /** The files after parts 0..k-1 have each saved their photos and then their videos, in part order. */
  function StockFiles(files: map<string, string>, id: string, lengths: seq<real>, answers: seq<PartAnswers>, k: nat): map<string, string>
    requires k <= |lengths| && k <= |answers|
    requires forall j :: 0 <= j < k ==> WellFormed(answers[j])
    decreases k
  {
    if k == 0 then files
    else PartFiles(StockFiles(files, id, lengths, answers, k - 1), id, k - 1, lengths[k - 1], answers[k - 1])
  }

  /**
   * The files when part `k` fails after parts 0..k-1 were served: their downloads, then, when
   * part `k`'s query could be formed, the photos and videos part `k` saved before it failed.
   */
  function FilesAfterFailure(files: map<string, string>, id: string, script: Json, lengths: seq<real>,
                             answers: seq<PartAnswers>, k: nat): map<string, string>
    requires k < |lengths| && k < |answers|
    requires forall j :: 0 <= j <= k ==> WellFormed(answers[j])
  {
    var before := StockFiles(files, id, lengths, answers, k);
    if PartQuery(script, k).Ok? then PartFiles(before, id, k, lengths[k], answers[k]) else before
  }

  /**
   * Part `k` is where `get_stock_assets` failed: parts 0..k-1 were served, part `k` could not be
   * (its tags cannot be joined or too few videos were found), and the files are those it left.
   */
  predicate FailedAt(files0: map<string, string>, files: map<string, string>, id: string, script: Json,
                     lengths: seq<real>, answers: seq<PartAnswers>, k: nat)
    requires k < |lengths| && k < |answers|
    requires forall j :: 0 <= j <= k ==> WellFormed(answers[j])
  {
    && AllPartsServed(script, lengths, answers, k)
    && !(PartQuery(script, k).Ok? && VideoCount(lengths[k]) <= |answers[k].videoUrls|)
    && files == FilesAfterFailure(files0, id, script, lengths, answers, k)
  }

  /**
   * One turn of the second loop of `get_stock_assets`: fetches part `i`'s assets. It keeps the
   * loop's invariants: the requests so far are the expected ones, and under the setup's layout
   * every part so far was served and the files are those of parts 0..i. A failure under the
   * layout means part `i` could not be served.
   */
  method FetchPart(disk: Disk, id: string, parse: string -> Option<Json>, orientation: string, size: string,
                   partLengths: seq<real>, answers: seq<PartAnswers>, i: nat,
                   ghost script: Json, ghost requests: seq<PartRequests>, ghost files0: map<string, string>)
    returns (part: Result<PartRequests, PyError>)
    requires i < |partLengths| == |answers| == MaxParagraphs && |requests| == i
    requires forall k :: 0 <= k < |answers| ==> WellFormed(answers[k])
    requires ReadScript(disk.files, id, parse) == Ok(script)
    requires PartsRequested(script, partLengths, answers, orientation, size, requests, i)
    requires Layout(id) <= disk.dirs ==>
      AllPartsServed(script, partLengths, answers, i) && disk.files == StockFiles(files0, id, partLengths, answers, i)
    modifies disk
    ensures disk.dirs == old(disk.dirs)
    ensures ReadScript(disk.files, id, parse) == Ok(script)
    ensures part.Ok? ==> PartsRequested(script, partLengths, answers, orientation, size, requests + [part.value], i + 1)
    ensures part.Ok? && Layout(id) <= disk.dirs ==>
      AllPartsServed(script, partLengths, answers, i + 1) && disk.files == StockFiles(files0, id, partLengths, answers, i + 1)
    ensures part.Err? && Layout(id) <= disk.dirs ==> FailedAt(files0, disk.files, id, script, partLengths, answers, i)
  {
    ghost var layout := Layout(id) <= disk.dirs;
    if layout {
      LayoutHoldsPartRoots(id, i);
    }
    part := GetPartStockAssets(disk, id, i, partLengths[i], parse, orientation, size, answers[i]);
    if part.Ok? {
      RequestedOneMore(script, partLengths, answers, orientation, size, requests, i, part.value);
      if layout {
        ServedOneMore(script, partLengths, answers, i);
      }
    }
  }

  /**
   * The second loop of `get_stock_assets`: fetches the assets of parts 0, 1, ... in turn and
   * stops at the first failure. Every part fetched made its expected requests. After a successful
   * setup it succeeds exactly when every part can be served, leaving every part's downloads, and
   * otherwise fails at the first part that cannot be served, leaving what the parts fetched saved.
   */
  method FetchAllParts(disk: Disk, id: string, parse: string -> Option<Json>, orientation: string, size: string,
                       partLengths: seq<real>, answers: seq<PartAnswers>, ghost script: Json)
    returns (r: Result<seq<PartRequests>, PyError>)
    requires |partLengths| == |answers| == MaxParagraphs
    requires forall k :: 0 <= k < |answers| ==> WellFormed(answers[k])
    requires ReadScript(disk.files, id, parse) == Ok(script)
    modifies disk
    ensures r.Ok? ==> |r.value| == MaxParagraphs && PartsRequested(script, partLengths, answers, orientation, size, r.value, MaxParagraphs)
    ensures Layout(id) <= old(disk.dirs) ==> (r.Ok? <==> AllPartsServed(script, partLengths, answers, MaxParagraphs))
    ensures r.Ok? && Layout(id) <= old(disk.dirs) ==> disk.files == StockFiles(old(disk.files), id, partLengths, answers, MaxParagraphs)
    ensures r.Err? && Layout(id) <= old(disk.dirs) ==>
      exists k :: 0 <= k < MaxParagraphs && FailedAt(old(disk.files), disk.files, id, script, partLengths, answers, k)
    ensures disk.dirs == old(disk.dirs)
  {
    ghost var files0 := disk.files;
    var requests: seq<PartRequests> := [];
    var i := 0;
    while i < |partLengths|
      invariant 0 <= i <= MaxParagraphs && |requests| == i
      invariant disk.dirs == old(disk.dirs)
      invariant ReadScript(disk.files, id, parse) == Ok(script)
      invariant PartsRequested(script, partLengths, answers, orientation, size, requests, i)
      invariant Layout(id) <= disk.dirs ==>
        AllPartsServed(script, partLengths, answers, i) && disk.files == StockFiles(files0, id, partLengths, answers, i)
    {
      var part := FetchPart(disk, id, parse, orientation, size, partLengths, answers, i, script, requests, files0);
      if part.Err? {
        assert Layout(id) <= old(disk.dirs) ==> FailedAt(files0, disk.files, id, script, partLengths, answers, i);
        return Err(part.error);
      }
      requests := requests + [part.value];
      i := i + 1;
    }
    return Ok(requests);
  }

  /**
   * `get_stock_assets(video_id)`: reads the script, collects the narration length of every part,
   * then fetches the assets of each part in turn. When the setup's layout is in place it succeeds
   * exactly when every part's tags can be joined and every video search returns at least as many
   * videos as the part asks for, and then leaves every part's downloads on disk.
   */
  method GetStockAssets(disk: Disk, id: string, parse: string -> Option<Json>, orientation: string, size: string,
                        mp3Length: string -> real, answers: seq<PartAnswers>)
    returns (r: Result<seq<PartRequests>, PyError>)
    requires |answers| == MaxParagraphs
    requires forall k :: 0 <= k < |answers| ==> WellFormed(answers[k])
    modifies disk
    ensures ReadScript(old(disk.files), id, parse).Err? ==>
      r == Err(ReadScript(old(disk.files), id, parse).error) && disk.files == old(disk.files)
    ensures r.Ok? && Layout(id) <= old(disk.dirs) ==>
      disk.files == StockFiles(old(disk.files), id, PartLengths(id, mp3Length), answers, MaxParagraphs)
    ensures r.Ok? ==>
      && ReadScript(old(disk.files), id, parse).Ok?
      && |r.value| == MaxParagraphs
      && PartsRequested(ReadScript(old(disk.files), id, parse).value, PartLengths(id, mp3Length), answers, orientation, size, r.value, MaxParagraphs)
    ensures ReadScript(old(disk.files), id, parse).Ok? && Layout(id) <= old(disk.dirs) ==>
      (r.Ok? <==> AllPartsServed(ReadScript(old(disk.files), id, parse).value, PartLengths(id, mp3Length), answers, MaxParagraphs))
    ensures r.Err? && ReadScript(old(disk.files), id, parse).Ok? && Layout(id) <= old(disk.dirs) ==>
      var script := ReadScript(old(disk.files), id, parse).value;
      exists k :: 0 <= k < MaxParagraphs && FailedAt(old(disk.files), disk.files, id, script, PartLengths(id, mp3Length), answers, k)
    ensures disk.dirs == old(disk.dirs)
  {
    var read := disk.ReadFile(VideoDir(id), ScriptName);
    if read.Err? {
      return Err(read.error);
    }
    var parsed := parse(read.value);
    if parsed.None? {
      return Err(ValueError);
    }
    ghost var script := parsed.value;
    var partLengths := CollectPartLengths(id, mp3Length);
    assert partLengths == PartLengths(id, mp3Length);
    r := FetchAllParts(disk, id, parse, orientation, size, partLengths, answers, script);
  }
}
