/**
 * `Backend/main.py`: the `/api/generate` endpoint. It reads the subject and the voice from the
 * request, refuses a voice outside the whitelist, asks for a script and search terms, collects
 * one stock video URL per term without repeats, downloads what it can, splits the script into
 * sentences and hands everything to the speech and video steps. Any exception becomes an error
 * reply. The model's answers, the stock search, the downloads and the speech/video steps are
 * parameters.
 */
module Backend {
  import opened Common
  import opened Gpt

  /** `s.replace(c, "")`: every occurrence of `c` removed. */
  function RemoveAll(s: string, c: char): (r: string)
    ensures c !in r && |r| <= |s|
    ensures forall d :: d !in s ==> d !in r
    decreases |s|
  {
    if s == [] then ""
    else (if s[0] == c then "" else [s[0]]) + RemoveAll(s[1..], c)
  }

  /** Removing `c` keeps every other character, as often as it occurred. */
  lemma {:induction false} RemoveAllCounts(s: string, c: char)
    ensures multiset(RemoveAll(s, c)) == multiset(s)[c := 0]
    decreases |s|
  {
    if s != [] {
      RemoveAllCounts(s[1..], c);
      assert s == [s[0]] + s[1..];
      assert multiset(s) == multiset([s[0]]) + multiset(s[1..]);
    }
  }

  /** Removing `c` keeps the other characters in order: it works piece by piece. */
  lemma {:induction false} RemoveAllConcat(a: string, b: string, c: char)
    ensures RemoveAll(a + b, c) == RemoveAll(a, c) + RemoveAll(b, c)
    decreases |a|
  {
    if a != [] {
      RemoveAllConcat(a[1..], b, c);
      assert (a + b)[1..] == a[1..] + b;
    } else {
      assert a + b == b;
    }
  }

  /** A string without `c` is left as it is. */
  lemma {:induction false} RemoveAllAbsent(s: string, c: char)
    requires c !in s
    ensures RemoveAll(s, c) == s
    decreases |s|
  {
    if s != [] {
      RemoveAllAbsent(s[1..], c);
      assert [s[0]] + s[1..] == s;
    }
  }

  /** `remove_special_characters`: the script without any '*' or '#'. */
  function RemoveSpecialCharacters(script: string): (r: string)
    ensures '*' !in r && '#' !in r
  {
    RemoveAll(RemoveAll(script, '*'), '#')
  }

  /**
   * Cleaning drops exactly the '*' and '#' characters: every other character stays, as often as
   * it occurred and in the same order, and a clean script comes back unchanged.
   */
  lemma CleanedScript(script: string, rest: string)
    ensures multiset(RemoveSpecialCharacters(script)) == multiset(script)['*' := 0]['#' := 0]
    ensures RemoveSpecialCharacters(script + rest) == RemoveSpecialCharacters(script) + RemoveSpecialCharacters(rest)
    ensures '*' !in script && '#' !in script ==> RemoveSpecialCharacters(script) == script
  {
    RemoveAllCounts(script, '*');
    RemoveAllCounts(RemoveAll(script, '*'), '#');
    RemoveAllConcat(script, rest, '*');
    RemoveAllConcat(RemoveAll(script, '*'), RemoveAll(rest, '*'), '#');
    if '*' !in script && '#' !in script {
      RemoveAllAbsent(script, '*');
      RemoveAllAbsent(script, '#');
    }
  }

  /** Cleaning twice is cleaning once. */
  lemma CleaningIsIdempotent(script: string)
    ensures RemoveSpecialCharacters(RemoveSpecialCharacters(script)) == RemoveSpecialCharacters(script)
  {
    CleanedScript(RemoveSpecialCharacters(script), "");
  }

  /** How many search terms the endpoint asks for. */
  const AmountOfStockVideos: int := 5

  /** The voices the endpoint accepts. */
  const ElevenVoices: seq<string> := ["Paddington", "DanDan", "Sally", "Aaryan", "Eleguar", "Readwell", "Knightley"]

  /** Whether the requested voice is one of the whitelisted voices. */
  predicate ValidVoice(voice: string)
  {
    voice in ElevenVoices
  }

  /** A search answer the URL list takes: a URL that is not None, not empty and not yet listed. */
  predicate Takes(urls: seq<string>, found: Option<string>)
  {
    found.Some? && found.value !in urls && found.value != ""
  }

  /** The URL list after the first `n` search answers. */
  function UrlsAfter(found: seq<Option<string>>, n: nat): seq<string>
    requires n <= |found|
    decreases n
  {
    if n == 0 then []
    else
      var urls := UrlsAfter(found, n - 1);
      if Takes(urls, found[n - 1]) then urls + [found[n - 1].value] else urls
  }

  /** The URL list holds exactly the non-empty URLs among the answers. */
  lemma {:induction false} UrlsAfterMembers(found: seq<Option<string>>, n: nat, url: string)
    requires n <= |found|
    ensures url in UrlsAfter(found, n) <==> url != "" && exists k :: 0 <= k < n && found[k] == Some(url)
    decreases n
  {
    if n > 0 {
      UrlsAfterMembers(found, n - 1, url);
      if found[n - 1] == Some(url) && url != "" {
        assert url in UrlsAfter(found, n);
      }
    }
  }

  /** The URL list has no repeats and no empty URL. */
  lemma {:induction false} UrlsAfterDistinct(found: seq<Option<string>>, n: nat)
    requires n <= |found|
    ensures var urls := UrlsAfter(found, n);
      forall i, j :: 0 <= i < j < |urls| ==> urls[i] != urls[j]
    ensures "" !in UrlsAfter(found, n)
    decreases n
  {
    if n > 0 {
      UrlsAfterDistinct(found, n - 1);
    }
  }

  /**
   * The URL list is in the order of first appearance: a URL listed before another was answered
   * at some point where the other had not been answered yet.
   */
  lemma {:induction false} UrlsAfterOrder(found: seq<Option<string>>, n: nat, i: nat, j: nat)
    requires n <= |found|
    requires i < j < |UrlsAfter(found, n)|
    ensures var urls := UrlsAfter(found, n);
      exists k :: 0 <= k < n && found[k] == Some(urls[i]) && forall m :: 0 <= m <= k ==> found[m] != Some(urls[j])
    decreases n
  {
    var urls := UrlsAfter(found, n);
    var prev := UrlsAfter(found, n - 1);
    if j < |prev| {
      UrlsAfterOrder(found, n - 1, i, j);
      assert urls[i] == prev[i] && urls[j] == prev[j];
    } else {
      assert urls[i] == prev[i];
      UrlsAfterMembers(found, n - 1, prev[i]);
      var k :| 0 <= k < n - 1 && found[k] == Some(prev[i]);
      var url := urls[j];
      assert url !in prev;
      UrlsAfterMembers(found, n - 1, url);
      assert found[k] == Some(urls[i]) && forall m :: 0 <= m <= k ==> found[m] != Some(url);
    }
  }

  /**
   * Lines 71-81: one stock search per term, keeping each new non-empty URL. The searches
   * themselves (`search_for_stock_videos`) are the parameter `search`.
   */
  method CollectVideoUrls(terms: seq<string>, search: string -> Option<string>) returns (urls: seq<string>)
    ensures urls == UrlsAfter(seq(|terms|, k requires 0 <= k < |terms| => search(terms[k])), |terms|)
  {
    ghost var found := seq(|terms|, k requires 0 <= k < |terms| => search(terms[k]));
    urls := [];
    var i := 0;
    while i < |terms|
      invariant 0 <= i <= |terms|
      invariant urls == UrlsAfter(found, i)
    {
      var foundUrl := search(terms[i]);
      assert foundUrl == found[i];
      if foundUrl.Some? && foundUrl.value !in urls && foundUrl.value != "" {
        urls := urls + [foundUrl.value];
      }
      i := i + 1;
    }
  }

  /** The paths of the downloads that succeeded among the first `n` URLs, in URL order. */
  function SavedPaths(urls: seq<string>, save: string -> Option<string>, n: nat): seq<string>
    requires n <= |urls|
    decreases n
  {
    if n == 0 then []
    else
      var paths := SavedPaths(urls, save, n - 1);
      if save(urls[n - 1]).Some? then paths + [save(urls[n - 1]).value] else paths
  }

  /**
   * Every saved path belongs to a URL and there are no more paths than URLs; when every download
   * succeeds, there is one path per URL, in URL order.
   */
  lemma {:induction false} SavedPathsShape(urls: seq<string>, save: string -> Option<string>, n: nat)
    requires n <= |urls|
    ensures |SavedPaths(urls, save, n)| <= n
    ensures forall p :: p in SavedPaths(urls, save, n) ==> exists k :: 0 <= k < n && save(urls[k]) == Some(p)
    ensures (forall k :: 0 <= k < n ==> save(urls[k]).Some?) ==>
      |SavedPaths(urls, save, n)| == n && forall k :: 0 <= k < n ==> SavedPaths(urls, save, n)[k] == save(urls[k]).value
    decreases n
  {
    if n > 0 {
      SavedPathsShape(urls, save, n - 1);
    }
  }

  /** The positions among the first `n` URLs whose download succeeded, in increasing order. */
  function SavedIndices(urls: seq<string>, save: string -> Option<string>, n: nat): seq<nat>
    requires n <= |urls|
    decreases n
  {
    if n == 0 then []
    else
      var ks := SavedIndices(urls, save, n - 1);
      if save(urls[n - 1]).Some? then ks + [n - 1] else ks
  }

  /**
   * The saved paths are the successful downloads in URL order, one per URL: the `j`-th path is
   * the download of the `j`-th URL whose download succeeded, those URL positions strictly
   * increase, and a URL has a path exactly when its download succeeded.
   */
  lemma {:induction false} SavedPathsIndexed(urls: seq<string>, save: string -> Option<string>, n: nat)
    requires n <= |urls|
    ensures var paths, ks := SavedPaths(urls, save, n), SavedIndices(urls, save, n);
      && |ks| == |paths|
      && (forall j :: 0 <= j < |ks| ==> ks[j] < n && save(urls[ks[j]]) == Some(paths[j]))
      && (forall j, j' :: 0 <= j < j' < |ks| ==> ks[j] < ks[j'])
      && (forall k :: 0 <= k < n ==> (k in ks <==> save(urls[k]).Some?))
    decreases n
  {
    if n > 0 {
      SavedPathsIndexed(urls, save, n - 1);
    }
  }

  /** Downloading more URLs only appends: the paths of the first `m` URLs are a prefix of those of the first `n`. */
  lemma {:induction false} SavedPathsPrefix(urls: seq<string>, save: string -> Option<string>, m: nat, n: nat)
    requires m <= n <= |urls|
    ensures SavedPaths(urls, save, m) <= SavedPaths(urls, save, n)
    decreases n - m
  {
    if m < n {
      SavedPathsPrefix(urls, save, m, n - 1);
    }
  }

  /** Every download that succeeded has its path in the list. */
  lemma SavedPathsComplete(urls: seq<string>, save: string -> Option<string>, n: nat, k: nat)
    requires k < n <= |urls| && save(urls[k]).Some?
    ensures save(urls[k]).value in SavedPaths(urls, save, n)
  {
    SavedPathsPrefix(urls, save, k + 1, n);
    var front := SavedPaths(urls, save, k + 1);
    assert front[|front| - 1] == save(urls[k]).value;
  }

  /**
   * Lines 84-95: each URL is downloaded in turn (`save_video`, the parameter `save`, None when
   * it raises); a failed download is skipped.
   */
  method SaveVideos(urls: seq<string>, save: string -> Option<string>) returns (paths: seq<string>)
    ensures paths == SavedPaths(urls, save, |urls|)
  {
    paths := [];
    var i := 0;
    while i < |urls|
      invariant 0 <= i <= |urls|
      invariant paths == SavedPaths(urls, save, i)
    {
      var saved := save(urls[i]);
      if saved.Some? {
        paths := paths + [saved.value];
      }
      i := i + 1;
    }
  }

  /** The pieces that are not empty, in order. */
  function NonEmpty(pieces: seq<string>): (r: seq<string>)
    ensures forall k :: 0 <= k < |r| ==> r[k] != "" && r[k] in pieces
    ensures forall p :: p in pieces && p != "" ==> p in r
    decreases |pieces|
  {
    if pieces == [] then []
    else if pieces[0] == "" then NonEmpty(pieces[1..])
    else [pieces[0]] + NonEmpty(pieces[1..])
  }

  /** The filter keeps every non-empty piece as often as it occurs and drops every empty one. */
  lemma {:induction false} NonEmptyCounts(pieces: seq<string>)
    ensures multiset(NonEmpty(pieces)) == multiset(pieces)["" := 0]
    decreases |pieces|
  {
    if pieces != [] {
      NonEmptyCounts(pieces[1..]);
      assert pieces == [pieces[0]] + pieces[1..];
      assert multiset(pieces) == multiset([pieces[0]]) + multiset(pieces[1..]);
    }
  }

  /** The filter looks at the first piece, then filters the rest. */
  lemma NonEmptyCons(x: string, rest: seq<string>)
    ensures NonEmpty([x] + rest) == if x == "" then NonEmpty(rest) else [x] + NonEmpty(rest)
  {
    assert ([x] + rest)[1..] == rest;
  }

  /** The filter keeps the pieces in order: it works list by list. */
  lemma {:induction false} NonEmptyConcat(a: seq<string>, b: seq<string>)
    ensures NonEmpty(a + b) == NonEmpty(a) + NonEmpty(b)
    decreases |a|
  {
    if a != [] {
      var x, tail := a[0], a[1..];
      assert a == [x] + tail;
      assert a + b == [x] + (tail + b);
      NonEmptyConcat(tail, b);
      NonEmptyCons(x, tail + b);
      NonEmptyCons(x, tail);
      if x != "" {
        assert [x] + (NonEmpty(tail) + NonEmpty(b)) == ([x] + NonEmpty(tail)) + NonEmpty(b);
      }
    } else {
      assert a + b == b;
      assert NonEmpty(a) == [];
    }
  }

  /** Lines 105-108: the script split on ". ", without the empty pieces. */
  function Sentences(script: string): seq<string>
  {
    NonEmpty(Split(script, ". "))
  }

  /**
   * The sentences are non-empty and hold no ". "; they are exactly the non-empty pieces between
   * the separators, which joined with ". " give the script back.
   */
  lemma SentencesOfScript(script: string)
    ensures Join(Split(script, ". "), ". ") == script
    ensures forall k :: 0 <= k < |Sentences(script)| ==> Sentences(script)[k] != "" && !Contains(Sentences(script)[k], ". ")
    ensures forall p :: p in Split(script, ". ") && p != "" ==> p in Sentences(script)
    ensures multiset(Sentences(script)) == multiset(Split(script, ". "))["" := 0]
  {
    JoinSplit(script, ". ");
    NonEmptyCounts(Split(script, ". "));
    var pieces := Split(script, ". ");
    forall k | 0 <= k < |Sentences(script)|
      ensures !Contains(Sentences(script)[k], ". ")
    {
      var j :| 0 <= j < |pieces| && pieces[j] == Sentences(script)[k];
      SplitPieceAvoids(script, ". ", j);
    }
  }

  /** A script with no ". " in it is one sentence, unless it is empty. */
  lemma OneSentence(script: string)
    requires script != [] && !Contains(script, ". ")
    ensures Sentences(script) == [script]
  {
    var pieces := Split(script, ". ");
    JoinSplit(script, ". ");
    if |pieces| > 1 {
      var rest := Join(pieces[1..], ". ");
      assert script == pieces[0] + ". " + rest;
      assert OccursAt(script, ". ", |pieces[0]|);
      assert false;
    }
    assert pieces == [script];
    assert NonEmpty(pieces[1..]) == [];
    assert NonEmpty(pieces) == [script];
  }

  /**
   * The reply of the endpoint: the invalid-voice reply (lines 49-57), the error reply of the
   * `except` block (lines 156-164), or the success reply with the path of the video.
   */
  datatype Reply = InvalidVoice | Failure(error: PyError) | Success(videoPath: string)

  /** The JSON body `jsonify` sends for a reply; `describe` stands for `str(err)`. */
  function ReplyJson(reply: Reply, describe: PyError -> string): (j: Json)
    ensures j.JObject? && |j.keys| == 3 && j.keys[..2] == ["status", "message"]
    ensures forall k :: k in j.keys <==> k in j.fields
    ensures "status" in j.fields && "message" in j.fields
    ensures j.fields["status"] == JString(if reply.Success? then "success" else "error")
    ensures reply.InvalidVoice? ==> j.keys[2] == "data" && j.fields["data"] == JArray([])
    ensures !reply.InvalidVoice? ==> j.keys[2] == "videoUrl"
    ensures reply.Failure? ==> j.fields["videoUrl"] == JArray([])
    ensures reply.Failure? ==> j.fields["message"] == JString("Could not generate video: " + describe(reply.error))
    ensures reply.Success? ==> j.fields["videoUrl"] == JString(reply.videoPath)
  {
    match reply
    case InvalidVoice =>
      JObject(["status", "message", "data"],
        map["status" := JString("error"), "message" := JString("Invalid voice."), "data" := JArray([])])
    case Failure(e) =>
      JObject(["status", "message", "videoUrl"],
        map["status" := JString("error"), "message" := JString("Could not generate video: " + describe(e)), "videoUrl" := JArray([])])
    case Success(path) =>
      JObject(["status", "message", "videoUrl"],
        map["status" := JString("success"), "message" := JString("Video generated!"), "videoUrl" := JString(path)])
  }

  /** A request field the endpoint prints with `+`: it must be present and a string. */
  function TextField(data: Json, key: string): (r: Result<string, PyError>)
    ensures r.Ok? <==> Lookup(data, key).Ok? && Lookup(data, key).value.JString?
    ensures r.Ok? ==> data.fields[key] == JString(r.value)
    ensures r.Err? && Lookup(data, key).Err? ==> r.error == Lookup(data, key).error
    ensures r.Err? && Lookup(data, key).Ok? ==> r.error == TypeError
  {
    match Lookup(data, key)
    case Err(e) => Err(e)
    case Ok(JString(s)) => Ok(s)
    case Ok(_) => Err(TypeError)
  }

  /**
   * What the service's answers, searches and downloads make of a request: the script answer,
   * the answers to the search-term request (one per attempt), `json.loads`, the stock search, the
   * download and the speech/subtitle/video steps (`finish`, from the sentences, the downloaded
   * paths and the voice).
   */
  datatype Services = Services(
    scriptAnswer: string,
    termAnswers: seq<string>,
    parse: string -> Option<Json>,
    search: string -> Option<string>,
    save: string -> Option<string>,
    finish: (seq<string>, seq<string>, string) -> Result<string, PyError>)

  /** The stock video URLs gathered for the search terms. */
  function VideoUrls(terms: seq<string>, search: string -> Option<string>): seq<string>
  {
    UrlsAfter(seq(|terms|, k requires 0 <= k < |terms| => search(terms[k])), |terms|)
  }

  /**
   * The whole endpoint as one value. The sentences, even none at all, go to the speech and video
   * steps, which decide the outcome.
   */
  function GenerateReply(data: Json, sv: Services): Reply
  {
    match TextField(data, "videoSubject")
    case Err(e) => Failure(e)
    case Ok(_) =>
      match TextField(data, "voice")
      case Err(e) => Failure(e)
      case Ok(voice) =>
        if !ValidVoice(voice) then InvalidVoice
        else
          match GenerateScript(sv.scriptAnswer)
          case None => Failure(AttributeError)
          case Some(raw) =>
            match GetSearchTerms(AmountOfStockVideos, sv.termAnswers, sv.parse)
            case Err(e) => Failure(e)
            case Ok(terms) =>
              var script := RemoveSpecialCharacters(raw);
              var paths := SavedPaths(VideoUrls(StringItems(terms).value, sv.search), sv.save, |VideoUrls(StringItems(terms).value, sv.search)|);
              match sv.finish(Sentences(script), paths, voice)
              case Err(e) => Failure(e)
              case Ok(path) => Success(path)
  }

  /** Only whitelisted voices get past the check, whatever the services answer. */
  lemma VoiceGate(data: Json, sv: Services)
    ensures GenerateReply(data, sv) == InvalidVoice <==>
      TextField(data, "videoSubject").Ok? && TextField(data, "voice").Ok? && !ValidVoice(TextField(data, "voice").value)
    ensures GenerateReply(data, sv).Success? ==>
      TextField(data, "voice").Ok? && ValidVoice(TextField(data, "voice").value)
  {
  }

  /**
   * A reply is a success only when the script answer was non-empty, a search-term answer could be
   * cleaned into strings and the speech and video steps gave the path; the finishing step sees
   * the cleaned sentences and the downloaded paths.
   */
  lemma SuccessNeeds(data: Json, sv: Services)
    requires GenerateReply(data, sv).Success?
    ensures sv.scriptAnswer != []
    ensures GetSearchTerms(AmountOfStockVideos, sv.termAnswers, sv.parse).Ok?
    ensures var terms := StringItems(GetSearchTerms(AmountOfStockVideos, sv.termAnswers, sv.parse).value).value;
      var urls := VideoUrls(terms, sv.search);
      var sentences := Sentences(RemoveSpecialCharacters(sv.scriptAnswer + " "));
      sv.finish(sentences, SavedPaths(urls, sv.save, |urls|), TextField(data, "voice").value)
        == Ok(GenerateReply(data, sv).videoPath)
  {
  }

  /**
   * When the speech and video steps fail on an empty sentence list (combining no audio clips
   * raises), a success needs a script with at least one sentence.
   */
  lemma SentenceNeeded(data: Json, sv: Services)
    requires forall paths: seq<string>, voice: string :: sv.finish([], paths, voice).Err?
    requires GenerateReply(data, sv).Success?
    ensures Sentences(RemoveSpecialCharacters(sv.scriptAnswer + " ")) != []
  {
    SuccessNeeds(data, sv);
  }

  /** An empty script answer ends in `AttributeError` (None has no `replace`), once the voice is valid. */
  lemma EmptyScriptFails(data: Json, sv: Services)
    requires TextField(data, "videoSubject").Ok? && TextField(data, "voice").Ok?
    requires ValidVoice(TextField(data, "voice").value)
    requires sv.scriptAnswer == []
    ensures GenerateReply(data, sv) == Failure(AttributeError)
  {
  }

  /**
   * `generate()`: the steps of the endpoint in order, each exception turned into the error
   * reply. Reading the request, clearing the temporary folders and the console are left out.
   */
  method Generate(data: Json, sv: Services) returns (reply: Reply)
    ensures reply == GenerateReply(data, sv)
  {
    var subject := TextField(data, "videoSubject");
    if subject.Err? {
      return Failure(subject.error);
    }
    var voice := TextField(data, "voice");
    if voice.Err? {
      return Failure(voice.error);
    }
    if voice.value !in ElevenVoices {
      return InvalidVoice;
    }
    var raw := GenerateScript(sv.scriptAnswer);
    if raw.None? {
      return Failure(AttributeError);
    }
    var script := RemoveSpecialCharacters(raw.value);
    var terms := GetSearchTerms(AmountOfStockVideos, sv.termAnswers, sv.parse);
    if terms.Err? {
      return Failure(terms.error);
    }
    var urls := CollectVideoUrls(StringItems(terms.value).value, sv.search);
    var paths := SaveVideos(urls, sv.save);
    var sentences := Sentences(script);
    var video := sv.finish(sentences, paths, voice.value);
    if video.Err? {
      return Failure(video.error);
    }
    return Success(video.value);
  }
}
