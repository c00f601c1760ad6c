/**
 * The narration step of `assets_gen.py` (`get_tts_audio`): the script is read back, one voice
 * is drawn, and each paragraph is sent to the speech service wrapped in SSML, its audio saved
 * as `videos/<id>/p<i>/audio.mp3`.
 */
module Narration {
  import opened Common
  import opened Settings
  import opened FileSystem
  import opened AssetSetup
  import opened ScriptGen

  /** The four voices one is drawn from. */
  const Voices: seq<string> := ["en-GB-Neural2-A", "en-GB-Neural2-B", "en-GB-Neural2-D", "en-GB-Neural2-F"]

  /** What is sent to the speech service for one paragraph. */
  datatype SpeechRequest = SpeechRequest(ssml: string, voice: string)

  const SpeakOpen: string := "<speak>"
  const SpeakClose: string := "</speak>"

  /** The text between the `<speak>` tags of an SSML document. */
  function Unwrap(ssml: string): string
    requires |SpeakOpen| + |SpeakClose| <= |ssml|
  {
    ssml[|SpeakOpen|..|ssml| - |SpeakClose|]
  }

  /** An SSML document: text between an opening and a closing `speak` tag. */
  predicate Wrapped(ssml: string)
  {
    && |SpeakOpen| + |SpeakClose| <= |ssml|
    && ssml[..|SpeakOpen|] == SpeakOpen
    && ssml[|ssml| - |SpeakClose|..] == SpeakClose
  }

  /**
   * The SSML input for paragraph `i`: `"<speak>" + script["p<i>"] + "</speak>"`. The lookup can
   * raise, and a value that is not a string makes the concatenation raise `TypeError`.
   */
  function Ssml(script: Json, i: nat): (r: Result<string, PyError>)
    ensures r.Ok? <==> script.JObject? && ParagraphKey(i) in script.fields && script.fields[ParagraphKey(i)].JString?
    ensures r.Ok? ==> Wrapped(r.value) && script.fields[ParagraphKey(i)] == JString(Unwrap(r.value))
    ensures r.Err? && !script.JObject? ==> r.error == TypeError
    ensures r.Err? && script.JObject? ==> r.error == (if ParagraphKey(i) in script.fields then TypeError else KeyError)
  {
    match Lookup(script, ParagraphKey(i))
    case Err(e) => Err(e)
    case Ok(v) =>
      if v.JString? then
        var ssml := SpeakOpen + v.s + SpeakClose;
        assert ssml[..|SpeakOpen|] == SpeakOpen;
        assert ssml[|ssml| - |SpeakClose|..] == SpeakClose;
        assert Unwrap(ssml) == v.s;
        Ok(ssml)
      else Err(TypeError)
  }

  const AudioName: string := "audio.mp3"

  /** `videos/<id>/p<i>/audio.mp3`. */
  function AudioPath(id: string, i: nat): string
  {
    FilePath(PartRoot(id, i), AudioName)
  }

  /** Reading and parsing `videos/<id>/script.json`: a missing file raises `FileNotFoundError`, text that is not JSON `ValueError`. */
  function ReadScript(files: map<string, string>, id: string, parse: string -> Option<Json>): (r: Result<Json, PyError>)
    ensures r.Ok? <==> FilePath(VideoDir(id), ScriptName) in files && parse(files[FilePath(VideoDir(id), ScriptName)]).Some?
    ensures r.Ok? ==> Some(r.value) == parse(files[FilePath(VideoDir(id), ScriptName)])
    ensures r.Err? ==> r.error == (if FilePath(VideoDir(id), ScriptName) in files then ValueError else FileNotFoundError)
  {
    var path := FilePath(VideoDir(id), ScriptName);
    if path !in files then Err(FileNotFoundError)
    else
      match parse(files[path])
      case None => Err(ValueError)
      case Some(script) => Ok(script)
  }

  /** The requests for paragraphs i, i+1, ..., or the exception the first failing paragraph raises. */
  function NarrationFrom(script: Json, voice: string, dirs: set<string>, id: string, i: nat): Result<seq<SpeechRequest>, PyError>
    decreases MaxParagraphs - i
  {
    if i >= MaxParagraphs then Ok([])
    else
      match Ssml(script, i)
      case Err(e) => Err(e)
      case Ok(ssml) =>
        if PartRoot(id, i) !in dirs then Err(FileNotFoundError)
        else
          match NarrationFrom(script, voice, dirs, id, i + 1)
          case Err(e) => Err(e)
          case Ok(rest) => Ok([SpeechRequest(ssml, voice)] + rest)
  }

  /** How many audio files are saved from paragraph `i` on before one fails. */
  function SavedFrom(script: Json, dirs: set<string>, id: string, i: nat): nat
    decreases MaxParagraphs - i
  {
    if i >= MaxParagraphs || Ssml(script, i).Err? || PartRoot(id, i) !in dirs then 0
    else 1 + SavedFrom(script, dirs, id, i + 1)
  }

  /** `files` after the audio of paragraphs 0..n-1 has been saved. */
  function WithAudio(files: map<string, string>, id: string, audio: seq<string>, n: nat): map<string, string>
    requires n <= |audio|
    decreases n
  {
    if n == 0 then files else WithAudio(files, id, audio, n - 1)[AudioPath(id, n - 1) := audio[n - 1]]
  }

  /** `done` placed in front of the requests of a run that has not failed. */
  function Prepend(done: seq<SpeechRequest>, r: Result<seq<SpeechRequest>, PyError>): Result<seq<SpeechRequest>, PyError>
  {
    match r
    case Ok(rest) => Ok(done + rest)
    case Err(e) => Err(e)
  }

  /** Every paragraph can be narrated: each is a string under its key, and each part directory exists. */
  predicate Narratable(script: Json, dirs: set<string>, id: string, i: nat)
  {
    forall k :: i <= k < MaxParagraphs ==> Ssml(script, k).Ok? && PartRoot(id, k) in dirs
  }

  /**
   * The narration succeeds exactly when every paragraph is narratable; it then sends one
   * request per paragraph, in order, each with the drawn voice, and saves every audio file.
   */
  lemma {:induction false} NarrationFromOutcome(script: Json, voice: string, dirs: set<string>, id: string, i: nat)
    requires i <= MaxParagraphs
    ensures NarrationFrom(script, voice, dirs, id, i).Ok? <==> Narratable(script, dirs, id, i)
    ensures NarrationFrom(script, voice, dirs, id, i).Ok? ==>
      && |NarrationFrom(script, voice, dirs, id, i).value| == MaxParagraphs - i
      && SavedFrom(script, dirs, id, i) == MaxParagraphs - i
    decreases MaxParagraphs - i
  {
    if i < MaxParagraphs {
      NarrationFromOutcome(script, voice, dirs, id, i + 1);
    }
  }

  /** The request for paragraph `i + m` is the SSML of that paragraph, with the drawn voice. */
  lemma {:induction false} NarrationFromRequest(script: Json, voice: string, dirs: set<string>, id: string, i: nat, m: nat)
    requires NarrationFrom(script, voice, dirs, id, i).Ok?
    requires m < |NarrationFrom(script, voice, dirs, id, i).value|
    ensures i + m < MaxParagraphs && Ssml(script, i + m).Ok?
    ensures NarrationFrom(script, voice, dirs, id, i).value[m] == SpeechRequest(Ssml(script, i + m).value, voice)
    decreases m
  {
    if m > 0 {
      NarrationFromRequest(script, voice, dirs, id, i + 1, m - 1);
    }
  }

  /** One loop step: narrating paragraph `i` moves one request from the remaining run to the done part. */
  lemma NarratedOneMore(script: Json, voice: string, dirs: set<string>, id: string, i: nat, done: seq<SpeechRequest>, ssml: string)
    requires i < MaxParagraphs && Ssml(script, i) == Ok(ssml) && PartRoot(id, i) in dirs
    ensures Prepend(done, NarrationFrom(script, voice, dirs, id, i))
      == Prepend(done + [SpeechRequest(ssml, voice)], NarrationFrom(script, voice, dirs, id, i + 1))
    ensures SavedFrom(script, dirs, id, i) == 1 + SavedFrom(script, dirs, id, i + 1)
  {
    match NarrationFrom(script, voice, dirs, id, i + 1)
    case Ok(rest) =>
      assert done + ([SpeechRequest(ssml, voice)] + rest) == done + [SpeechRequest(ssml, voice)] + rest;
    case Err(_) =>
  }

  /**
   * `get_tts_audio(video_id)`: reads the script, draws a voice (`voicePick`), and for each
   * paragraph in turn sends its SSML and saves the returned audio (`audio[i]`, the speech
   * service's answer) in the part directory, stopping at the first exception. The result lists
   * the requests sent where the source returns True.
   */
  method GetTtsAudio(disk: Disk, id: string, parse: string -> Option<Json>, voicePick: nat, audio: seq<string>)
    returns (r: Result<seq<SpeechRequest>, PyError>)
    requires voicePick < |Voices| && |audio| == MaxParagraphs
    modifies disk
    ensures ReadScript(old(disk.files), id, parse).Err? ==>
      r == Err(ReadScript(old(disk.files), id, parse).error) && disk.files == old(disk.files)
    ensures ReadScript(old(disk.files), id, parse).Ok? ==>
      var script := ReadScript(old(disk.files), id, parse).value;
      && r == NarrationFrom(script, Voices[voicePick], old(disk.dirs), id, 0)
      && disk.files == WithAudio(old(disk.files), id, audio, SavedFrom(script, old(disk.dirs), id, 0))
    ensures disk.dirs == old(disk.dirs)
  {
    var read := disk.ReadFile(VideoDir(id), ScriptName);
    if read.Err? {
      return Err(read.error);
    }
    var parsed := parse(read.value);
    if parsed.None? {
      return Err(ValueError);
    }
    var script := parsed.value;
    var voice := Voices[voicePick];
    ghost var files0 := disk.files;
    var requests: seq<SpeechRequest> := [];
    match NarrationFrom(script, voice, disk.dirs, id, 0) {
      case Ok(all) => assert [] + all == all;
      case Err(_) =>
    }
    var i := 0;
    while i < MaxParagraphs
      invariant 0 <= i <= MaxParagraphs
      invariant disk.dirs == old(disk.dirs)
      invariant NarrationFrom(script, voice, disk.dirs, id, 0) == Prepend(requests, NarrationFrom(script, voice, disk.dirs, id, i))
      invariant SavedFrom(script, disk.dirs, id, 0) == i + SavedFrom(script, disk.dirs, id, i)
      invariant disk.files == WithAudio(files0, id, audio, i)
    {
      var ssml := Ssml(script, i);
      if ssml.Err? {
        return Err(ssml.error);
      }
      var request := SpeechRequest(ssml.value, voice);
      var saved := disk.WriteFile(PartRoot(id, i), AudioName, audio[i]);
      if saved.Err? {
        return Err(saved.error);
      }
      NarratedOneMore(script, voice, disk.dirs, id, i, requests, ssml.value);
      requests := requests + [request];
      i := i + 1;
    }
    assert requests + [] == requests;
    return Ok(requests);
  }

  /**
   * After a successful setup the narration of a script fails only on the script itself:
   * it succeeds exactly when every paragraph key holds a string, and then sends, in order,
   * the SSML of every paragraph with the drawn voice.
   */
  lemma NarrationAfterSetup(script: Json, voice: string, dirs: set<string>, id: string)
    requires Layout(id) <= dirs
    ensures NarrationFrom(script, voice, dirs, id, 0).Ok? <==>
      forall k :: 0 <= k < MaxParagraphs ==> Ssml(script, k).Ok?
    ensures NarrationFrom(script, voice, dirs, id, 0).Ok? ==>
      var requests := NarrationFrom(script, voice, dirs, id, 0).value;
      && |requests| == MaxParagraphs
      && forall k :: 0 <= k < MaxParagraphs ==> requests[k] == SpeechRequest(Ssml(script, k).value, voice)
  {
    forall k | 0 <= k < MaxParagraphs
      ensures PartRoot(id, k) in dirs
    {
      LayoutHoldsPartRoots(id, k);
    }
    NarrationFromOutcome(script, voice, dirs, id, 0);
    if NarrationFrom(script, voice, dirs, id, 0).Ok? {
      forall k | 0 <= k < MaxParagraphs
        ensures NarrationFrom(script, voice, dirs, id, 0).value[k] == SpeechRequest(Ssml(script, k).value, voice)
      {
        NarrationFromRequest(script, voice, dirs, id, 0, k);
      }
    }
  }
}
