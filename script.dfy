/**
 * The script step of `assets_gen.py` (`get_video_script`): the completion prompt with its
 * key skeleton, and the check that keeps the completion as `script.json` only when it is JSON.
 * Also the keys by which the later steps read the script back.
 */
module ScriptGen {
  import opened Common
  import opened Settings
  import opened FileSystem
  import opened AssetSetup

  /** The key of paragraph `i` in the script: `p<i>`. */
  function ParagraphKey(i: nat): string
  {
    "p" + NatToString(i)
  }

  /** The key of the image tags of paragraph `i`: `p<i>_img_tags`. */
  function TagsKey(i: nat): string
  {
    ParagraphKey(i) + "_img_tags"
  }

  /** A key as it is written in JSON text. */
  function Quoted(key: string): string
  {
    "\"" + key + "\""
  }

  /** The 16 spaces that indent a key line of the skeleton. */
  const KeyIndent: string := "                "

  /** The prompt up to the first paragraph entry: the instruction lines, then the topic line of the sample. */
  function Head(instructions: string, topic: string): string
  {
    instructions + "\n        {\n            \"topic\": \" " + topic + " \",\n    "
  }

  /** The sample entry for paragraph `i`: its text key and its image tags key. */
  function Entry(i: nat): string
  {
    "\n" + KeyIndent + Quoted(ParagraphKey(i)) + ": \"paragraph text\",\n"
    + KeyIndent + Quoted(TagsKey(i)) + ": [...],\n        "
  }

  /** The prompt after the head and the entries of paragraphs 0..n-1. */
  function PromptUpTo(instructions: string, topic: string, n: nat): string
    decreases n
  {
    if n == 0 then Head(instructions, topic) else PromptUpTo(instructions, topic, n - 1) + Entry(n - 1)
  }

  /** The text that closes the sample. */
  const Closing: string := "\n        }\n    "

  /** The prompt the loop of `get_video_script` builds. */
  function Skeleton(instructions: string, topic: string): string
  {
    PromptUpTo(instructions, topic, MaxParagraphs) + Closing
  }

  /** The line appended to the prompt in the completion request. */
  function TopicLine(topic: string): string
  {
    "\n" + "Topic: " + topic
  }

  /** The text sent to the completion service: the prompt, then a line naming the topic. */
  function CompletionPrompt(prompt: string, topic: string): string
  {
    prompt + TopicLine(topic)
  }

  /**
   * The prompt-building part of `get_video_script`: the head, one `+=` per paragraph, then
   * the closing. The instruction lines are a parameter (they are prose for the language model).
   */
  method BuildPrompt(instructions: string, topic: string) returns (prompt: string)
    ensures prompt == Skeleton(instructions, topic)
  {
    prompt := Head(instructions, topic);
    var i := 0;
    while i < MaxParagraphs
      invariant 0 <= i <= MaxParagraphs
      invariant prompt == PromptUpTo(instructions, topic, i)
    {
      prompt := prompt + Entry(i);
      i := i + 1;
    }
    prompt := prompt + Closing;
  }

  /** Where the quoted text key of paragraph `i` starts in the skeleton. */
  function KeyAt(instructions: string, topic: string, i: nat): nat
  {
    |PromptUpTo(instructions, topic, i)| + 1 + |KeyIndent|
  }

  /** Where the quoted tags key of paragraph `i` starts in the skeleton. */
  function TagsAt(instructions: string, topic: string, i: nat): nat
  {
    KeyAt(instructions, topic, i) + |Quoted(ParagraphKey(i))| + 20 + |KeyIndent|
  }

  /** A needle inside a prefix occurs at the same position in the whole. */
  lemma OccursInPrefix(s: string, t: string, needle: string, i: int)
    requires OccursAt(s, needle, i)
    ensures OccursAt(s + t, needle, i)
  {
    assert (s + t)[i..i + |needle|] == s[i..i + |needle|];
  }

  /** A needle inside a suffix occurs in the whole at the shifted position. */
  lemma OccursInSuffix(s: string, t: string, needle: string, i: int)
    requires OccursAt(t, needle, i)
    ensures OccursAt(s + t, needle, |s| + i)
  {
    assert (s + t)[|s| + i..|s| + i + |needle|] == t[i..i + |needle|];
  }

  /** Where the two keys sit inside one entry. */
  lemma EntryKeys(i: nat)
    ensures OccursAt(Entry(i), Quoted(ParagraphKey(i)), 1 + |KeyIndent|)
    ensures OccursAt(Entry(i), Quoted(TagsKey(i)), 1 + |KeyIndent| + |Quoted(ParagraphKey(i))| + 20 + |KeyIndent|)
  {
    var k := Quoted(ParagraphKey(i));
    var t := Quoted(TagsKey(i));
    var mid := ": \"paragraph text\",\n";
    var tail := ": [...],\n        ";
    var a := "\n" + KeyIndent;
    var x := a + k;
    OccursInSuffix(a, k, k, 0);
    OccursInPrefix(x, mid, k, |a|);
    OccursInPrefix(x + mid, KeyIndent, k, |a|);
    OccursInPrefix(x + mid + KeyIndent, t, k, |a|);
    OccursInPrefix(x + mid + KeyIndent + t, tail, k, |a|);
    OccursInSuffix(x + mid + KeyIndent, t, t, 0);
    OccursInPrefix(x + mid + KeyIndent + t, tail, t, |x + mid + KeyIndent|);
  }

  /** Later entries never change what is already in the prompt. */
  lemma {:induction false} PromptUpToPrefix(instructions: string, topic: string, i: nat, n: nat, needle: string, at: int)
    requires i <= n
    requires OccursAt(PromptUpTo(instructions, topic, i), needle, at)
    ensures OccursAt(PromptUpTo(instructions, topic, n), needle, at)
    decreases n
  {
    if i < n {
      PromptUpToPrefix(instructions, topic, i, n - 1, needle, at);
      OccursInPrefix(PromptUpTo(instructions, topic, n - 1), Entry(n - 1), needle, at);
    }
  }

  /**
   * The skeleton names, for every paragraph in order, the key `"p<i>"` and then the key
   * `"p<i>_img_tags"`; each paragraph's keys come after those of the paragraph before.
   */
  lemma SkeletonKeys(instructions: string, topic: string, i: nat)
    requires i < MaxParagraphs
    ensures OccursAt(Skeleton(instructions, topic), Quoted(ParagraphKey(i)), KeyAt(instructions, topic, i))
    ensures OccursAt(Skeleton(instructions, topic), Quoted(TagsKey(i)), TagsAt(instructions, topic, i))
    ensures KeyAt(instructions, topic, i) < TagsAt(instructions, topic, i)
    ensures i + 1 < MaxParagraphs ==> TagsAt(instructions, topic, i) < KeyAt(instructions, topic, i + 1)
  {
    var before := PromptUpTo(instructions, topic, i);
    EntryKeys(i);
    OccursInSuffix(before, Entry(i), Quoted(ParagraphKey(i)), 1 + |KeyIndent|);
    OccursInSuffix(before, Entry(i), Quoted(TagsKey(i)), 1 + |KeyIndent| + |Quoted(ParagraphKey(i))| + 20 + |KeyIndent|);
    PromptUpToPrefix(instructions, topic, i + 1, MaxParagraphs, Quoted(ParagraphKey(i)), KeyAt(instructions, topic, i));
    PromptUpToPrefix(instructions, topic, i + 1, MaxParagraphs, Quoted(TagsKey(i)), TagsAt(instructions, topic, i));
    OccursInPrefix(PromptUpTo(instructions, topic, MaxParagraphs), Closing, Quoted(ParagraphKey(i)), KeyAt(instructions, topic, i));
    OccursInPrefix(PromptUpTo(instructions, topic, MaxParagraphs), Closing, Quoted(TagsKey(i)), TagsAt(instructions, topic, i));
  }

  /**
   * The text sent to the completion service keeps every key of the skeleton where the skeleton
   * has it, and ends with the line naming the topic.
   */
  lemma CompletionPromptKeys(instructions: string, topic: string, i: nat)
    requires i < MaxParagraphs
    ensures var sent := CompletionPrompt(Skeleton(instructions, topic), topic);
      && OccursAt(sent, Quoted(ParagraphKey(i)), KeyAt(instructions, topic, i))
      && OccursAt(sent, Quoted(TagsKey(i)), TagsAt(instructions, topic, i))
      && OccursAt(sent, TopicLine(topic), |Skeleton(instructions, topic)|)
      && |sent| == |Skeleton(instructions, topic)| + |TopicLine(topic)|
  {
    var skeleton := Skeleton(instructions, topic);
    SkeletonKeys(instructions, topic, i);
    OccursInPrefix(skeleton, TopicLine(topic), Quoted(ParagraphKey(i)), KeyAt(instructions, topic, i));
    OccursInPrefix(skeleton, TopicLine(topic), Quoted(TagsKey(i)), TagsAt(instructions, topic, i));
    OccursInSuffix(skeleton, TopicLine(topic), TopicLine(topic), 0);
  }

  /** `videos/<id>/script.json`'s directory and name. */
  const ScriptName: string := "script.json"

  /**
   * The validation in `get_video_script`: when `json.loads` accepts the completion `text`, it
   * is written to `videos/<id>/script.json` and the result is True; when it raises `ValueError`
   * the result is False and nothing is written. A missing video directory makes `open` raise,
   * which the `except ValueError` does not catch.
   */
  method SaveVideoScript(disk: Disk, id: string, text: string, parse: string -> Option<Json>)
    returns (r: Result<bool, PyError>)
    modifies disk
    ensures parse(text).None? ==> r == Ok(false) && disk.files == old(disk.files)
    ensures parse(text).Some? && VideoDir(id) in old(disk.dirs) ==>
      r == Ok(true) && disk.files == old(disk.files)[FilePath(VideoDir(id), ScriptName) := text]
    ensures parse(text).Some? && VideoDir(id) !in old(disk.dirs) ==>
      r == Err(FileNotFoundError) && disk.files == old(disk.files)
    ensures disk.dirs == old(disk.dirs)
  {
    if parse(text).None? {
      return Ok(false);
    }
    var written := disk.WriteFile(VideoDir(id), ScriptName, text);
    if written.Err? {
      return Err(written.error);
    }
    return Ok(true);
  }

  /**
   * `get_video_script(topic, video_id)`: builds the prompt, sends it with the topic line to the
   * completion service (`complete`, whose answer is the first choice's text) and keeps the answer
   * as `script.json` when it is JSON.
   */
  method GetVideoScript(disk: Disk, id: string, instructions: string, topic: string,
                        complete: string -> string, parse: string -> Option<Json>)
    returns (r: Result<bool, PyError>)
    modifies disk
    ensures var text := complete(CompletionPrompt(Skeleton(instructions, topic), topic));
      && (parse(text).None? ==> r == Ok(false) && disk.files == old(disk.files))
      && (parse(text).Some? && VideoDir(id) in old(disk.dirs) ==>
            r == Ok(true) && disk.files == old(disk.files)[FilePath(VideoDir(id), ScriptName) := text])
      && (parse(text).Some? && VideoDir(id) !in old(disk.dirs) ==>
            r == Err(FileNotFoundError) && disk.files == old(disk.files))
    ensures disk.dirs == old(disk.dirs)
  {
    var prompt := BuildPrompt(instructions, topic);
    var text := complete(CompletionPrompt(prompt, topic));
    r := SaveVideoScript(disk, id, text, parse);
  }
}
