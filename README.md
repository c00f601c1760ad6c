# text2video, modelled in Dafny

text2video turns a topic into a narrated slideshow video:

- **Asset generator.** `assets_gen.py` draws a random video id and lays out `videos/<id>/p<i>/{img,video}` for each of the three script paragraphs. It asks a language model for a JSON script and keeps it only when it parses. It has every paragraph narrated as SSML. It then downloads stock photos and videos for each paragraph's image tags, sized by the length of that paragraph's narration.
- **Compositor.** `video_gen.py` builds a table of segments, one row per asset: path, randomly drawn duration, and kind. It works paragraph by paragraph against a budget that starts at the total narration length. It shows image/video statistics and rebuilds the table until the operator answers "y".
- **Web backend.** `Backend/main.py` and `Backend/gpt.py` serve `/api/generate`:
  - check the requested voice against a whitelist;
  - ask a model for a script and for stock-video search terms, with a bracket-extraction fallback and a retry;
  - de-duplicate the found video URLs and keep the downloads that succeeded;
  - split the cleaned script into sentences;
  - turn every exception into an error reply.

The model states each of these steps in Dafny, in the form the code has.

- **Pure logic becomes functions with lemmas.** This covers id strings, paths, the prompt skeleton, SSML wrapping, search URLs, counts, the regex fallback, character stripping and sentence splitting.
- **Loops that append or mutate become methods with loop invariants, proved against those functions.**
  - The segment builder and the accept loop.
  - The directory setup on a `Disk` class, whose `dirs` and `files` fields the methods update in place.
  - The script, narration and download steps that write files.
  - The URL and download loops of the endpoint.

Everything outside the code is an input. This covers:

- **Randomness.** A shuffle is a supplied permutation. A `random.uniform(a, b)` draw is `a + (b - a) * u` for a supplied `u` in [0, 1]. `random.choice` is a supplied index.
- **Answers from outside.** The language model, speech service and stock-search answers are inputs, and so are the MP3 lengths and the console answers.
- **`json.loads`.** It is a function parameter `parse: string -> Option<Json>`.

Durations are `real`.

Modules:

| module | models |
|---|---|
| `Common` (common.dfy) | options and results, the Python exceptions, parsed JSON, `str(n)`, `sep.join`, `s.split(sep)`, `d[key]` |
| `Settings` (settings.dfy) | the shared constants of `assets_gen.py` |
| `FileSystem` (filesystem.dfy) | the `Disk` class: `os.makedirs`, writing and reading files |
| `AssetSetup` (setup.dfy) | `get_random_string`, `video_setup` |
| `ScriptGen` (script.dfy) | the prompt and the validation of `get_video_script` |
| `Narration` (narration.dfy) | `get_tts_audio` |
| `StockAssets` (stock.dfy) | `get_stock_images`, `get_stock_videos`, `get_part_stock_assets`, `get_stock_assets` |
| `Compositor` (compositor.dfy) | `calculate_video_length`, `create_video_segments` |
| `Session` (session.dfy) | `display_segments_stats`, the accept loop of `video_gen` |
| `Gpt` (gpt.dfy) | `generate_script`, `get_search_terms` |
| `Backend` (backend.dfy) | `remove_special_characters` and the `/api/generate` endpoint |

## Model

| member | source | states |
|---|---|---|
| Compositor.CalculateVideoLength | video_gen.py:44-48 | the loop's total is the sum of the narration lengths, and 0 for no lengths |
| Compositor.SumNonNegative | video_gen.py:44-48 | non-negative narration lengths give a non-negative total |
| Compositor.LastIndexIsLast | video_gen.py:95 | the index found is the last occurrence of the character, or -1 when there is none (the `rfind` inside `os.path.splitext`) |
| Compositor.ExtensionIsSplitExt | video_gen.py:95 | the character-by-character extension used by the segment builder equals `os.path.splitext(path)[1]` computed from the last '/' and the last '.' |
| Compositor.Uniform | video_gen.py:96-102 | a `random.uniform(a, b)` draw lies between `a` and `b` in whichever order they come, and is `a` for u = 0 and `b` for u = 1 |
| Compositor.MaxAssets | video_gen.py:82 | the selection size is at most the pool size and at most `max_paragraphs`, and equals one of them |
| Compositor.PerAssetCap | video_gen.py:80-87 | the cap is at most `max_stock_image_length`; it is `min_stock_image_length` when at most one asset is selected; it is non-negative when the budget and the narration are |
| Compositor.PerAssetCapSplitsAvailable | video_gen.py:80-87 | with several assets, the caps of all selected assets fit within `min(remaining, audio_length)` and fill it exactly unless the cap hit its ceiling |
| Compositor.Shuffled | video_gen.py:90 | the shuffled pool has the pool's length and puts `pool[order[i]]` at position `i` |
| Compositor.Selected | video_gen.py:90-91 | the selection has exactly `min(len(assets), max_paragraphs)` entries |
| Compositor.SelectedFromPool | video_gen.py:71-91 | every selected asset is a file of the paragraph's own `img` or `video` folder, and a pool without repeats gives a selection without repeats |
| Compositor.MakeSegmentFor | video_gen.py:95-104 | a row is tagged "image" exactly when its path's extension is ".jpg", and its duration lies between that kind's minimum and the cap |
| Compositor.PlaceFrom | video_gen.py:94-111 | the inner loop places at most one row per remaining selected asset |
| Compositor.PlaceFromRow | video_gen.py:94-104 | the `m`-th placed row is a row for the `m`-th selected asset, drawn under the paragraph's cap |
| Compositor.PlaceFromRows | video_gen.py:94-104 | the rows follow the selection in order, each drawn under the cap |
| Compositor.PlaceFromBudget | video_gen.py:107-111 | the budget drops by exactly the placed durations; the inner loop stops short of the selection only when the budget is at or below zero |
| Compositor.PlaceFromBreaksAtOnce | video_gen.py:110-111 | every placement except the last leaves the budget above zero: the loop breaks as soon as it reaches zero |
| Compositor.ParagraphStep | video_gen.py:70-114 | one paragraph places at most `min(len(assets), max_paragraphs)` rows |
| Compositor.ParagraphStepFacts | video_gen.py:71-114 | a paragraph's rows come from its own shuffled selection; the budget drops by their durations and then by the narration length; an empty pool places nothing and still costs the narration length |
| Compositor.ParagraphStepBudget | video_gen.py:107-114 | the budget after a paragraph is the start minus its placed durations minus its narration length |
| Compositor.ParagraphStepPaths | video_gen.py:90-104 | the paragraph's rows are for its selected assets, in shuffled order |
| Compositor.ComposeFrom | video_gen.py:70-118 | the paragraph loop makes at most one group per remaining paragraph |
| Compositor.ComposeFromStops | video_gen.py:113-118 | there is one group per processed paragraph, at least one while paragraphs remain, and fewer groups than paragraphs only once the budget is at or below zero |
| Compositor.ComposeFromBreaksAtOnce | video_gen.py:113-118 | every paragraph before the last one processed left the budget above zero; with `ComposeFromStops` the paragraph loop stops exactly after the first paragraph that leaves it `<= 0` |
| Compositor.ComposeFromBudget | video_gen.py:68-114 | the budget left is the start minus every placed duration minus the narration of every processed paragraph |
| Compositor.ComposeFromGroup | video_gen.py:70-104 | the `k`-th group holds rows for the `k`-th paragraph's own selection, in order (no paragraph uses another's assets) |
| Compositor.PlacedOneMore | video_gen.py:94-111 | one turn of the inner loop keeps its invariant, or ends the loop with the whole placement |
| Compositor.DrawSegment | video_gen.py:97-106 | the row appended for one asset is an image row when its extension is ".jpg" and a video row otherwise, drawn from that kind's minimum up to the cap |
| Compositor.PlaceSelected | video_gen.py:94-111 | the inner loop with its `break` computes the rows and the budget that `PlaceFrom` describes |
| Compositor.ParagraphStepDurations | video_gen.py:83-104 | from a non-negative budget, every row of a paragraph lasts between 0 and `max_stock_image_length` seconds, videos included |
| Compositor.ComposeFromDurations | video_gen.py:70-118 | with non-negative narration lengths and budget, every row of the table lasts between 0 and `max_stock_image_length` seconds |
| Compositor.TimelineDurations | video_gen.py:60-120 | every row `create_video_segments` returns lasts between 0 and 5 seconds when the narration lengths are non-negative |
| Compositor.ComposedOneMore | video_gen.py:70-118 | one turn of the paragraph loop keeps its invariant, or ends the loop with the whole table |
| Compositor.PlaceParagraph | video_gen.py:71-114 | the loop body (pool, size cap, per-asset cap, shuffle, selection, inner loop, subtraction of the narration) computes exactly one paragraph step |
| Compositor.CreateVideoSegments | video_gen.py:60-120 | the nested loops with their two `break`s return exactly the table the paragraph steps describe |
| Session.CountKind | video_gen.py:147-148 | a kind's count is at most the number of rows |
| Session.CountKindsCover | video_gen.py:147-148 | the image rows and the video rows together make up the table |
| Session.CountKindAll | video_gen.py:147-148 | a table of one kind counts all of its rows for that kind |
| Session.DisplaySegmentsStats | video_gen.py:139-150 | an empty table raises `ZeroDivisionError`; any other table gives the image and video percentages |
| Session.StatsPercentages | video_gen.py:147-150 | the two percentages of a non-empty table lie in [0, 100] and add up to 100 |
| Session.FirstYes | video_gen.py:179-182 | the loop stops at the first answer that is exactly "y"; no earlier answer was "y" |
| Session.Builds | video_gen.py:174-184 | there is one table per build, the first plus one per rejection |
| Session.BuildsAt | video_gen.py:182-184 | the `k`-th build rebuilds from the same total narration length with the `k`-th random choices |
| Session.SessionAsWritten | video_gen.py:176-185 | as written, the session renders only when the first table is non-empty and the first answer is "y", and then renders that table |
| Session.SessionFromOutcome | video_gen.py:176-185 | the corrected session renders exactly when some later answer is "y" and no table up to it is empty, and then renders that answer's table; otherwise it runs out of input or raises `ZeroDivisionError` |
| Session.SessionOutcome | video_gen.py:176-185 | the corrected session renders the table of the first "y", and never a table the operator rejected |
| Session.RetryRaisesTypeError | video_gen.py:182-185 | after "n" then "y", the code as written raises `TypeError`, while the corrected session renders the second table |
| Session.VideoGenAsWritten | video_gen.py:153-192 | `video_gen` as written: sum the lengths, build, show the stats, then ask; its outcome is `SessionAsWritten` on the successive builds |
| Session.VideoGen | video_gen.py:153-192 | `video_gen` with the statistics call corrected: its outcome is the corrected session on the successive builds |
| Common.Lookup | assets_gen.py:201 | `d[key]` gives the value when the key is present; a missing key raises `KeyError`, and indexing a non-object raises `TypeError` |
| Common.StringItems | Backend/gpt.py:123 | iterating a value as strings gives a list's items only when all are strings, a string's characters, or an object's keys in order; anything else is not iterable |
| Common.NatToString | assets_gen.py:56 | `str(i)` is a non-empty string of decimal digits, one digit exactly when `i < 10` |
| Common.ParseNatToString | assets_gen.py:56 | reading the digits of `str(i)` back gives `i` |
| Common.NatToStringInjective | assets_gen.py:56 | different part numbers give different strings |
| Common.Split | Backend/main.py:106 | `s.split(sep)` always gives at least one piece |
| Common.SplitJoin | assets_gen.py:154 | joining with a one-character separator that no part contains is undone by splitting on it |
| Common.JoinSplit | Backend/main.py:106 | joining the pieces of `s.split(sep)` with `sep` gives `s` back |
| Common.SplitPieceAvoids | Backend/main.py:106 | no piece of `s.split(sep)` contains `sep` |
| FileSystem.DirChain | assets_gen.py:48-59 | `os.makedirs(path)` leaves the path itself among the directories it makes |
| FileSystem.Disk.MakeDirs | assets_gen.py:48-59 | `os.makedirs` raises `FileExistsError` and changes nothing when the path exists; otherwise it adds the path and its ancestors; files are untouched |
| FileSystem.Disk.WriteFile | assets_gen.py:102-103 | writing replaces exactly that file's contents, or raises `FileNotFoundError` without change when the directory is missing |
| FileSystem.Disk.ReadFile | assets_gen.py:118-119 | reading gives the file's contents, or fails exactly when there is no such file |
| AssetSetup.RandomString | assets_gen.py:36-39 | `get_random_string(n)` has exactly `n` characters, each from the 36-character alphabet |
| AssetSetup.RandomStringOnto | assets_gen.py:36-39 | every string over the alphabet can be drawn |
| AssetSetup.RandomStringHasNoSeparator | assets_gen.py:36-39 | an id never holds '/' or '.', so `videos/<id>` is a single new path component |
| AssetSetup.PartDirNotInChain | assets_gen.py:55-59 | making one part directory never makes a different one |
| AssetSetup.PartDirNotInParts | assets_gen.py:55-59 | making the directories of one loop never makes a part directory that a later `makedirs` call will create |
| AssetSetup.LayoutHoldsRoots | assets_gen.py:46-59 | `videos` and `videos/<id>` are in the layout of a successful setup |
| AssetSetup.LayoutHoldsPartRoots | assets_gen.py:55-59 | after a successful setup, the video directory, each `p<i>` and both of its sub-directories exist |
| AssetSetup.MakePartDirs | assets_gen.py:55-59 | one `makedirs` loop succeeds exactly when none of its part directories was taken beforehand, and then adds exactly their chains; on failure it raises `FileExistsError` |
| AssetSetup.BlockedSplit | assets_gen.py:55-59 | the setup is blocked exactly when an `img` or a `video` part directory is already taken |
| AssetSetup.VideoSetup | assets_gen.py:43-61 | the id is the 15-character draw, or the 20-character one when `videos/<first>` is taken; the setup succeeds exactly when no part directory of that id is taken, and then adds exactly the layout `p0..p2/{img,video}`; it raises `FileExistsError` otherwise; files are untouched |
| ScriptGen.BuildPrompt | assets_gen.py:68-86 | the `+=` loop builds the head, one sample entry per paragraph in order, and the closing |
| ScriptGen.EntryKeys | assets_gen.py:79-82 | a paragraph's sample entry names `"p<i>"` and then `"p<i>_img_tags"` at fixed offsets |
| ScriptGen.PromptUpToPrefix | assets_gen.py:78-82 | later entries never change text already in the prompt |
| ScriptGen.SkeletonKeys | assets_gen.py:78-86 | for each paragraph `i < 3`, the prompt holds `"p<i>"` and then `"p<i>_img_tags"`, in that order, and both come before the next paragraph's keys |
| ScriptGen.CompletionPromptKeys | assets_gen.py:89-97 | the text sent to the completion service keeps every paragraph key where the skeleton has it and ends with the line `Topic: <topic>` |
| ScriptGen.SaveVideoScript | assets_gen.py:99-108 | a completion that parses is written to `videos/<id>/script.json` with result True; one that does not parse gives False and writes nothing; a missing directory raises `FileNotFoundError` |
| ScriptGen.GetVideoScript | assets_gen.py:65-108 | the completion of the prompt plus topic line is kept as `videos/<id>/script.json` with result True exactly when it parses; otherwise False and nothing written; a missing directory raises `FileNotFoundError` |
| Narration.Ssml | assets_gen.py:126-127 | the SSML is `<speak>` + the paragraph text + `</speak>` exactly when `script["p<i>"]` is a string; a missing key raises `KeyError`; a non-string value or non-object script raises `TypeError` |
| Narration.ReadScript | assets_gen.py:118-119 | reading the script fails with `FileNotFoundError` when it is missing and `ValueError` when it does not parse |
| Narration.NarrationFromOutcome | assets_gen.py:124-145 | the narration succeeds exactly when every paragraph is a string and every part directory exists, and then sends one request per paragraph |
| Narration.NarrationFromRequest | assets_gen.py:124-145 | the `m`-th request is the SSML of paragraph `m` with the drawn voice |
| Narration.NarratedOneMore | assets_gen.py:124-145 | one turn of the loop sends one request and saves one audio file |
| Narration.GetTtsAudio | assets_gen.py:112-147 | a script that cannot be read raises its error and writes nothing; otherwise the requests sent and the `audio.mp3` files saved are those the narration describes, stopping at the first failure |
| Narration.NarrationAfterSetup | assets_gen.py:112-147 | after a successful setup, the narration succeeds exactly when every paragraph key holds a string, and then sends every paragraph's SSML in order with the drawn voice |
| StockAssets.Trunc | assets_gen.py:203-204 | `int(x)` truncates toward zero |
| StockAssets.CountsFit | assets_gen.py:203-204 | for `part_len >= 0`: `3*img_count <= part_len < 3*(img_count+1)`, likewise with 5 for videos, and `video_count <= img_count` |
| StockAssets.TagQuery | assets_gen.py:154 | `"+".join(part_tags)` joins the strings of a list, a string or an object with '+', and raises `TypeError` for anything else |
| StockAssets.TakeUntil | assets_gen.py:154-155 | the text before the first separator is a prefix without the separator |
| StockAssets.JoinAvoids | assets_gen.py:154 | joining never introduces a character other than the separator |
| StockAssets.QueryParameter | assets_gen.py:154-155 | the `query` parameter of a search URL is exactly the joined tags |
| StockAssets.SearchQueryRoundTrip | assets_gen.py:154-177 | in both search URLs, splitting the query parameter on '+' gives back the tags, when no tag holds '+' or '&' |
| StockAssets.IndexedNameInjective | assets_gen.py:166-188 | different download indices give different file names |
| StockAssets.WithDownloadsHit | assets_gen.py:162-189 | download `i` is saved as `<i>.jpg` or `<i>.mp4` in the part's folder with its bytes |
| StockAssets.WithDownloadsMiss | assets_gen.py:162-189 | every other file is left as it was |
| StockAssets.GetStockImages | assets_gen.py:151-167 | the photo search uses the joined tags; one photo per returned URL is saved as `0.jpg … (k-1).jpg`; tags that cannot be joined raise `TypeError`; a missing folder raises `FileNotFoundError` |
| StockAssets.GetStockVideos | assets_gen.py:170-189 | the video search uses the joined tags; `min(video_count, found)` videos are saved as `<i>.mp4`; `IndexError` is raised when the search returned fewer than `video_count` |
| StockAssets.ExtensionGrows | assets_gen.py:166-188 | appending a character other than '/' or '.' extends a non-empty extension |
| StockAssets.ExtensionStarts | assets_gen.py:166-188 | a dot after a digit starts an extension |
| StockAssets.IndexedExtension | assets_gen.py:166-188 | a saved file `<i>.jpg` or `<i>.mp4` has that extension |
| StockAssets.SavedKinds | assets_gen.py:166-188 | the compositor tags every saved photo "image" and every saved video "video" |
| StockAssets.PartQuery | assets_gen.py:201 | a part's query exists exactly when its `_img_tags` key is present and its value can be joined |
| StockAssets.DownloadsKeepScript | assets_gen.py:162-189 | saving downloads never touches `script.json` |
| StockAssets.GetPartStockAssets | assets_gen.py:193-207 | an unreadable script raises its error; otherwise the part queries with its tags and counts from its narration length; with its folders present it succeeds exactly when enough videos are found; the files are the part's downloads |
| StockAssets.RequestedOneMore | assets_gen.py:225-226 | one more part keeps the requests so far equal to the expected ones |
| StockAssets.ServedOneMore | assets_gen.py:225-226 | one more served part keeps all parts so far served |
| StockAssets.CollectPartLengths | assets_gen.py:216-222 | part `i`'s length is the one read from its own `videos/<id>/p<i>/audio.mp3`, for every part in order |
| StockAssets.FetchPart | assets_gen.py:225-226 | one turn of the part loop: part `i` makes its expected requests; after a successful setup it either is served and adds its downloads to the files of the parts before it, or fails because its tags cannot be joined or too few videos were found, leaving the earlier parts' downloads plus, when its query could be formed, the photos and videos it saved before failing |
| StockAssets.FetchAllParts | assets_gen.py:224-228 | the part loop: every part fetched made its expected requests; after a successful setup it succeeds exactly when every part can be served, leaving every part's downloads in order, and otherwise fails at the first part that cannot be served, leaving the earlier parts' downloads plus what that part saved |
| StockAssets.GetStockAssets | assets_gen.py:210-228 | an unreadable script raises its error and leaves the files as they were; on success every part made its expected requests; after a successful setup it succeeds exactly when every part's tags can be joined and every video search finds enough videos, and success leaves the downloads of parts 0, 1 and 2, saved in that order; a failure there happens at the first part that cannot be served and leaves the downloads of the parts before it plus what that part saved |
| Gpt.GenerateScript | Backend/gpt.py:49-53 | a non-empty answer gives the answer followed by one space; an empty answer gives None |
| Gpt.CloseFrom | Backend/gpt.py:115 | the lazy `.*?\]` ends at the first ']' when no newline comes before it, and fails otherwise |
| Gpt.SearchFrom | Backend/gpt.py:115 | the search returns a real match and no match starts further left; it fails only when there is no match at all |
| Gpt.SearchIsLeftmostMatch | Backend/gpt.py:115-116 | `re.search(r"\[(.*?)\]", s)` finds a match exactly when one exists: '[' then the first ']' after it with no newline in between, the leftmost such |
| Gpt.CleanedSources | Backend/gpt.py:104-117 | a directly parsing answer is used unchanged; otherwise the value comes from the leftmost bracketed slice; with no bracketed slice only the answer itself can parse |
| Gpt.GetSearchTerms | Backend/gpt.py:55-126 | retries end in `RecursionError` exactly when no answer can be cleaned; a returned value is iterable as strings |
| Gpt.FirstCleanedAnswer | Backend/gpt.py:104-126 | the result comes from the first answer that can be cleaned; it is `TypeError` when that value cannot be joined for the console |
| Gpt.LaterAnswersIgnored | Backend/gpt.py:118-120 | answers after the first usable one are never asked for |
| Gpt.AmountUnchecked | Backend/gpt.py:122-126 | an empty list is returned even though `amount` terms were asked for |
| Backend.RemoveAll | Backend/main.py:177 | `s.replace(c, "")` leaves no `c`, never lengthens, and adds no character |
| Backend.RemoveAllCounts | Backend/main.py:177 | removing `c` keeps every other character as often as it occurred |
| Backend.RemoveAllConcat | Backend/main.py:177 | removal works piece by piece, so the kept characters stay in order |
| Backend.RemoveAllAbsent | Backend/main.py:177 | a string without `c` is unchanged |
| Backend.RemoveSpecialCharacters | Backend/main.py:167-177 | the cleaned script has no '*' and no '#' |
| Backend.CleanedScript | Backend/main.py:177 | cleaning drops exactly the '*' and '#' characters, keeps the rest in order, and leaves a clean script unchanged |
| Backend.CleaningIsIdempotent | Backend/main.py:177 | cleaning twice is cleaning once |
| Backend.UrlsAfterMembers | Backend/main.py:75-81 | a URL is listed exactly when it is non-empty and some search returned it |
| Backend.UrlsAfterDistinct | Backend/main.py:75-81 | the URL list has no repeats and no empty URL |
| Backend.UrlsAfterOrder | Backend/main.py:75-81 | URLs are listed in the order they were first found |
| Backend.CollectVideoUrls | Backend/main.py:71-81 | the search loop builds the list the de-duplication rule describes |
| Backend.SavedPathsShape | Backend/main.py:84-95 | every saved path belongs to a URL, there are no more paths than URLs, and there is one path per URL, in order, when every download succeeds |
| Backend.SavedPathsIndexed | Backend/main.py:84-95 | the `j`-th path is the download of the `j`-th URL whose download did not raise; those URL positions strictly increase (URL order, at most one path per URL), and a URL has a path exactly when its download succeeded |
| Backend.SavedPathsPrefix | Backend/main.py:84-95 | downloading further URLs only appends to the list |
| Backend.SavedPathsComplete | Backend/main.py:84-95 | every download that did not raise has its path in the list |
| Backend.SaveVideos | Backend/main.py:84-95 | the download loop keeps, in order, the paths of the downloads that did not raise |
| Backend.NonEmpty | Backend/main.py:108 | every kept piece is a non-empty piece, and every non-empty piece is kept |
| Backend.NonEmptyCounts | Backend/main.py:108 | every non-empty piece is kept as many times as it occurs, and no empty piece is kept |
| Backend.NonEmptyConcat | Backend/main.py:108 | filtering two lists one after the other gives the filter of the whole, so the kept pieces stay in their order |
| Backend.SentencesOfScript | Backend/main.py:106-108 | no sentence is empty or holds ". "; the sentences are the non-empty pieces, each as often as it occurs; the pieces joined with ". " give the script |
| Backend.OneSentence | Backend/main.py:106-108 | a non-empty script without ". " is one sentence |
| Backend.ReplyJson | Backend/main.py:49-164 | the invalid-voice reply has status "error" and `"data": []`; an error reply has status "error", message "Could not generate video: " + the error, and `"videoUrl": []`; a success has status "success" and the video path |
| Backend.TextField | Backend/main.py:43-44 | a request field is read when present and a string; otherwise it raises `KeyError` or `TypeError` |
| Backend.VoiceGate | Backend/main.py:46-57 | the invalid-voice reply comes exactly when the fields are readable and the voice is not whitelisted, whatever the services answer; a success always has a whitelisted voice |
| Backend.SuccessNeeds | Backend/main.py:59-155 | a success needs a non-empty script answer and a usable search-term answer; the last step receives the cleaned sentences and the downloaded paths |
| Backend.SentenceNeeded | Backend/main.py:105-127 | when combining no audio clips fails, a success needs a cleaned script with at least one sentence |
| Backend.EmptyScriptFails | Backend/main.py:60-63 | an empty script answer ends in an `AttributeError` reply |
| Backend.Generate | Backend/main.py:32-164 | the endpoint's steps in order, with every exception turned into the error reply, give the reply described by `GenerateReply` |

## Left out

- moviepy is not modelled. This covers clip construction, concatenation, resizing and rendering (`render_video`), so a segment is a (path, duration, kind) record.
- mutagen's MP3 length reads are inputs: a parameter giving the length of the file at a path. A missing audio file, where mutagen raises, is not modelled.
- The network services are not modelled: OpenAI, Google text-to-speech, Pexels, g4f and ElevenLabs. Their answers are inputs, and the `requests.get` wrappers, headers and API keys are left out.
- `json.loads` is a parameter, so no JSON grammar is modelled. A Pexels answer missing `photos`, `videos`, `src` or `video_files[0]` would raise `KeyError` or `IndexError`; that is not modelled, because the URL lists are inputs.
- Floating point is not modelled: durations are reals and `int()` truncates them exactly.
- The console and printing (`print`, `colored`, `tabulate`) are left out. `input()` answers are a sequence.
- `Backend/video.py` is not part of this model: subtitles, `combine_videos`, `generate_video` and `save_video`. `Backend/elevenvoice.py` is not part of this model: the ElevenLabs retry loop. `search.py` and `utils.py` are not part of this model either: `search_for_stock_videos` and `clean_dir`.
- The `assets_gen()` driver and the `__main__` blocks are left out. They only call the modelled steps in order and print their results.
- `max_stock_video_length` (assets_gen.py:29) is declared but never read by the modelled code, so it has no counterpart. The module-level `orientation` and `asset_size` defaults (assets_gen.py:32-33) are set by the `assets_gen()` driver; the model takes orientation and size as parameters.
- FileSystem.Disk.MakeDirs: `os.makedirs` on a path whose ancestor is a regular file is not modelled. The setup only ever creates paths under `videos/<id>`.
- Gpt.GetSearchTerms: the answers are a finite list. Running out of them stands for the unbounded self-call, which Python ends with `RecursionError` after about a thousand levels. The model does not count those levels.
- Backend.Generate: the speech loop, the audio concatenation, subtitles, video combination and rendering (main.py:109-141) are one parameter `finish`. A script without sentences also goes to `finish`, so what an empty list does there (line 127 combines no clips; line 130 would read the unbound `audio_clip`) is up to that parameter. An exception raised inside `search_for_stock_videos` is not modelled: the search returns a URL or None.
- Backend.Generate: `clean_dir`, `request.get_json()` and Flask routing are left out. The request body is a parsed JSON value.

## Findings

| source | as written | input that shows it | evidently intended | confidence | as-written member | corrected member |
|---|---|---|---|---|---|---|
| video_gen.py:185 | after a rejection the table is rebuilt and `display_segments_stats(video_segments)` is called without `total_video_length`, which raises `TypeError` | console answers "n" then "y", with non-empty tables | show the statistics of the rebuilt table (pass `total_video_length` as line 176 does) and ask again | high, not executed | Session.RetryRaisesTypeError | Session.VideoGen |
