# Proxy generator, modelled in Dafny

`Proxy_generator.py` is a DaVinci Resolve script that builds proxy renders of
a footage tree. For each sub-directory of the footage directory (a "date
folder") it does the following:
- It creates a media-pool folder named after the last path segment.
- It imports the directory's clips.
- It moves every clip that is not a still into a sub-folder named by its
  resolution ("3840x2160").
- For each resolution sub-folder in its list, it creates a timeline named
  `Video Resolution <resolution>   #<n>`, where n comes from a running
  counter.
- It sizes that timeline to 1920 x round(1920 * H / W).
- It queues a render job into `<proxy root>/<date folder name>`.

This project models that logic with the Resolve objects replaced by values:
- a clip is its `(resolution, kind)` pair, identified by its index in the
  imported list;
- a resolution folder is its name and the indices of the clips moved into it;
- a render job is the timeline plus the settings written for it;
- the run's result is the list of jobs queued, plus the exception that
  stopped the script, if any.

Modules:
- `Results`: `Option` and `Result`.
- `Strings`: `str.split` with a one-character separator, `sep.join`, `str(n)`
  and `int(s)` on digit strings, and their round trips.
- `Naming`: the date-folder name (line 26), `os.path.join` (line 71), and the
  timeline name with the counter value read back from it (line 56).
- `Dimensions`: the `"WxH"` parse, the proxy size in exact arithmetic with
  round-half-to-even, and the exceptions lines 59-62 raise.
- `Generator`: the `counter()` generator as a class whose `Next` updates its
  field.
- `Bucketing`: the clip loop of lines 29-50 as a method with a loop, proved
  against the functions `Buckets` (the folders built) and `Listed` (the names
  in `ResolutionFolderlist` when the loop ends).
- `Rendering`:
  - the timeline/render loop of lines 53-80 as a method that advances a
    `Counter`;
  - the outer date-folder loop (lines 27-80) as a method `Run`;
  - both are proved against recursive specification functions;
  - lemmas about numbering, contents and counts.

The listing used by the timeline loop is kept as written: `ResolutionFolderlist`
is re-read at line 36 before each non-still clip is handled. So the loop at
line 53 goes through the sub-folders as they stood before the last non-still
clip, and a folder created for that clip gets no timeline (see Findings).

## Model

| member | source | states |
|---|---|---|
| Generator.Counter.constructor | Proxy_generator.py:6-12 | a fresh generator has yielded nothing: its `i` is 0 |
| Generator.Counter.Next | Proxy_generator.py:8-10 | each `next` adds one to `i` and yields the new value |
| Generator.FirstValues | Proxy_generator.py:6-12 | the first k values of a fresh generator are exactly 1, 2, ..., k |
| Strings.Split | Proxy_generator.py:26 | `str.split` always returns at least one piece |
| Strings.SplitPiecesLackSeparator | Proxy_generator.py:26 | no piece of a split contains the separator |
| Strings.JoinSplit | Proxy_generator.py:26 | joining the pieces of a split with the separator gives the text back |
| Strings.SplitJoin | Proxy_generator.py:26 | splitting a join of separator-free pieces gives the pieces back |
| Strings.LastPieceIsSuffix | Proxy_generator.py:26 | `s.split(sep)[-1]` is the suffix after the last separator: separator-free, and either all of `s` or preceded by the separator |
| Strings.NatToString | Proxy_generator.py:56-65 | `str(n)`: a non-empty digit string without a leading zero; `ParseNatToString` and `NatToStringInjective` state that it is read back exactly and never shared |
| Strings.ParseNat | Proxy_generator.py:60-76 | `int(s)` on digit strings, `None` for the `ValueError`; its contract is `ParseNatToString` (it inverts `str`) and `ParseResolutionAccepts` (what it accepts) |
| Strings.ParseNatToString | Proxy_generator.py:65-76 | `int(str(n)) == n` for every non-negative n |
| Strings.NatToStringInjective | Proxy_generator.py:56 | different numbers have different decimal texts |
| Naming.DateFolderName | Proxy_generator.py:26 | the date-folder name contains no '/' |
| Naming.DateFolderNameIsLastSegment | Proxy_generator.py:26 | the name is the text after the last '/': the whole path when it has no '/', empty when it ends in '/' |
| Naming.JoinPath | Proxy_generator.py:71 | POSIX two-argument `os.path.join`; its contract is `JoinPathLastSegment`: the root is kept as prefix and the name is the last segment |
| Naming.JoinPathLastSegment | Proxy_generator.py:71 | `os.path.join(root, name)` for a '/'-free name starts with root and has name as its last segment |
| Naming.TargetDir | Proxy_generator.py:71 | the render target starts with the proxy root and ends in the same date-folder name as the footage path |
| Naming.TimelineName | Proxy_generator.py:56 | `"Video Resolution " + name + "   #" + str(n)`; its contract is `CounterOfTimelineName` (n is read back) and `TimelineNamesDistinct` (distinct n give distinct names) |
| Naming.CounterOfTimelineName | Proxy_generator.py:56 | the counter value can be read back from the timeline name, whatever the resolution text holds |
| Naming.TimelineNamesDistinct | Proxy_generator.py:56 | timelines built with different counter values never share a name |
| Dimensions.ParseResolutionRoundTrip | Proxy_generator.py:59-61 | the label "WxH" written from W and H parses back to (W, H) |
| Dimensions.ParseResolution | Proxy_generator.py:59-61 | the `split("x")` unpacking and the two `int()` calls, with their exceptions; its contract is `ParseResolutionAccepts` and `ParseResolutionRoundTrip` |
| Dimensions.ParseResolutionAccepts | Proxy_generator.py:59-61 | a label parses exactly when it splits on 'x' into two digit strings, and then parses to their values |
| Dimensions.RoundHalfEven | Proxy_generator.py:64 | `round(n / d)` is within half of n / d, and on a tie it is even |
| Dimensions.RoundHalfEvenUnique | Proxy_generator.py:64 | only one integer is nearest to n / d with ties to even, so the function is Python's `round` |
| Dimensions.ProxyHeight | Proxy_generator.py:64 | `round(1920 * H / W)`; its contract is `ProxyHeightNearest`: the unique integer nearest 1920 * H / W, ties to even |
| Dimensions.ProxySize | Proxy_generator.py:59-65 | the proxy size or the exception for a folder name; its contract is `ProxySizeOutcome` and the worked examples below |
| Dimensions.ProxyHeightNearest | Proxy_generator.py:62-65 | the proxy height is the unique integer nearest 1920 * H / W, with ties to even |
| Dimensions.ProxySizeOutcome | Proxy_generator.py:59-65 | in terms of the pieces of the name around 'x': success iff there are two digit strings with W not 0, and then (1920, round-half-even of 1920 * H / W) with the name being W "x" H; otherwise the first exception in line order: wrong part count, W not an integer, H not an integer, division by zero |
| Dimensions.ProxySizeUhd | Proxy_generator.py:59-65 | "3840x2160" gives a 1920 x 1080 proxy |
| Dimensions.ProxySizeTieGoesToEven | Proxy_generator.py:64 | "1280x3" gives height 4: 4.5 rounds to the even neighbour |
| Dimensions.ProxySizeNoSeparator | Proxy_generator.py:59 | "1080p" splits into one part, so the unpacking raises |
| Dimensions.ProxySizeZeroWidth | Proxy_generator.py:62 | "0x1080" raises division by zero |
| Bucketing.FirstNamed | Proxy_generator.py:46 | the folder picked for an existing resolution is the first one with that name |
| Bucketing.IsStill | Proxy_generator.py:35 | the `Type != "Still"` test inverted: a clip whose kind is "Still"; `StillsNeverMoved` states that such a clip is never moved |
| Bucketing.Names | Proxy_generator.py:37 | the names of the sub-folders, in order; `NamesAfterPlace` states how placing a clip changes them |
| Bucketing.Place | Proxy_generator.py:38-50 | one non-still clip: a new folder when its resolution is not yet a name, else appended to the first folder of that name; `PlaceKeepsBucketed` and `NamesAfterPlace` state what it keeps |
| Bucketing.Buckets | Proxy_generator.py:29-50 | the folders after the clip loop; its contract is `BucketsAreWellFormed`, `StillsNeverMoved` and `ClipsOfBucket` |
| Bucketing.Listed | Proxy_generator.py:29-50 | the names in `ResolutionFolderlist` after the clip loop; its contract is `ListedIsSnapshot`, `OnlyStills` and `ListedAmongBuckets` |
| Bucketing.BucketByResolution | Proxy_generator.py:29-50 | the loop's folders and final `ResolutionFolderlist` are `Buckets(clips)` and `Listed(clips)` |
| Bucketing.BucketsAreWellFormed | Proxy_generator.py:36-50 | folder names are unique; a non-still clip is in a folder iff the folder's name is its resolution; every non-still clip's folder exists; folders hold only non-still clips |
| Bucketing.StillsNeverMoved | Proxy_generator.py:34-35 | a still is in no resolution folder |
| Bucketing.OnlyStills | Proxy_generator.py:29 | with only stills, no folder is made and the timeline loop gets the empty list read at line 29 |
| Bucketing.ListedIsSnapshot | Proxy_generator.py:29-53 | the listed names are the folders present before the last non-still clip; they equal the final names, or miss exactly that clip's new folder |
| Bucketing.ListedAmongBuckets | Proxy_generator.py:36-53 | every listed name is the name of a folder that exists at the end |
| Bucketing.ClipsOf | Proxy_generator.py:54 | `GetClipList()` of the folder with a given name; `ClipsOfFirstNamed` states it is the clips of the first folder of that name and `ClipsOfBucket` that it is exactly the non-still clips of that resolution |
| Bucketing.ClipsOfBucket | Proxy_generator.py:54 | the clips of the folder named r are exactly the non-still clips of resolution r |
| Bucketing.LastNewFolderSkipped | Proxy_generator.py:29-53 | two video clips of different resolutions: both folders exist but only the first is listed |
| Bucketing.IntendedListing | Proxy_generator.py:53 | the listing read after the last clip names every non-still clip's folder, each once |
| Rendering.DictDisplay | Proxy_generator.py:72-78 | a Python dict display, a later entry overriding an earlier one with the same key; `DictDisplayKeys` and `DictDisplayLastWins` state its keys and values |
| Rendering.DictDisplayKeys | Proxy_generator.py:72-78 | a dict display's keys are the keys its entries name |
| Rendering.DictDisplayLastWins | Proxy_generator.py:72-78 | the value kept for a key is the one from its last entry |
| Rendering.RenderSettingsKeys | Proxy_generator.py:72-78 | the render settings have four keys; "TargetDir" written twice is one key |
| Rendering.RenderSettingsContents | Proxy_generator.py:72-78 | line 77 overrides line 74, so TargetDir is join(proxy root, date name); also frames, width and height |
| Rendering.RenderEntries | Proxy_generator.py:72-78 | the five dictionary entries of the `SetRenderSettings` call in order; `RenderSettingsKeys` and `RenderSettingsContents` state the dictionary they make |
| Rendering.TimelineSettings | Proxy_generator.py:66-68 | the three `SetSetting` calls; `JobSettings` states that width and height read back as 1920 and the proxy height |
| Rendering.JobFor | Proxy_generator.py:56-80 | one folder's timeline and job, or the exception; its contract is `JobForContents` and `JobSettings` |
| Rendering.JobForContents | Proxy_generator.py:53-62 | a folder's step queues a job iff its name gives a proxy size, else stops with that error; either way the timeline has the counter value and the folder's clips |
| Rendering.JobSettings | Proxy_generator.py:63-78 | a queued job's timeline is set to 1920 x height, and the render is 1920 x height into join(proxy root, date name) |
| Rendering.QueueTimelines | Proxy_generator.py:53-80 | the loop's result is `FolderJobs` from the counter's old value; the counter advances once per timeline created |
| Rendering.FolderJobs | Proxy_generator.py:53-80 | the timeline loop of one date folder from counter value start; its contract is `FolderJobsInOrder`, `FolderNumbering` and `DateFolderJobs` |
| Rendering.FolderJobsInOrder | Proxy_generator.py:53-80 | the jobs follow the listed names in order with counter values start+1, start+2, ...; the first failing name stops the loop |
| Rendering.Run | Proxy_generator.py:25-80 | the script's queued jobs and its exception, if any, are `RunJobs` from a fresh counter |
| Rendering.RunJobs | Proxy_generator.py:27-80 | the outer loop over the date folders; its contract is `RunNumbering`, `RunTimelineNamesUnique` and `RunJobCount` |
| Rendering.DateFolderJobs | Proxy_generator.py:53-80 | job k has timeline name `Video Resolution <name k>   #<start+k+1>`, exactly the non-still clips of that resolution, and target `join(proxy root, date name)`; all names get a job iff none raises |
| Rendering.SnapshotFolderJobs | Proxy_generator.py:29-80 | as written, job k holds exactly the non-still clips of the k-th snapshot name and carries counter value start+k+1 |
| Rendering.LastNewFolderGetsNoJob | Proxy_generator.py:29-80 | as written, when the last non-still clip makes a new resolution folder, that clip is in no render job's timeline |
| Rendering.SingleClipGetsNoJob | Proxy_generator.py:29-53 | as written, a date folder with one video clip gets its folder but no timeline and no job |
| Rendering.IntendedJobsCoverClips | Proxy_generator.py:53-80 | with the listing read after the last clip, a date folder that does not raise puts every non-still clip in exactly one job |
| Rendering.FolderNumbering | Proxy_generator.py:56 | the timelines of one date folder carry consecutive counter values; a raising timeline takes the next one |
| Rendering.RunNumbering | Proxy_generator.py:12-80 | over the whole run, job k's timeline carries counter value k + 1; a raising timeline takes the next one |
| Rendering.RunTimelineNamesUnique | Proxy_generator.py:56 | no two timelines of a run share a name |
| Rendering.RunJobCount | Proxy_generator.py:27-80 | a run that does not raise queues exactly one render job per listed folder, over all date folders |

## Left out

- Resolve API calls are not modelled as effects. This covers creating the project and folders, `AddItemListToMediaPool`, `MoveClips`, `SetCurrentFolder`, `CreateTimelineFromClips`, `SetSetting`, `LoadRenderPreset`, `SetRenderSettings`, `AddRenderJob`, `SaveProject` and `StartRendering`.
- What the script passes to those calls is modelled as data:
  - the imported clips are a parameter of `Run`;
  - a timeline is its name and clips;
  - a job is its `SetSetting` pairs and render-settings entries.
- A run that raises is modelled as an outcome with `stopped` set. The project is then not saved and rendering does not start.
- The `input()` prompts (lines 23-24) are parameters: the proxy root, and the footage sub-directories that `GetSubFolderList` returns.
- Folder order: `GetSubFolderList` is taken to return sub-folders in creation order. A fresh date folder (line 28) is taken to have no sub-folders at line 29.
- Dimensions.ProxyHeight: computed in exact rational arithmetic. The script's float division `intH / intW` and the float product `1920 * Aspect` can round differently near a half and at exact ties: for "768x25", 1920 * 25 / 768 is exactly 62.5, so the model gives 62, while the float product is 62.50000000000001, which rounds to 63.
- Dimensions.ProxyHeight: `intH / intW` raises `OverflowError` when H / W is too large for a float; the model has no such error and returns the exact rounded height.
- Strings.ParseNat: `int()` is modelled on ASCII digit strings only. Signs, whitespace and underscores, which `int()` also accepts, are treated as errors.
- Naming.JoinPath: models POSIX `os.path.join` with two arguments only.
- Strings.Split: `str.split` is modelled for one-character separators, the only ones used here.
- Clip identity: clips are identified by their index in the imported list. Folders are identified by their name, which is unique within a date folder. A folder in the line-36 snapshot therefore stands for the live folder, and its clips are read when the timeline is made.
- The load-preset call (line 70) precedes the settings and has no modelled effect. The settings written for each job are the five dictionary entries in order. `DictDisplay` gives the dictionary they make.
- Even proxy dimensions are not enforced: the script does not round the height to an even number.

## Findings

| source | as written | input that shows it | evidently intended | confidence | as-written member | corrected member |
|---|---|---|---|---|---|---|
| Proxy_generator.py:29-53 | `ResolutionFolderlist` is re-read at line 36 before the current clip's folder is created, and the timeline loop at line 53 uses that stale list | one date folder holding a single video clip "3840x2160": its folder is created and the clip moved into it, but no timeline or render job is made; with clips 1920x1080 then 3840x2160, only the first gets a job | the timeline loop goes through the sub-folders as they are after the last clip, so every video clip is rendered exactly once | high; not executed | Rendering.SingleClipGetsNoJob | Rendering.IntendedJobsCoverClips |

`Bucketing.LastNewFolderSkipped` and `Bucketing.ListedIsSnapshot` show the as-written listing. `Bucketing.IntendedListing` is the corrected listing. `Rendering.IntendedJobsCoverClips` proves that the timeline loop over the corrected listing renders every video clip exactly once when no folder name raises. `Rendering.LastNewFolderGetsNoJob` states the as-written half for all inputs: when the last video clip makes a new folder, that clip is in no job. `Run` keeps the listing as written.
