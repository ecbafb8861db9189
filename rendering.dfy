/**
 * The timeline and render-job loop of lines 53-80 and the date-folder loop of
 * lines 25-80 around it. Resolve's objects are replaced by records: a timeline
 * is its name and clips, a render job is that timeline with the settings the
 * script gives it. An exception at lines 59-62 ends the script there, so a run
 * is the list of jobs added and, if it stopped, the timeline and error it stopped on.
 */
module Rendering {
  import opened Results
  import opened Strings
  import opened Naming
  import opened Dimensions
  import opened Bucketing
  import opened Generator

  /** A value in the dictionary given to `SetRenderSettings`. */
  datatype Setting = Flag(flag: bool) | Text(text: string) | Number(number: int)

  /** `CreateTimelineFromClips(name, clips)` with the clips of one resolution folder. */
  datatype Timeline = Timeline(name: string, clips: seq<nat>)

  /**
   * One `AddRenderJob`: the timeline, its `SetSetting` calls in order (lines
   * 66-68), and the dictionary display given to `SetRenderSettings` (lines
   * 72-78) as written, entries in order; `DictDisplay` gives the dict Python builds from it.
   */
  datatype RenderJob = RenderJob(timeline: Timeline, timelineSettings: seq<(string, string)>, renderEntries: seq<(string, Setting)>)

  /** The timeline created at line 57 whose folder name then raised at lines 59-62. */
  datatype Stop = Stop(timeline: Timeline, error: DimensionError)

  /** What the script did: the render jobs it added, and where it stopped if it raised. */
  datatype Outcome = Outcome(jobs: seq<RenderJob>, stopped: Option<Stop>)

  /** Values taken from the counter: one per job, and one for the timeline that raised. */
  function Consumed(out: Outcome): nat
  {
    |out.jobs| + if out.stopped.Some? then 1 else 0
  }

  function Prepend(jobs: seq<RenderJob>, out: Outcome): Outcome
  {
    Outcome(jobs + out.jobs, out.stopped)
  }

  lemma PrependTwice(first: seq<RenderJob>, second: seq<RenderJob>, out: Outcome)
    ensures Prepend(first, Prepend(second, out)) == Prepend(first + second, out)
  {
    assert first + (second + out.jobs) == (first + second) + out.jobs;
  }

  /** A Python dict display: an entry overrides any earlier entry with the same key. */
  function DictDisplay(entries: seq<(string, Setting)>): map<string, Setting>
    decreases |entries|
  {
    if entries == [] then map[]
    else
      var n := |entries| - 1;
      DictDisplay(entries[..n])[entries[n].0 := entries[n].1]
  }

  /** The keys the entries of a dict display name. */
  function EntryKeys(entries: seq<(string, Setting)>): set<string>
  {
    set m | 0 <= m < |entries| :: entries[m].0
  }

  /** The keys of a dict display are exactly the keys its entries name. */
  lemma {:induction false} DictDisplayKeys(entries: seq<(string, Setting)>)
    ensures DictDisplay(entries).Keys == EntryKeys(entries)
    decreases |entries|
  {
    if entries != [] {
      var n := |entries| - 1;
      var front := entries[..n];
      DictDisplayKeys(front);
      assert EntryKeys(entries) == EntryKeys(front) + {entries[n].0} by {
        forall key | key in EntryKeys(entries)
          ensures key in EntryKeys(front) + {entries[n].0}
        {
          var m :| 0 <= m < |entries| && entries[m].0 == key;
          if m < n { assert front[m] == entries[m]; }
        }
      }
    }
  }

  /** The last entry with a given key is the one the dict keeps. */
  lemma {:induction false} DictDisplayLastWins(entries: seq<(string, Setting)>, k: nat)
    requires k < |entries|
    requires forall m :: k < m < |entries| ==> entries[m].0 != entries[k].0
    ensures entries[k].0 in DictDisplay(entries)
    ensures DictDisplay(entries)[entries[k].0] == entries[k].1
    decreases |entries|
  {
    var n := |entries| - 1;
    if k < n {
      var front := entries[..n];
      assert front[k] == entries[k];
      assert forall m :: k < m < |front| ==> front[m].0 != front[k].0 by {
        forall m | k < m < |front| ensures front[m].0 != front[k].0 {
          assert front[m] == entries[m];
        }
      }
      DictDisplayLastWins(front, k);
    }
  }

  /** The dictionary display of lines 72-78, with "TargetDir" written twice. */
  function RenderEntries(proxyRoot: string, dateFolderName: string, width: nat, height: nat): seq<(string, Setting)>
  {
    [("SelectAllFrames", Flag(true)),
     ("TargetDir", Text(proxyRoot)),
     ("FormatWidth", Number(width)),
     ("FormatHeight", Number(height)),
     ("TargetDir", Text(JoinPath(proxyRoot, dateFolderName)))]
  }

  /**
   * The render settings have four keys: "TargetDir" is written twice (lines
   * 74 and 77) but is one key.
   */
  lemma RenderSettingsKeys(proxyRoot: string, dateFolderName: string, width: nat, height: nat)
    ensures DictDisplay(RenderEntries(proxyRoot, dateFolderName, width, height)).Keys
         == {"SelectAllFrames", "TargetDir", "FormatWidth", "FormatHeight"}
  {
    var entries := RenderEntries(proxyRoot, dateFolderName, width, height);
    DictDisplayKeys(entries);
    assert EntryKeys(entries)
        == {"SelectAllFrames", "TargetDir", "FormatWidth", "FormatHeight"} by {
      assert entries[0].0 == "SelectAllFrames" && entries[1].0 == "TargetDir";
      assert entries[2].0 == "FormatWidth" && entries[3].0 == "FormatHeight";
    }
  }

  /**
   * The second "TargetDir" (line 77) overrides the first (line 74), so the
   * target is the date folder under the proxy root; the other keys keep their values.
   */
  lemma RenderSettingsContents(proxyRoot: string, dateFolderName: string, width: nat, height: nat)
    ensures var d := DictDisplay(RenderEntries(proxyRoot, dateFolderName, width, height));
      "TargetDir" in d && d["TargetDir"] == Text(JoinPath(proxyRoot, dateFolderName)) &&
      "SelectAllFrames" in d && d["SelectAllFrames"] == Flag(true) &&
      "FormatWidth" in d && d["FormatWidth"] == Number(width) &&
      "FormatHeight" in d && d["FormatHeight"] == Number(height)
  {
    var entries := RenderEntries(proxyRoot, dateFolderName, width, height);
    DictDisplayLastWins(entries, 0);
    DictDisplayLastWins(entries, 2);
    DictDisplayLastWins(entries, 3);
    DictDisplayLastWins(entries, 4);
  }

  /** The `SetSetting` calls of lines 66-68, in order: `Proxy_Width` is "1920" and `Proxy_Height` is `str(height)`. */
  function TimelineSettings(height: nat): seq<(string, string)>
  {
    [("useCustomSettings", "1"),
     ("timelineResolutionWidth", NatToString(ProxyWidth)),
     ("timelineResolutionHeight", NatToString(height))]
  }

  /**
   * Lines 56-80 for the folder `name` with counter value `n`: the timeline is
   * created, then either its size is set and its render job added, or lines
   * 59-62 raise.
   */
  function JobFor(folders: seq<Folder>, name: string, n: nat, proxyRoot: string, dateFolderName: string): Result<RenderJob, Stop>
  {
    var timeline := Timeline(TimelineName(name, n), ClipsOf(folders, name));
    match ProxySize(name)
    case Failure(e) => Failure(Stop(timeline, e))
    case Success((width, height)) =>
      Success(RenderJob(timeline, TimelineSettings(height), RenderEntries(proxyRoot, dateFolderName, width, height)))
  }

  /**
   * Lines 53-80 for one date folder: for each folder name in `listed`, take
   * the next counter value (start + 1 for the first) and make its job, until one raises.
   */
  function FolderJobs(folders: seq<Folder>, listed: seq<string>, start: nat, proxyRoot: string, dateFolderName: string): Outcome
    decreases |listed|
  {
    if listed == [] then Outcome([], None)
    else
      match JobFor(folders, listed[0], start + 1, proxyRoot, dateFolderName)
      case Failure(stop) => Outcome([], Some(stop))
      case Success(job) => Prepend([job], FolderJobs(folders, listed[1..], start + 1, proxyRoot, dateFolderName))
  }

  lemma FolderJobsFirst(folders: seq<Folder>, listed: seq<string>, start: nat, proxyRoot: string, dateFolderName: string)
    requires |listed| > 0
    ensures var step := JobFor(folders, listed[0], start + 1, proxyRoot, dateFolderName);
      FolderJobs(folders, listed, start, proxyRoot, dateFolderName)
      == if step.Failure? then Outcome([], Some(step.error))
         else Prepend([step.value], FolderJobs(folders, listed[1..], start + 1, proxyRoot, dateFolderName))
  {
  }

  /** One folder name's job appended to those already queued. */
  lemma QueueAdvance(folders: seq<Folder>, listed: seq<string>, k: nat, jobs: seq<RenderJob>, start: nat, proxyRoot: string, dateFolderName: string)
    requires k < |listed|
    ensures var step := JobFor(folders, listed[k], start + 1, proxyRoot, dateFolderName);
      Prepend(jobs, FolderJobs(folders, listed[k..], start, proxyRoot, dateFolderName))
      == if step.Failure? then Outcome(jobs, Some(step.error))
         else Prepend(jobs + [step.value], FolderJobs(folders, listed[k + 1..], start + 1, proxyRoot, dateFolderName))
  {
    assert listed[k..][1..] == listed[k + 1..];
    FolderJobsFirst(folders, listed[k..], start, proxyRoot, dateFolderName);
    var step := JobFor(folders, listed[k], start + 1, proxyRoot, dateFolderName);
    if step.Failure? {
      assert jobs + [] == jobs;
    } else {
      PrependTwice(jobs, [step.value], FolderJobs(folders, listed[k + 1..], start + 1, proxyRoot, dateFolderName));
    }
  }

  /**
   * Lines 53-80 for one date folder, drawing timeline numbers from the
   * run's generator `c`.
   */
  method QueueTimelines(c: Counter, folders: seq<Folder>, listed: seq<string>, proxyRoot: string, dateFolderName: string)
    returns (out: Outcome)
    modifies c
    ensures out == FolderJobs(folders, listed, old(c.i), proxyRoot, dateFolderName)
    ensures c.i == old(c.i) + Consumed(out)
  {
    var jobs: seq<RenderJob> := [];
    for k := 0 to |listed|
      invariant c.i == old(c.i) + k && |jobs| == k
      invariant FolderJobs(folders, listed, old(c.i), proxyRoot, dateFolderName)
             == Prepend(jobs, FolderJobs(folders, listed[k..], c.i, proxyRoot, dateFolderName))
    {
      QueueAdvance(folders, listed, k, jobs, c.i, proxyRoot, dateFolderName);
      var n := c.Next();
      var step := JobFor(folders, listed[k], n, proxyRoot, dateFolderName);
      if step.Failure? {
        return Outcome(jobs, Some(step.error));
      }
      jobs := jobs + [step.value];
    }
    assert listed[|listed|..] == [];
    out := Outcome(jobs, None);
  }

  /**
   * One folder's step: it adds a job exactly when the folder name gives a
   * proxy size, and otherwise stops with the error lines 59-62 raise. Either
   * way the timeline carries counter value n in its name and the folder's clips.
   */
  lemma JobForContents(folders: seq<Folder>, name: string, n: nat, proxyRoot: string, dateFolderName: string)
    ensures var r := JobFor(folders, name, n, proxyRoot, dateFolderName);
      (r.Success? <==> ProxySize(name).Success?) &&
      (r.Success? ==>
        r.value.timeline.name == TimelineName(name, n) &&
        CounterOf(r.value.timeline.name) == Some(n) &&
        r.value.timeline.clips == ClipsOf(folders, name)) &&
      (r.Failure? ==>
        r.error.error == ProxySize(name).error &&
        CounterOf(r.error.timeline.name) == Some(n) &&
        r.error.timeline.clips == ClipsOf(folders, name))
  {
    JobNumber(folders, name, n, proxyRoot, dateFolderName);
  }

  /**
   * The settings of a job that is made: the timeline is set to 1920 x the
   * proxy height, and the job renders at that size into the date folder
   * under the proxy root.
   */
  lemma JobSettings(folders: seq<Folder>, name: string, n: nat, proxyRoot: string, dateFolderName: string)
    requires JobFor(folders, name, n, proxyRoot, dateFolderName).Success?
    ensures var job := JobFor(folders, name, n, proxyRoot, dateFolderName).value;
      var height := ProxySize(name).value.1;
      |job.timelineSettings| == 3 &&
      job.timelineSettings[0] == ("useCustomSettings", "1") &&
      job.timelineSettings[1].0 == "timelineResolutionWidth" &&
      ParseNat(job.timelineSettings[1].1) == Some(ProxyWidth) &&
      job.timelineSettings[2].0 == "timelineResolutionHeight" &&
      ParseNat(job.timelineSettings[2].1) == Some(height) &&
      var settings := DictDisplay(job.renderEntries);
      "TargetDir" in settings && settings["TargetDir"] == Text(JoinPath(proxyRoot, dateFolderName)) &&
      "FormatWidth" in settings && settings["FormatWidth"] == Number(ProxyWidth) &&
      "FormatHeight" in settings && settings["FormatHeight"] == Number(height)
  {
    var height := ProxySize(name).value.1;
    RenderSettingsContents(proxyRoot, dateFolderName, ProxyWidth, height);
    ParseNatToString(ProxyWidth);
    ParseNatToString(height);
  }


  /**
   * The jobs for one date folder follow `listed` in order, one per folder
   * name, the k-th made with counter value start + k + 1, up to the first
   * name that raises, which takes the next value and ends the list.
   */
  lemma {:induction false} FolderJobsInOrder(folders: seq<Folder>, listed: seq<string>, start: nat, proxyRoot: string, dateFolderName: string)
    ensures var out := FolderJobs(folders, listed, start, proxyRoot, dateFolderName);
      |out.jobs| <= |listed| &&
      (out.stopped.None? <==> |out.jobs| == |listed|) &&
      (forall k :: 0 <= k < |out.jobs| ==>
        JobFor(folders, listed[k], start + k + 1, proxyRoot, dateFolderName) == Success(out.jobs[k])) &&
      (out.stopped.Some? ==>
        JobFor(folders, listed[|out.jobs|], start + |out.jobs| + 1, proxyRoot, dateFolderName) == Failure(out.stopped.value))
    decreases |listed|
  {
    var out := FolderJobs(folders, listed, start, proxyRoot, dateFolderName);
    FolderJobsLength(folders, listed, start, proxyRoot, dateFolderName);
    forall k | 0 <= k < |out.jobs|
      ensures JobFor(folders, listed[k], start + k + 1, proxyRoot, dateFolderName) == Success(out.jobs[k])
    {
      FolderJobAt(folders, listed, start, proxyRoot, dateFolderName, k);
    }
  }

  lemma {:induction false} FolderJobsLength(folders: seq<Folder>, listed: seq<string>, start: nat, proxyRoot: string, dateFolderName: string)
    ensures var out := FolderJobs(folders, listed, start, proxyRoot, dateFolderName);
      |out.jobs| <= |listed| &&
      (out.stopped.None? <==> |out.jobs| == |listed|) &&
      (out.stopped.Some? ==>
        JobFor(folders, listed[|out.jobs|], start + |out.jobs| + 1, proxyRoot, dateFolderName) == Failure(out.stopped.value))
    decreases |listed|
  {
    if listed != [] {
      FolderJobsFirst(folders, listed, start, proxyRoot, dateFolderName);
      var step := JobFor(folders, listed[0], start + 1, proxyRoot, dateFolderName);
      if step.Success? {
        var rest := FolderJobs(folders, listed[1..], start + 1, proxyRoot, dateFolderName);
        FolderJobsLength(folders, listed[1..], start + 1, proxyRoot, dateFolderName);
        if rest.stopped.Some? {
          assert listed[1 + |rest.jobs|] == listed[1..][|rest.jobs|];
        }
      }
    }
  }

  lemma {:induction false} FolderJobAt(folders: seq<Folder>, listed: seq<string>, start: nat, proxyRoot: string, dateFolderName: string, k: nat)
    requires k < |FolderJobs(folders, listed, start, proxyRoot, dateFolderName).jobs|
    ensures k < |listed|
    ensures JobFor(folders, listed[k], start + k + 1, proxyRoot, dateFolderName)
         == Success(FolderJobs(folders, listed, start, proxyRoot, dateFolderName).jobs[k])
    decreases k
  {
    if k > 0 {
      FolderJobAt(folders, listed[1..], start + 1, proxyRoot, dateFolderName, k - 1);
    }
  }

  /**
   * Lines 25-80 and the end of the script: for each footage sub-directory (with
   * the clips importing it gave), bucket the clips and queue the timelines; the
   * first exception ends the run, and only a run that does not raise reaches
   * `SaveProject` and `StartRendering`.
   */
  function RunJobs(datePaths: seq<string>, imports: seq<seq<Clip>>, proxyRoot: string, start: nat): Outcome
    requires |imports| == |datePaths|
    decreases |datePaths|
  {
    if datePaths == [] then Outcome([], None)
    else
      var clips := imports[0];
      var out := FolderJobs(Buckets(clips), Listed(clips), start, proxyRoot, DateFolderName(datePaths[0]));
      if out.stopped.Some? then out
      else Prepend(out.jobs, RunJobs(datePaths[1..], imports[1..], proxyRoot, start + |out.jobs|))
  }

  lemma RunJobsFirst(datePaths: seq<string>, imports: seq<seq<Clip>>, proxyRoot: string, start: nat)
    requires |imports| == |datePaths| > 0
    ensures var out := FolderJobs(Buckets(imports[0]), Listed(imports[0]), start, proxyRoot, DateFolderName(datePaths[0]));
      RunJobs(datePaths, imports, proxyRoot, start)
      == if out.stopped.Some? then out
         else Prepend(out.jobs, RunJobs(datePaths[1..], imports[1..], proxyRoot, start + |out.jobs|))
  {
  }

  /** One date folder's jobs appended to those already queued. */
  lemma RunAdvance(datePaths: seq<string>, imports: seq<seq<Clip>>, proxyRoot: string, k: nat, jobs: seq<RenderJob>, start: nat)
    requires |imports| == |datePaths| && k < |datePaths|
    ensures var step := FolderJobs(Buckets(imports[k]), Listed(imports[k]), start, proxyRoot, DateFolderName(datePaths[k]));
      Prepend(jobs, RunJobs(datePaths[k..], imports[k..], proxyRoot, start))
      == if step.stopped.Some? then Outcome(jobs + step.jobs, step.stopped)
         else Prepend(jobs + step.jobs, RunJobs(datePaths[k + 1..], imports[k + 1..], proxyRoot, start + |step.jobs|))
  {
    var step := FolderJobs(Buckets(imports[k]), Listed(imports[k]), start, proxyRoot, DateFolderName(datePaths[k]));
    assert datePaths[k..][1..] == datePaths[k + 1..] && imports[k..][1..] == imports[k + 1..];
    RunJobsFirst(datePaths[k..], imports[k..], proxyRoot, start);
    PrependTwice(jobs, step.jobs, RunJobs(datePaths[k + 1..], imports[k + 1..], proxyRoot, start + |step.jobs|));
  }

  /**
   * The whole script over the footage sub-directories `datePaths`, where
   * `imports[k]` stands for what `AddItemListToMediaPool(datePaths[k])` returned.
   */
  method Run(datePaths: seq<string>, imports: seq<seq<Clip>>, proxyRoot: string) returns (out: Outcome)
    requires |imports| == |datePaths|
    ensures out == RunJobs(datePaths, imports, proxyRoot, 0)
  {
    var c := new Counter();
    var jobs: seq<RenderJob> := [];
    for k := 0 to |datePaths|
      invariant RunJobs(datePaths, imports, proxyRoot, 0) == Prepend(jobs, RunJobs(datePaths[k..], imports[k..], proxyRoot, c.i))
    {
      ghost var before := c.i;
      var folders, listed := BucketByResolution(imports[k]);
      var step := QueueTimelines(c, folders, listed, proxyRoot, DateFolderName(datePaths[k]));
      assert step == FolderJobs(Buckets(imports[k]), Listed(imports[k]), before, proxyRoot, DateFolderName(datePaths[k]));
      RunAdvance(datePaths, imports, proxyRoot, k, jobs, before);
      jobs := jobs + step.jobs;
      if step.stopped.Some? {
        return Outcome(jobs, step.stopped);
      }
      assert c.i == before + |step.jobs|;
    }
    assert datePaths[|datePaths|..] == [];
    out := Outcome(jobs, None);
  }

  /**
   * For one date folder whose timeline loop goes through `listed`, names of
   * sub-folders that exist: the k-th job's timeline carries counter value
   * start + k + 1, holds exactly the non-still clips whose resolution is the
   * k-th name, and renders into the date folder's name under the proxy root.
   */
  lemma DateFolderJobs(clips: seq<Clip>, listed: seq<string>, start: nat, proxyRoot: string, datePath: string)
    requires forall name :: name in listed ==> name in Names(Buckets(clips))
    ensures var out := FolderJobs(Buckets(clips), listed, start, proxyRoot, DateFolderName(datePath));
      |out.jobs| <= |listed| &&
      (out.stopped.None? <==> |out.jobs| == |listed|) &&
      forall k :: 0 <= k < |out.jobs| ==>
        out.jobs[k].timeline.name == TimelineName(listed[k], start + k + 1) &&
        CounterOf(out.jobs[k].timeline.name) == Some(start + k + 1) &&
        (forall i :: i in out.jobs[k].timeline.clips <==>
          0 <= i < |clips| && !IsStill(clips[i]) && clips[i].resolution == listed[k]) &&
        var settings := DictDisplay(out.jobs[k].renderEntries);
        "TargetDir" in settings && settings["TargetDir"] == Text(TargetDir(proxyRoot, datePath))
  {
    var folders := Buckets(clips);
    var name := DateFolderName(datePath);
    var out := FolderJobs(folders, listed, start, proxyRoot, name);
    FolderJobsInOrder(folders, listed, start, proxyRoot, name);
    FolderNumbering(folders, listed, start, proxyRoot, name);
    forall k | 0 <= k < |out.jobs|
      ensures out.jobs[k].timeline.name == TimelineName(listed[k], start + k + 1)
      ensures forall i :: i in out.jobs[k].timeline.clips <==>
          0 <= i < |clips| && !IsStill(clips[i]) && clips[i].resolution == listed[k]
      ensures var settings := DictDisplay(out.jobs[k].renderEntries);
        "TargetDir" in settings && settings["TargetDir"] == Text(TargetDir(proxyRoot, datePath))
    {
      JobForContents(folders, listed[k], start + k + 1, proxyRoot, name);
      JobSettings(folders, listed[k], start + k + 1, proxyRoot, name);
      ClipsOfBucket(clips, listed[k]);
    }
  }

  /**
   * As written, the jobs of a date folder go through the snapshot list: each
   * job holds the clips of one sub-folder that exists, numbered in order.
   */
  lemma SnapshotFolderJobs(clips: seq<Clip>, start: nat, proxyRoot: string, datePath: string)
    ensures var out := FolderJobs(Buckets(clips), Listed(clips), start, proxyRoot, DateFolderName(datePath));
      |out.jobs| <= |Listed(clips)| &&
      (out.stopped.None? <==> |out.jobs| == |Listed(clips)|) &&
      forall k :: 0 <= k < |out.jobs| ==>
        CounterOf(out.jobs[k].timeline.name) == Some(start + k + 1) &&
        forall i :: i in out.jobs[k].timeline.clips <==>
          0 <= i < |clips| && !IsStill(clips[i]) && clips[i].resolution == Listed(clips)[k]
  {
    ListedAmongBuckets(clips);
    DateFolderJobs(clips, Listed(clips), start, proxyRoot, datePath);
  }

  /**
   * As written, when the last non-still clip k makes a new resolution folder,
   * that folder is not listed, so clip k is in no job's timeline.
   */
  lemma LastNewFolderGetsNoJob(clips: seq<Clip>, k: nat, start: nat, proxyRoot: string, datePath: string)
    requires k < |clips| && !IsStill(clips[k])
    requires forall i :: k < i < |clips| ==> IsStill(clips[i])
    requires clips[k].resolution !in Listed(clips)
    ensures var out := FolderJobs(Buckets(clips), Listed(clips), start, proxyRoot, DateFolderName(datePath));
      forall j :: 0 <= j < |out.jobs| ==> k !in out.jobs[j].timeline.clips
  {
    SnapshotFolderJobs(clips, start, proxyRoot, datePath);
    var out := FolderJobs(Buckets(clips), Listed(clips), start, proxyRoot, DateFolderName(datePath));
    forall j | 0 <= j < |out.jobs|
      ensures k !in out.jobs[j].timeline.clips
    {
      assert Listed(clips)[j] in Listed(clips);
    }
  }

  /**
   * As written, a date folder holding a single video clip gets its resolution
   * folder, with the clip in it, but no timeline and no render job.
   */
  lemma SingleClipGetsNoJob(start: nat, proxyRoot: string, datePath: string)
    ensures var clips := [Clip("3840x2160", "Video")];
      Buckets(clips) == [Folder("3840x2160", [0])] &&
      FolderJobs(Buckets(clips), Listed(clips), start, proxyRoot, DateFolderName(datePath)) == Outcome([], None)
  {
    var clips := [Clip("3840x2160", "Video")];
    assert clips[..0] == [];
  }

  /** The clip with index i is in the timeline of one job and of no other. */
  predicate InExactlyOneJob(jobs: seq<RenderJob>, i: nat)
  {
    exists k :: 0 <= k < |jobs| && i in jobs[k].timeline.clips &&
      forall m :: 0 <= m < |jobs| && i in jobs[m].timeline.clips ==> m == k
  }

  /**
   * With the sub-folder list read after the last clip, a date folder whose
   * jobs are all made renders every video clip: each non-still clip is in
   * exactly one job's timeline, the one for its resolution.
   */
  lemma IntendedJobsCoverClips(clips: seq<Clip>, start: nat, proxyRoot: string, datePath: string)
    ensures var listed := IntendedListing(clips);
      var out := FolderJobs(Buckets(clips), listed, start, proxyRoot, DateFolderName(datePath));
      out.stopped.None? ==>
        |out.jobs| == |listed| &&
        forall i :: 0 <= i < |clips| && !IsStill(clips[i]) ==> InExactlyOneJob(out.jobs, i)
  {
    var listed := IntendedListing(clips);
    var out := FolderJobs(Buckets(clips), listed, start, proxyRoot, DateFolderName(datePath));
    DateFolderJobs(clips, listed, start, proxyRoot, datePath);
    if out.stopped.None? {
      forall i | 0 <= i < |clips| && !IsStill(clips[i])
        ensures InExactlyOneJob(out.jobs, i)
      {
        var k :| 0 <= k < |listed| && listed[k] == clips[i].resolution;
        assert i in out.jobs[k].timeline.clips;
        forall m | 0 <= m < |out.jobs| && i in out.jobs[m].timeline.clips
          ensures m == k
        {
          assert listed[m] == listed[k];
        }
      }
    }
  }

  /**
   * The timelines of `out` carry the counter values start + 1, start + 2, ...
   * in order, and the timeline that raised, if any, the next one.
   */
  predicate NumberedFrom(out: Outcome, start: nat)
  {
    (forall k :: 0 <= k < |out.jobs| ==> CounterOf(out.jobs[k].timeline.name) == Some(start + k + 1)) &&
    (out.stopped.Some? ==> CounterOf(out.stopped.value.timeline.name) == Some(start + |out.jobs| + 1))
  }

  lemma PrependNumbered(first: seq<RenderJob>, out: Outcome, start: nat)
    requires NumberedFrom(Outcome(first, None), start)
    requires NumberedFrom(out, start + |first|)
    ensures NumberedFrom(Prepend(first, out), start)
  {
    var jobs := Prepend(first, out).jobs;
    forall k | |first| <= k < |jobs|
      ensures CounterOf(jobs[k].timeline.name) == Some(start + k + 1)
    {
      assert jobs[k] == out.jobs[k - |first|];
    }
  }

  /** The timeline made for counter value n reads back as n, whether its job is made or it raises. */
  lemma JobNumber(folders: seq<Folder>, name: string, n: nat, proxyRoot: string, dateFolderName: string)
    ensures var r := JobFor(folders, name, n, proxyRoot, dateFolderName);
      (r.Success? ==> CounterOf(r.value.timeline.name) == Some(n)) &&
      (r.Failure? ==> CounterOf(r.error.timeline.name) == Some(n))
  {
    CounterOfTimelineName(name, n);
  }

  /** The counter values taken by the timelines of one date folder, in order. */
  lemma {:induction false} FolderNumbering(folders: seq<Folder>, listed: seq<string>, start: nat, proxyRoot: string, dateFolderName: string)
    ensures NumberedFrom(FolderJobs(folders, listed, start, proxyRoot, dateFolderName), start)
    decreases |listed|
  {
    if listed != [] {
      FolderJobsFirst(folders, listed, start, proxyRoot, dateFolderName);
      JobNumber(folders, listed[0], start + 1, proxyRoot, dateFolderName);
      var step := JobFor(folders, listed[0], start + 1, proxyRoot, dateFolderName);
      if step.Success? {
        FolderNumbering(folders, listed[1..], start + 1, proxyRoot, dateFolderName);
        PrependNumbered([step.value], FolderJobs(folders, listed[1..], start + 1, proxyRoot, dateFolderName), start);
      }
    }
  }

  /**
   * Counter values taken over a run starting at `start`: the k-th job of
   * the whole run, over all date folders, is numbered start + k + 1, and the
   * timeline that raised, if any, the next number.
   */
  lemma {:induction false} RunNumbering(datePaths: seq<string>, imports: seq<seq<Clip>>, proxyRoot: string, start: nat)
    requires |imports| == |datePaths|
    ensures NumberedFrom(RunJobs(datePaths, imports, proxyRoot, start), start)
    decreases |datePaths|
  {
    if datePaths != [] {
      var first := FolderJobs(Buckets(imports[0]), Listed(imports[0]), start, proxyRoot, DateFolderName(datePaths[0]));
      RunJobsFirst(datePaths, imports, proxyRoot, start);
      FolderNumbering(Buckets(imports[0]), Listed(imports[0]), start, proxyRoot, DateFolderName(datePaths[0]));
      if first.stopped.None? {
        RunNumbering(datePaths[1..], imports[1..], proxyRoot, start + |first.jobs|);
        PrependNumbered(first.jobs, RunJobs(datePaths[1..], imports[1..], proxyRoot, start + |first.jobs|), start);
      }
    }
  }

  /** No two timelines of a run share a name: each takes its own counter value. */
  lemma RunTimelineNamesUnique(datePaths: seq<string>, imports: seq<seq<Clip>>, proxyRoot: string)
    requires |imports| == |datePaths|
    ensures var jobs := RunJobs(datePaths, imports, proxyRoot, 0).jobs;
      forall j, k :: 0 <= j < k < |jobs| ==> jobs[j].timeline.name != jobs[k].timeline.name
  {
    RunNumbering(datePaths, imports, proxyRoot, 0);
  }

  /** The number of folders the timeline loop goes through over all date folders. */
  function ListedCount(imports: seq<seq<Clip>>): nat
  {
    if imports == [] then 0 else |Listed(imports[0])| + ListedCount(imports[1..])
  }

  /**
   * A run that does not raise adds exactly one render job per folder name in
   * each date folder's list, and so takes that many counter values.
   */
  lemma {:induction false} RunJobCount(datePaths: seq<string>, imports: seq<seq<Clip>>, proxyRoot: string, start: nat)
    requires |imports| == |datePaths|
    ensures var out := RunJobs(datePaths, imports, proxyRoot, start);
      |out.jobs| <= ListedCount(imports) &&
      (out.stopped.None? <==> |out.jobs| == ListedCount(imports))
    decreases |datePaths|
  {
    if datePaths != [] {
      var clips := imports[0];
      var name := DateFolderName(datePaths[0]);
      var first := FolderJobs(Buckets(clips), Listed(clips), start, proxyRoot, name);
      FolderJobsLength(Buckets(clips), Listed(clips), start, proxyRoot, name);
      if first.stopped.None? {
        RunJobCount(datePaths[1..], imports[1..], proxyRoot, start + |first.jobs|);
      } else {
        ListedCountAtLeast(imports);
      }
    }
  }

  lemma ListedCountAtLeast(imports: seq<seq<Clip>>)
    requires imports != []
    ensures ListedCount(imports) >= |Listed(imports[0])|
  {
  }
}
