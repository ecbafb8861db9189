/**
 * The per-date-folder loop of lines 29-50: every imported clip that is not a
 * still is moved into a sub-folder named by its resolution, created the first
 * time that resolution appears. The script also keeps `ResolutionFolderlist`,
 * the date folder's sub-folder list as it was read at line 29 and re-read at
 * line 36 before each non-still clip; that list, not the final one, is what
 * the timeline loop at line 53 goes through.
 *
 * Clips are identified by their index in the imported list, and folders by
 * their name (names are unique, as BucketsAreWellFormed shows), so a folder
 * in a snapshot stands for the live folder: its clips are read when used.
 */
module Bucketing {

  /** The two clip properties the script reads (lines 33-34). */
  datatype Clip = Clip(resolution: string, kind: string)

  predicate IsStill(c: Clip)
  {
    c.kind == "Still"
  }

  /** A resolution sub-folder: its name and the indices of the clips moved into it, in the order they were moved. */
  datatype Folder = Folder(name: string, clips: seq<nat>)

  /** `[f.GetName() for f in folders]` (line 37). */
  function Names(folders: seq<Folder>): seq<string>
  {
    seq(|folders|, j requires 0 <= j < |folders| => folders[j].name)
  }

  /** The index of the first folder with the given name: `[f for f in folders if f.GetName() == name][0]` (line 46). */
  function FirstNamed(folders: seq<Folder>, name: string): (j: nat)
    requires name in Names(folders)
    ensures j < |folders| && folders[j].name == name
    ensures forall k :: 0 <= k < j ==> folders[k].name != name
    decreases |folders|
  {
    if folders[0].name == name then 0
    else
      assert name in Names(folders[1..]) by {
        var k :| 0 <= k < |folders| && Names(folders)[k] == name;
        assert Names(folders[1..])[k - 1] == name;
      }
      1 + FirstNamed(folders[1..], name)
  }

  /** Lines 38-50 for the non-still clip with index i: reuse the folder named `resolution`, or create it. */
  function Place(folders: seq<Folder>, i: nat, resolution: string): seq<Folder>
  {
    if resolution !in Names(folders) then folders + [Folder(resolution, [i])]
    else
      var j := FirstNamed(folders, resolution);
      folders[j := Folder(folders[j].name, folders[j].clips + [i])]
  }

  /** The date folder's resolution sub-folders after the loop of lines 32-50 has seen `clips`. */
  function Buckets(clips: seq<Clip>): seq<Folder>
    decreases |clips|
  {
    if clips == [] then []
    else
      var n := |clips| - 1;
      var before := Buckets(clips[..n]);
      if IsStill(clips[n]) then before else Place(before, n, clips[n].resolution)
  }

  /**
   * The names in `ResolutionFolderlist` after the loop has seen `clips`: the
   * sub-folders present just before the last non-still clip was handled, or
   * those of the fresh date folder (none) when every clip is a still.
   */
  function Listed(clips: seq<Clip>): seq<string>
    decreases |clips|
  {
    if clips == [] then []
    else
      var n := |clips| - 1;
      if IsStill(clips[n]) then Listed(clips[..n]) else Names(Buckets(clips[..n]))
  }

  /**
   * Lines 29-50 for one date folder, over the clips imported into it. Returns
   * the sub-folders built and the names in `ResolutionFolderlist` at the end.
   */
  method BucketByResolution(clips: seq<Clip>) returns (folders: seq<Folder>, listed: seq<string>)
    ensures folders == Buckets(clips)
    ensures listed == Listed(clips)
  {
    // The date folder was just created (line 28), so line 29 reads no sub-folders.
    folders, listed := [], [];
    for i := 0 to |clips|
      invariant folders == Buckets(clips[..i])
      invariant listed == Listed(clips[..i])
    {
      assert clips[..i + 1][..i] == clips[..i];
      var clip := clips[i];
      if clip.kind != "Still" {
        listed := Names(folders);
        if clip.resolution !in listed {
          folders := folders + [Folder(clip.resolution, [i])];
        } else {
          var j := FirstNamed(folders, clip.resolution);
          folders := folders[j := Folder(folders[j].name, folders[j].clips + [i])];
        }
      }
    }
    assert clips[..|clips|] == clips;
  }

  ghost predicate UniqueNames(folders: seq<Folder>)
  {
    forall j, k :: 0 <= j < k < |folders| ==> folders[j].name != folders[k].name
  }

  /**
   * What the bucketing loop guarantees about `folders` after seeing `clips`:
   * names are unique, and a clip index is in a folder exactly when it is a
   * non-still clip whose resolution is that folder's name.
   */
  ghost predicate Bucketed(clips: seq<Clip>, folders: seq<Folder>)
  {
    UniqueNames(folders) &&
    (forall j, i {:trigger i in folders[j].clips} :: 0 <= j < |folders| ==>
      (i in folders[j].clips <==>
        0 <= i < |clips| && !IsStill(clips[i]) && clips[i].resolution == folders[j].name)) &&
    (forall i :: 0 <= i < |clips| && !IsStill(clips[i]) ==> clips[i].resolution in Names(folders))
  }

  lemma PlaceKeepsBucketed(clips: seq<Clip>, folders: seq<Folder>, c: Clip)
    requires Bucketed(clips, folders)
    requires !IsStill(c)
    ensures Bucketed(clips + [c], Place(folders, |clips|, c.resolution))
  {
    var n := |clips|;
    var all := clips + [c];
    var after := Place(folders, n, c.resolution);
    if c.resolution !in Names(folders) {
      assert forall j :: 0 <= j < |folders| ==> folders[j].name == Names(folders)[j];
      forall j, i | 0 <= j < |after|
        ensures i in after[j].clips <==>
          0 <= i < |all| && !IsStill(all[i]) && all[i].resolution == after[j].name
      {
        if j < |folders| {
          assert after[j] == folders[j];
          if 0 <= i < n { assert all[i] == clips[i]; }
        } else {
          assert after[j] == Folder(c.resolution, [n]);
          if 0 <= i < n { assert all[i] == clips[i]; }
        }
      }
      forall i | 0 <= i < |all| && !IsStill(all[i]) ensures all[i].resolution in Names(after) {
        assert Names(after)[|folders|] == c.resolution;
        if i < n {
          assert all[i] == clips[i];
          var k :| 0 <= k < |folders| && Names(folders)[k] == clips[i].resolution;
          assert Names(after)[k] == clips[i].resolution;
        }
      }
    } else {
      var j0 := FirstNamed(folders, c.resolution);
      assert Names(after) == Names(folders);
      forall j, i | 0 <= j < |after|
        ensures i in after[j].clips <==>
          0 <= i < |all| && !IsStill(all[i]) && all[i].resolution == after[j].name
      {
        if 0 <= i < n { assert all[i] == clips[i]; }
        if j != j0 {
          assert after[j] == folders[j];
        }
      }
      forall i | 0 <= i < |all| && !IsStill(all[i]) ensures all[i].resolution in Names(after) {
        if i < n { assert all[i] == clips[i]; }
      }
    }
  }

  lemma {:induction false} BucketsBucketed(clips: seq<Clip>)
    ensures Bucketed(clips, Buckets(clips))
    decreases |clips|
  {
    if clips != [] {
      var n := |clips| - 1;
      BucketsBucketed(clips[..n]);
      assert clips[..n] + [clips[n]] == clips;
      if IsStill(clips[n]) {
        var f := Buckets(clips);
        forall j, i | 0 <= j < |f|
          ensures i in f[j].clips <==>
            0 <= i < |clips| && !IsStill(clips[i]) && clips[i].resolution == f[j].name
        {
          if 0 <= i < n { assert clips[..n][i] == clips[i]; }
        }
        forall i | 0 <= i < |clips| && !IsStill(clips[i]) ensures clips[i].resolution in Names(f) {
          assert clips[..n][i] == clips[i];
        }
      } else {
        PlaceKeepsBucketed(clips[..n], Buckets(clips[..n]), clips[n]);
      }
    }
  }

  /**
   * After bucketing, folder names are unique, every non-still clip is in
   * exactly one folder, the one named by its resolution, and a folder holds
   * nothing else.
   */
  lemma BucketsAreWellFormed(clips: seq<Clip>)
    ensures var folders := Buckets(clips);
      UniqueNames(folders) &&
      (forall i, j :: 0 <= i < |clips| && !IsStill(clips[i]) && 0 <= j < |folders| ==>
        (i in folders[j].clips <==> folders[j].name == clips[i].resolution)) &&
      (forall i :: 0 <= i < |clips| && !IsStill(clips[i]) ==>
        exists j :: 0 <= j < |folders| && folders[j].name == clips[i].resolution) &&
      (forall j, i :: 0 <= j < |folders| && i in folders[j].clips ==>
        0 <= i < |clips| && !IsStill(clips[i]))
  {
    BucketsBucketed(clips);
    var folders := Buckets(clips);
    forall i | 0 <= i < |clips| && !IsStill(clips[i])
      ensures exists j :: 0 <= j < |folders| && folders[j].name == clips[i].resolution
    {
      var j :| 0 <= j < |folders| && Names(folders)[j] == clips[i].resolution;
      assert folders[j].name == clips[i].resolution;
    }
  }

  /** A still is never moved into any resolution folder (lines 34-35). */
  lemma StillsNeverMoved(clips: seq<Clip>, i: nat)
    requires i < |clips| && IsStill(clips[i])
    ensures forall j :: 0 <= j < |Buckets(clips)| ==> i !in Buckets(clips)[j].clips
  {
    BucketsBucketed(clips);
  }

  lemma NamesAfterPlace(folders: seq<Folder>, i: nat, resolution: string)
    ensures resolution in Names(folders) ==> Names(Place(folders, i, resolution)) == Names(folders)
    ensures resolution !in Names(folders) ==> Names(Place(folders, i, resolution)) == Names(folders) + [resolution]
  {
  }

  /** Stills after position k change neither the folders nor the snapshot. */
  lemma {:induction false} TrailingStillsChangeNothing(clips: seq<Clip>, k: nat)
    requires k < |clips|
    requires forall i :: k < i < |clips| ==> IsStill(clips[i])
    ensures Buckets(clips) == Buckets(clips[..k + 1])
    ensures Listed(clips) == Listed(clips[..k + 1])
    decreases |clips|
  {
    if |clips| > k + 1 {
      var n := |clips| - 1;
      assert clips[..n][..k + 1] == clips[..k + 1];
      TrailingStillsChangeNothing(clips[..n], k);
    } else {
      assert clips[..k + 1] == clips;
    }
  }

  /** A date folder holding only stills gets no sub-folder, and the loop of line 53 uses the empty list read at line 29. */
  lemma {:induction false} OnlyStills(clips: seq<Clip>)
    requires forall i :: 0 <= i < |clips| ==> IsStill(clips[i])
    ensures Buckets(clips) == [] && Listed(clips) == []
    decreases |clips|
  {
    if clips != [] {
      var n := |clips| - 1;
      OnlyStills(clips[..n]);
    }
  }

  /**
   * The list the timeline loop goes through is the sub-folder list read just
   * before the last non-still clip (index k) was handled. It misses the final
   * list by exactly the folder that clip created, if it created one.
   */
  lemma ListedIsSnapshot(clips: seq<Clip>, k: nat)
    requires k < |clips| && !IsStill(clips[k])
    requires forall i :: k < i < |clips| ==> IsStill(clips[i])
    ensures Listed(clips) == Names(Buckets(clips[..k]))
    ensures clips[k].resolution in Listed(clips) ==> Names(Buckets(clips)) == Listed(clips)
    ensures clips[k].resolution !in Listed(clips) ==> Names(Buckets(clips)) == Listed(clips) + [clips[k].resolution]
  {
    TrailingStillsChangeNothing(clips, k);
    var front := clips[..k + 1];
    assert front[..k] == clips[..k];
    NamesAfterPlace(Buckets(clips[..k]), k, clips[k].resolution);
  }

  /** Two video clips of different resolutions: both folders are made, but the list used for timelines holds only the first. */
  lemma LastNewFolderSkipped()
    ensures var clips := [Clip("1920x1080", "Video"), Clip("3840x2160", "Video")];
      Names(Buckets(clips)) == ["1920x1080", "3840x2160"] && Listed(clips) == ["1920x1080"]
  {
    var clips := [Clip("1920x1080", "Video"), Clip("3840x2160", "Video")];
    assert clips[..1] == [clips[0]];
    assert clips[..1][..0] == [];
    assert Names([Folder("1920x1080", [0])]) == ["1920x1080"];
    ListedIsSnapshot(clips, 1);
  }

  /**
   * The sub-folder list the timeline loop was evidently meant to go through:
   * the one read after the last clip, which names every non-still clip's folder once.
   */
  function IntendedListing(clips: seq<Clip>): (names: seq<string>)
    ensures forall i :: 0 <= i < |clips| && !IsStill(clips[i]) ==> clips[i].resolution in names
    ensures forall j, k :: 0 <= j < k < |names| ==> names[j] != names[k]
  {
    BucketsBucketed(clips);
    Names(Buckets(clips))
  }

  /** Every name in the list the timeline loop uses is the name of a sub-folder that exists. */
  lemma {:induction false} ListedAmongBuckets(clips: seq<Clip>)
    ensures forall name :: name in Listed(clips) ==> name in Names(Buckets(clips))
    decreases |clips|
  {
    if clips != [] {
      var n := |clips| - 1;
      ListedAmongBuckets(clips[..n]);
      if !IsStill(clips[n]) {
        NamesAfterPlace(Buckets(clips[..n]), n, clips[n].resolution);
      }
    }
  }

  /** `ResolutionFolder.GetClipList()` (line 54) for a folder known by name. */
  function ClipsOf(folders: seq<Folder>, name: string): seq<nat>
  {
    if folders == [] then []
    else if folders[0].name == name then folders[0].clips
    else ClipsOf(folders[1..], name)
  }

  /** The lookup finds the first sub-folder of that name. */
  lemma {:induction false} ClipsOfFirstNamed(folders: seq<Folder>, name: string)
    requires name in Names(folders)
    ensures ClipsOf(folders, name) == folders[FirstNamed(folders, name)].clips
    decreases |folders|
  {
    if folders[0].name != name {
      assert name in Names(folders[1..]) by {
        var j :| 0 <= j < |folders| && folders[j].name == name;
        assert Names(folders[1..])[j - 1] == name;
      }
      ClipsOfFirstNamed(folders[1..], name);
    }
  }

  /**
   * The clips of the sub-folder named `name` are exactly the non-still clips
   * whose resolution is `name`.
   */
  lemma ClipsOfBucket(clips: seq<Clip>, name: string)
    requires name in Names(Buckets(clips))
    ensures forall i :: i in ClipsOf(Buckets(clips), name) <==>
      0 <= i < |clips| && !IsStill(clips[i]) && clips[i].resolution == name
  {
    ClipsOfFirstNamed(Buckets(clips), name);
    BucketClips(clips, FirstNamed(Buckets(clips), name));
  }

  lemma BucketClips(clips: seq<Clip>, j: int)
    requires 0 <= j < |Buckets(clips)|
    ensures forall i :: i in Buckets(clips)[j].clips <==>
      0 <= i < |clips| && !IsStill(clips[i]) && clips[i].resolution == Buckets(clips)[j].name
  {
    BucketsBucketed(clips);
  }
}
