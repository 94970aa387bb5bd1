/**
 * The background job of video_app/tasks.py. A `Worker` holds the persisted
 * video rows, the media directory tree and a log of the effects the job has
 * produced (saves, directory creation, file copies and deletions, transcoder
 * runs). Each step of the job is one method; the external transcoder is an
 * exit-code oracle `exitCode(inputPath, resolution)`.
 */
module Tasks {
  import opened Wrappers
  import opened Text
  import opened FileSystem
  import opened Videos

  /** `processed/` sub-directory names, in the order the job transcodes them. */
  const Renditions: seq<string> := ["480", "720", "1080"]

  function OriginalDir(id: nat): Path { VideoRoot(id) + ["original"] }

  function ProcessedDir(id: nat): Path { VideoRoot(id) + ["processed"] }

  function RenditionDir(id: nat, resolution: string): Path { ProcessedDir(id) + [resolution + "p"] }

  function ThumbnailDir(id: nat): Path { VideoRoot(id) + ["thumbnails"] }

  /** Where one rendition's HLS playlist is written: `processed/<res>p/index.m3u8`. */
  function RenditionPlaylist(id: nat, resolution: string): Path
  {
    RenditionDir(id, resolution) + ["index.m3u8"]
  }

  /** The directories `mkdir(parents=True)` creates for each path of `ds`. */
  function AllPrefixes(ds: seq<Path>): set<Path>
  {
    if ds == [] then {} else Prefixes(ds[0]) + AllPrefixes(ds[1..])
  }

  /** Creating each directory of `ds` in turn, stopping at the first that raises. */
  function MakeAll(t: FileTree, ds: seq<Path>): (r: Option<FileTree>)
    ensures r.None? <==> exists i :: 0 <= i < |ds| && t.FileInTheWay(ds[i])
    ensures r.Some? ==> r.value.files == t.files && r.value.dirs == t.dirs + AllPrefixes(ds)
    ensures r.Some? ==> forall i :: 0 <= i < |ds| ==> r.value.IsDir(ds[i])
    ensures r.Some? && t.Valid() ==> r.value.Valid()
    decreases |ds|
  {
    if ds == [] then Some(t)
    else
      match MakeDirs(t, ds[0])
      case None => None
      case Some(t1) =>
        var r := MakeAll(t1, ds[1..]);
        assert forall i :: 0 < i < |ds| ==> ds[1..][i - 1] == ds[i];
        r
  }

  lemma MakeAllStep(t: FileTree, ds: seq<Path>, k: nat)
    requires k < |ds|
    ensures MakeDirs(t, ds[k]).None? ==> MakeAll(t, ds[k..]).None?
    ensures MakeDirs(t, ds[k]).Some? ==> MakeAll(t, ds[k..]) == MakeAll(MakeDirs(t, ds[k]).value, ds[k + 1..])
  {
    assert ds[k..][0] == ds[k] && ds[k..][1..] == ds[k + 1..];
  }

  /** Asking again for directories that were all created changes nothing. */
  lemma {:induction false} MakeAllIdempotent(t: FileTree, ds: seq<Path>)
    requires MakeAll(t, ds).Some?
    ensures MakeAll(MakeAll(t, ds).value, ds) == MakeAll(t, ds)
  {
    var t1 := MakeAll(t, ds).value;
    NoFileInTheWayAfter(t, ds);
    assert t1.dirs + AllPrefixes(ds) == t1.dirs;
  }

  lemma NoFileInTheWayAfter(t: FileTree, ds: seq<Path>)
    requires MakeAll(t, ds).Some?
    ensures MakeAll(MakeAll(t, ds).value, ds).Some?
  {
    var t1 := MakeAll(t, ds).value;
    assert t1.files == t.files;
    if exists i :: 0 <= i < |ds| && t1.FileInTheWay(ds[i]) {
      var i :| 0 <= i < |ds| && t1.FileInTheWay(ds[i]);
      assert t.FileInTheWay(ds[i]);
    }
  }

  /** In a valid tree that already holds every directory of `ds`, creating them again raises nothing and changes nothing. */
  lemma {:induction false} MakeAllExisting(t: FileTree, ds: seq<Path>)
    requires t.Valid() && AllPrefixes(ds) <= t.dirs
    ensures MakeAll(t, ds) == Some(t)
    decreases |ds|
  {
    if ds != [] {
      forall k | 1 <= k <= |ds[0]| ensures ds[0][..k] !in t.files {
        assert ds[0][..k] in Prefixes(ds[0]);
      }
      assert t.dirs + Prefixes(ds[0]) == t.dirs;
      MakeAllExisting(t, ds[1..]);
    }
  }

  /** The log entries of creating each directory of `ds` in turn. */
  function DirsMadeLog(ds: seq<Path>): (l: seq<Effect>)
    ensures |l| == |ds| && forall i :: 0 <= i < |ds| ==> l[i] == DirsMade(ds[i])
  {
    if ds == [] then [] else [DirsMade(ds[0])] + DirsMadeLog(ds[1..])
  }

  lemma DirsMadeLogStep(ds: seq<Path>, k: nat)
    requires k < |ds|
    ensures DirsMadeLog(ds[..k + 1]) == DirsMadeLog(ds[..k]) + [DirsMade(ds[k])]
  {
  }

  /** The five directories `prepare_directories` asks for. */
  function LayoutDirs(id: nat): seq<Path>
  {
    [OriginalDir(id), RenditionDir(id, "480"), RenditionDir(id, "720"), RenditionDir(id, "1080"), ThumbnailDir(id)]
  }

  /** Everything `mkdir(parents=True)` creates for those five directories. */
  function LayoutTree(id: nat): set<Path>
  {
    AllPrefixes(LayoutDirs(id))
  }

  lemma PrefixesOfFour(p: Path)
    requires |p| == 4
    ensures Prefixes(p) == {p[..1], p[..2], p[..3], p}
  {
    assert p[..4] == p;
  }

  lemma PrefixesOfThree(p: Path)
    requires |p| == 3
    ensures Prefixes(p) == {p[..1], p[..2], p}
  {
    assert p[..3] == p;
  }

  /**
   * The directories the layout step leaves behind are exactly `videos`,
   * `videos/video_<id>`, its `processed` directory and the five requested ones.
   */
  lemma LayoutTreeExactly(id: nat)
    ensures LayoutTree(id) ==
      {["videos"], VideoRoot(id), ProcessedDir(id), OriginalDir(id), RenditionDir(id, "480"),
       RenditionDir(id, "720"), RenditionDir(id, "1080"), ThumbnailDir(id)}
  {
    var root := VideoRoot(id);
    assert root[..1] == ["videos"];
    var ds := LayoutDirs(id);
    assert AllPrefixes(ds[4..]) == Prefixes(ds[4]) by { assert ds[4..][1..] == []; }
    assert AllPrefixes(ds[3..]) == Prefixes(ds[3]) + AllPrefixes(ds[4..]) by { assert ds[3..][1..] == ds[4..]; }
    assert AllPrefixes(ds[2..]) == Prefixes(ds[2]) + AllPrefixes(ds[3..]) by { assert ds[2..][1..] == ds[3..]; }
    assert AllPrefixes(ds[1..]) == Prefixes(ds[1]) + AllPrefixes(ds[2..]) by { assert ds[1..][1..] == ds[2..]; }
    PrefixesOfThree(OriginalDir(id));
    PrefixesOfThree(ThumbnailDir(id));
    assert OriginalDir(id)[..2] == root && ThumbnailDir(id)[..2] == root;
    assert OriginalDir(id)[..1] == ["videos"] && ThumbnailDir(id)[..1] == ["videos"];
    forall r | r in Renditions
      ensures Prefixes(RenditionDir(id, r)) == {["videos"], root, ProcessedDir(id), RenditionDir(id, r)}
    {
      var d := RenditionDir(id, r);
      PrefixesOfFour(d);
      assert d[..1] == ["videos"] && d[..2] == root && d[..3] == ProcessedDir(id);
    }
  }

  /** The rendition directories and their parents are all part of the layout. */
  lemma RenditionDirsLaidOut(id: nat, r: string)
    requires r in Renditions
    ensures Prefixes(RenditionDir(id, r)) <= LayoutTree(id)
  {
    LayoutTreeExactly(id);
    var d := RenditionDir(id, r);
    PrefixesOfFour(d);
    assert d[..1] == ["videos"] && d[..2] == VideoRoot(id) && d[..3] == ProcessedDir(id);
  }

  /** The original directory and its parents are part of the layout. */
  lemma OriginalDirLaidOut(id: nat)
    ensures Prefixes(OriginalDir(id)) <= LayoutTree(id)
  {
    LayoutTreeExactly(id);
    var d := OriginalDir(id);
    PrefixesOfThree(d);
    assert d[..1] == ["videos"] && d[..2] == VideoRoot(id);
  }

  /**
   * After the layout step and the move, the rendition directories exist and
   * no file stands in their way, so transcoding the renditions does not
   * raise and creates nothing new.
   */
  lemma ReadyForVariants(laidOut: FileTree, moved: FileTree, id: nat)
    requires laidOut.Valid() && moved.Valid() && LayoutTree(id) <= laidOut.dirs && laidOut.dirs <= moved.dirs
    ensures forall r :: r in Renditions ==> !moved.FileInTheWay(RenditionDir(id, r)) && Prefixes(RenditionDir(id, r)) <= moved.dirs
  {
    forall r | r in Renditions
      ensures !moved.FileInTheWay(RenditionDir(id, r)) && Prefixes(RenditionDir(id, r)) <= moved.dirs
    {
      RenditionDirsLaidOut(id, r);
      NoFileInTheWayOfDir(moved, RenditionDir(id, r));
    }
  }

  /** What a successful move into a laid-out tree leaves in it. */
  lemma LaidOutAndMoved(laidOut: FileTree, id: nat, name: string)
    requires laidOut.Valid() && LayoutTree(id) <= laidOut.dirs && MoveFile(laidOut, id, name).Moved?
    ensures var m := MoveFile(laidOut, id, name);
      && LayoutTree(id) <= m.tree.dirs
      && m.source !in m.tree.files && m.dest in m.tree.files
      && forall r :: r in Renditions ==> !m.tree.FileInTheWay(RenditionDir(id, r)) && Prefixes(RenditionDir(id, r)) <= m.tree.dirs
  {
    var m := MoveFile(laidOut, id, name);
    ReadyForVariants(laidOut, m.tree, id);
  }

  lemma UnionOfPresent<T>(d: set<T>, a: set<T>, b: set<T>, c: set<T>)
    requires a <= d && b <= d && c <= d
    ensures d + a + b + c == d
  {
  }

  /**
   * The storage name the moved original gets, `videos/video_<id>/original/<basename>`:
   * for a proper base name it resolves to the file's new place in `original/`.
   */
  function MovedName(id: nat, base: string): (name: string)
    ensures IsComponent(base) ==> PathOf(name) == OriginalDir(id) + [base]
  {
    OriginalNameParts(id, base);
    "videos/" + VideoDirName(id) + "/original/" + base
  }

  lemma OriginalNameParts(id: nat, base: string)
    ensures IsComponent(base) ==> PathOf("videos/" + VideoDirName(id) + "/original/" + base) == OriginalDir(id) + [base]
  {
    if IsComponent(base) {
      var parts := ["videos", VideoDirName(id), "original", base];
      assert Join(parts[3..], "/") == base;
      assert Join(parts[2..], "/") == "original/" + base;
      assert Join(parts[1..], "/") == VideoDirName(id) + "/original/" + base;
      assert "videos/" + VideoDirName(id) + "/original/" + base == Join(parts, "/");
      PathOfJoin(parts);
    }
  }

  /** `video.original_file.path`: the absolute path of the stored name under MEDIA_ROOT. */
  function InputPath(mediaRoot: string, name: string): string
  {
    Render(mediaRoot, PathOf(name))
  }

  function Quote(s: string): string { "\"" + s + "\"" }

  /**
   * The words of the `convert_resolution` shell command: read the input,
   * scale to `hd<res>`, number segments from 0, cut 10-second segments, keep
   * every segment in the playlist and write an HLS playlist to the target.
   */
  function CommandWords(input: string, resolution: string, target: string): (ws: seq<string>)
    ensures |ws| == 14 && ws[0] == "ffmpeg"
  {
    ["ffmpeg", "-i", Quote(input), "-s", "hd" + resolution,
     "-start_number", "0", "-hls_time", "10", "-hls_list_size", "0",
     "-f", "hls", Quote(target)]
  }

  /**
   * The command line handed to the shell, the words separated by single
   * spaces: each option is followed by the value the job gives it.
   */
  function TranscodeCommand(input: string, resolution: string, target: string): (cmd: string)
    ensures "ffmpeg" <= cmd
    ensures Contains(cmd, "-i" + " " + Quote(input))
    ensures Contains(cmd, "-s" + " " + ("hd" + resolution))
    ensures Contains(cmd, "-start_number" + " " + "0")
    ensures Contains(cmd, "-hls_time" + " " + "10")
    ensures Contains(cmd, "-hls_list_size" + " " + "0")
    ensures Contains(cmd, "-f" + " " + "hls")
    ensures Contains(cmd, "hls" + " " + Quote(target))
    ensures |Quote(target)| <= |cmd| && cmd[|cmd| - |Quote(target)|..] == Quote(target)
  {
    CommandOptions(input, resolution, target);
    JoinEndsWith(CommandWords(input, resolution, target), " ");
    Join(CommandWords(input, resolution, target), " ")
  }

  lemma CommandOptions(input: string, resolution: string, target: string)
    ensures var cmd := Join(CommandWords(input, resolution, target), " ");
      && "ffmpeg" <= cmd
      && Contains(cmd, "-i" + " " + Quote(input))
      && Contains(cmd, "-s" + " " + ("hd" + resolution))
      && Contains(cmd, "-start_number" + " " + "0")
      && Contains(cmd, "-hls_time" + " " + "10")
      && Contains(cmd, "-hls_list_size" + " " + "0")
      && Contains(cmd, "-f" + " " + "hls")
      && Contains(cmd, "hls" + " " + Quote(target))
  {
    var ws := CommandWords(input, resolution, target);
    ContainsNeighbours(ws, " ", 1);
    ContainsNeighbours(ws, " ", 3);
    ContainsNeighbours(ws, " ", 5);
    ContainsNeighbours(ws, " ", 7);
    ContainsNeighbours(ws, " ", 9);
    ContainsNeighbours(ws, " ", 11);
    ContainsNeighbours(ws, " ", 12);
  }

  /** What the job did, in order. */
  datatype Effect =
    | StatusSaved(status: Status)
    | DirsMade(dir: Path)
    | FileCopied(source: Path, target: Path)
    | FileUnlinked(file: Path)
    | NameSaved(name: string)
    | TranscoderRan(resolution: string, command: string, exitCode: int)

  /** The statuses persisted, in order. */
  function SavedStatuses(log: seq<Effect>): seq<Status>
  {
    if log == [] then []
    else (if log[0].StatusSaved? then [log[0].status] else []) + SavedStatuses(log[1..])
  }

  /** The transcoder invocations, in order. */
  function TranscoderRuns(log: seq<Effect>): seq<Effect>
  {
    if log == [] then []
    else (if log[0].TranscoderRan? then [log[0]] else []) + TranscoderRuns(log[1..])
  }

  lemma {:induction false} SavedStatusesAppend(a: seq<Effect>, b: seq<Effect>)
    ensures SavedStatuses(a + b) == SavedStatuses(a) + SavedStatuses(b)
    decreases |a|
  {
    if a != [] {
      assert (a + b)[1..] == a[1..] + b;
      SavedStatusesAppend(a[1..], b);
    } else {
      assert a + b == b;
    }
  }

  lemma {:induction false} TranscoderRunsAppend(a: seq<Effect>, b: seq<Effect>)
    ensures TranscoderRuns(a + b) == TranscoderRuns(a) + TranscoderRuns(b)
    decreases |a|
  {
    if a != [] {
      assert (a + b)[1..] == a[1..] + b;
      TranscoderRunsAppend(a[1..], b);
    } else {
      assert a + b == b;
    }
  }

  /** Appending effects that are neither saves of the status nor transcoder runs leaves both projections alone. */
  lemma AppendQuiet(log: seq<Effect>, e: Effect)
    requires !e.StatusSaved? && !e.TranscoderRan?
    ensures SavedStatuses(log + [e]) == SavedStatuses(log)
    ensures TranscoderRuns(log + [e]) == TranscoderRuns(log)
  {
    SavedStatusesAppend(log, [e]);
    TranscoderRunsAppend(log, [e]);
  }

  /** Directory creations neither save a status nor run the transcoder. */
  lemma {:induction false} DirsMadeLogQuiet(ds: seq<Path>)
    ensures SavedStatuses(DirsMadeLog(ds)) == [] && TranscoderRuns(DirsMadeLog(ds)) == []
    decreases |ds|
  {
    if ds != [] {
      assert DirsMadeLog(ds)[1..] == DirsMadeLog(ds[1..]);
      DirsMadeLogQuiet(ds[1..]);
    }
  }

  lemma DirsMadeAfterQuiet(log: seq<Effect>, ds: seq<Path>)
    ensures SavedStatuses(log + DirsMadeLog(ds)) == SavedStatuses(log)
    ensures TranscoderRuns(log + DirsMadeLog(ds)) == TranscoderRuns(log)
  {
    DirsMadeLogQuiet(ds);
    SavedStatusesAppend(log, DirsMadeLog(ds));
    TranscoderRunsAppend(log, DirsMadeLog(ds));
  }

  lemma PrefixTrans<T>(a: seq<T>, b: seq<T>, c: seq<T>)
    requires a <= b && b <= c
    ensures a <= c
  {
  }

  /** The command `convert_resolution` runs for one rendition of the record stored under `name`. */
  function RenditionCommand(mediaRoot: string, id: nat, name: string, resolution: string): (cmd: string)
    ensures Contains(cmd, "-i" + " " + Quote(InputPath(mediaRoot, name)))
    ensures Contains(cmd, "-s" + " " + ("hd" + resolution))
    ensures Contains(cmd, "hls" + " " + Quote(Render(mediaRoot, ProcessedDir(id) + [resolution + "p", "index.m3u8"])))
  {
    assert RenditionPlaylist(id, resolution) == ProcessedDir(id) + [resolution + "p", "index.m3u8"];
    TranscodeCommand(InputPath(mediaRoot, name), resolution, Render(mediaRoot, RenditionPlaylist(id, resolution)))
  }

  /** The transcoder run for one rendition; `transcoder` gives the exit status of a shell command. */
  function RenditionRun(mediaRoot: string, id: nat, name: string, resolution: string, transcoder: string -> int): (e: Effect)
    ensures e.TranscoderRan? && e.resolution == resolution
    ensures e.command == RenditionCommand(mediaRoot, id, name, resolution) && e.exitCode == transcoder(e.command)
  {
    var cmd := RenditionCommand(mediaRoot, id, name, resolution);
    TranscoderRan(resolution, cmd, transcoder(cmd))
  }

  /** The three runs of `convert_original_to_variants`, in order. */
  function VariantRuns(mediaRoot: string, id: nat, name: string, transcoder: string -> int): (runs: seq<Effect>)
    ensures |runs| == |Renditions|
    ensures forall i :: 0 <= i < |runs| ==> runs[i] == RenditionRun(mediaRoot, id, name, Renditions[i], transcoder)
  {
    [RenditionRun(mediaRoot, id, name, "480", transcoder),
     RenditionRun(mediaRoot, id, name, "720", transcoder),
     RenditionRun(mediaRoot, id, name, "1080", transcoder)]
  }

  /** The log entries of one transcoder run: the run, then the `error` save if it failed. */
  function RunEntries(run: Effect): seq<Effect>
    requires run.TranscoderRan?
  {
    [run] + (if run.exitCode != 0 then [StatusSaved(Error)] else [])
  }

  /** The `error` save a failing rendition adds. */
  function ErrorSave(code: int): seq<Status>
  {
    if code != 0 then [Error] else []
  }

  /** Only `error` saves were added between two projections. */
  predicate OnlyErrorsAdded(before: seq<Status>, after: seq<Status>)
  {
    before <= after && forall i :: |before| <= i < |after| ==> after[i] == Error
  }

  /** The records after `video.status = 'error'` was saved for record `id`, when `failed`. */
  function MarkError(videos: map<nat, VideoRecord>, id: nat, failed: bool): (r: map<nat, VideoRecord>)
    requires id in videos
    ensures r.Keys == videos.Keys && id in r
    ensures r[id].status == (if failed then Error else videos[id].status)
    ensures forall j :: j in videos && j != id ==> r[j] == videos[j]
    ensures r[id] == videos[id].(status := r[id].status)
  {
    if failed then videos[id := videos[id].(status := Error)] else videos
  }

  /** `after` is `before`, or `before` with the status of record `id` set to `error`. */
  predicate AtMostErrorMarked(before: map<nat, VideoRecord>, after: map<nat, VideoRecord>, id: nat)
    requires id in before
  {
    after == MarkError(before, id, false) || after == MarkError(before, id, true)
  }

  /** Marking a record as failed twice is marking it once. */
  lemma MarkErrorTwice(videos: map<nat, VideoRecord>, id: nat, first: bool, second: bool)
    requires id in videos
    ensures MarkError(MarkError(videos, id, first), id, second) == MarkError(videos, id, first || second)
  {
    if first && second {
      assert videos[id].(status := Error).(status := Error) == videos[id].(status := Error);
    }
  }

  /** Saving a status after an `error` save leaves no trace of the `error`. */
  lemma StatusOverwritesError(videos: map<nat, VideoRecord>, id: nat, failed: bool, s: Status)
    requires id in videos
    ensures var v := MarkError(videos, id, failed);
      v[id := v[id].(status := s)] == videos[id := videos[id].(status := s)]
  {
    assert videos[id].(status := Error).(status := s) == videos[id].(status := s);
  }

  /** A status save, a rename and a second status save of one record: only the rename and the last status remain. */
  lemma StatusRenameStatus(videos: map<nat, VideoRecord>, id: nat, first: Status, name: string, last: Status)
    requires id in videos
    ensures var p := videos[id := videos[id].(status := first)];
      var q := p[id := p[id].(originalName := name)];
      q[id := q[id].(status := last)] == videos[id := videos[id].(status := last, originalName := name)]
  {
    assert videos[id].(status := first).(originalName := name).(status := last) == videos[id].(status := last, originalName := name);
  }

  lemma OnlyErrorsMore(before: seq<Status>, mid: seq<Status>, code: int)
    requires OnlyErrorsAdded(before, mid)
    ensures OnlyErrorsAdded(before, mid + ErrorSave(code))
  {
  }

  lemma OnlyErrorsAdded0(statuses: seq<Status>)
    ensures OnlyErrorsAdded(statuses, statuses)
  {
  }

  /** Why a step raised instead of returning. */
  datatype Failure =
    | NoFileAssociated          // `original_file.path` of an empty name raises ValueError
    | FileInTheWay(dir: Path)   // mkdir meets a regular file
    | NotAFile(path: Path)       // copy2 or unlink of a missing path or of a directory
    | SameFile(path: Path)       // copy2 onto the source itself
    | TargetIsDirectory(path: Path)
    | ShutilUndefined            // the name `shutil` is not bound (see MoveOriginalAsWritten)

  datatype StepResult = Returned | Raised(failure: Failure)

  datatype JobOutcome = Completed | RecordNotFound | Aborted(failure: Failure)

  function Last(p: Path): string
    requires p != []
  {
    p[|p| - 1]
  }

  /** `shutil.copy2` writes into `dst/<basename of src>` when `dst` is a directory. */
  function CopyDestination(t: FileTree, src: Path, dst: Path): Path
    requires src != []
  {
    if t.IsDir(dst) then dst + [Last(src)] else dst
  }

  /** What `shutil.copy2(src, dst)` does to the tree, or why it raises. */
  datatype CopyResult = CopyRaised(failure: Failure) | Copied(dest: Path, tree: FileTree)

  /**
   * `shutil.copy2(src, dst)`: a directory `dst` stands for `dst/<basename>`;
   * copying a file onto itself raises `SameFileError`; a missing or directory
   * source and a directory destination raise `OSError`; otherwise the
   * destination becomes a regular file (created or overwritten).
   */
  function Copy(t: FileTree, src: Path, dst: Path): (r: CopyResult)
    requires t.Valid() && src != [] && dst != [] && t.IsDir(Parent(dst))
    ensures r.Copied? <==> src in t.files && CopyDestination(t, src, dst) != src && CopyDestination(t, src, dst) !in t.dirs
    ensures r.Copied? ==> r.dest == CopyDestination(t, src, dst) && r.tree == AddFile(t, r.dest)
    ensures r.Copied? ==> r.tree.Valid() && r.dest in r.tree.files && src in r.tree.files
    ensures CopyDestination(t, src, dst) == src && t.Exists(src) ==> r == CopyRaised(SameFile(src))
  {
    var dest := CopyDestination(t, src, dst);
    if dest == src && t.Exists(src) then CopyRaised(SameFile(src))
    else if src !in t.files then CopyRaised(NotAFile(src))
    else if dest in t.dirs then CopyRaised(TargetIsDirectory(dest))
    else
      assert Parent(dest) == dst || Parent(dest) == Parent(dst);
      Copied(dest, AddFile(t, dest))
  }

  /**
   * When `move_original` gets through: the record names a file, nothing blocks
   * `original/`, and the copy target (`original/<basename>`, or one level
   * deeper when that is a directory) is neither the source nor a directory.
   */
  predicate MoveSucceeds(t: FileTree, id: nat, name: string)
    requires t.Valid()
  {
    && name != ""
    && !t.FileInTheWay(OriginalDir(id))
    && var src := PathOf(name);
       && src != []
       && src in t.files
       && var dest := CopyDestination(MakeDirs(t, OriginalDir(id)).value, src, OriginalDir(id) + [Last(src)]);
          dest != src && dest !in MakeDirs(t, OriginalDir(id)).value.dirs
  }

  /** What `move_original` leaves behind, or why it raised and the tree it raised in. */
  datatype MoveResult =
    | MoveRaised(failure: Failure, tree: FileTree)
    | Moved(tree: FileTree, source: Path, dest: Path, name: string)

  /**
   * `move_original` on a record whose stored name is `name`: resolve the
   * stored file (raises for an empty name), create `original/`, copy the file
   * there under its base name, delete the source and rename the record.
   */
  function MoveFile(t: FileTree, id: nat, name: string): (r: MoveResult)
    requires t.Valid()
    ensures r.tree.Valid()
    ensures name == "" ==> r == MoveRaised(NoFileAssociated, t)
    ensures name != "" && t.FileInTheWay(OriginalDir(id)) ==> r == MoveRaised(FileInTheWay(OriginalDir(id)), t)
    ensures r.MoveRaised? && !r.failure.NoFileAssociated? && !r.failure.FileInTheWay? ==> r.tree == MakeDirs(t, OriginalDir(id)).value
    ensures r.Moved? ==> r.source == PathOf(name) && r.source != [] && r.source in t.files && r.source != r.dest
    ensures r.Moved? ==> r.dest == CopyDestination(MakeDirs(t, OriginalDir(id)).value, r.source, OriginalDir(id) + [Last(r.source)])
    ensures r.Moved? ==> r.tree.files == t.files + {r.dest} - {r.source} && r.tree.dirs == t.dirs + Prefixes(OriginalDir(id))
    ensures r.Moved? ==> r.name == MovedName(id, Last(r.source))
  {
    if name == "" then MoveRaised(NoFileAssociated, t)
    else
      match MakeDirs(t, OriginalDir(id))
      case None => MoveRaised(FileInTheWay(OriginalDir(id)), t)
      case Some(t1) =>
        var src := PathOf(name);
        if src == [] then MoveRaised(NotAFile(src), t1)
        else
          var target := OriginalDir(id) + [Last(src)];
          assert Parent(target) == OriginalDir(id);
          match Copy(t1, src, target)
          case CopyRaised(f) => MoveRaised(f, t1)
          case Copied(dest, t2) => Moved(RemoveFile(t2, src), src, dest, MovedName(id, Last(src)))
  }

  /** `move_original` gets through exactly under `MoveSucceeds`; every other record or tree makes it raise. */
  lemma MoveFileSucceeds(t: FileTree, id: nat, name: string)
    requires t.Valid()
    ensures MoveFile(t, id, name).Moved? <==> MoveSucceeds(t, id, name)
  {
  }

  /** Every directory of `ds` comes with its parents among the prefixes of `ds`. */
  lemma {:induction false} PrefixesInAll(ds: seq<Path>, k: nat)
    requires k < |ds|
    ensures Prefixes(ds[k]) <= AllPrefixes(ds)
    decreases k
  {
    if k > 0 {
      PrefixesInAll(ds[1..], k - 1);
      assert ds[1..][k - 1] == ds[k];
    }
  }

  /** A move that raises keeps the files and adds at most `original/` and its parents. */
  lemma MoveRaisedTree(t: FileTree, id: nat, name: string)
    requires t.Valid() && MoveFile(t, id, name).MoveRaised?
    ensures MoveFile(t, id, name).tree.files == t.files
    ensures MoveFile(t, id, name).tree.dirs <= t.dirs + Prefixes(OriginalDir(id))
  {
  }

  /** Creating a directory that exists with its parents changes nothing. */
  lemma MakeDirsPresent(t: FileTree, p: Path)
    requires t.Valid() && Prefixes(p) <= t.dirs
    ensures MakeDirs(t, p) == Some(t)
  {
    NoFileInTheWayOfDir(t, p);
    assert t.dirs + Prefixes(p) == t.dirs;
  }

  /** No part of `p` is a file once `p` and its parents are directories of a valid tree. */
  lemma NoFileInTheWayOfDir(t: FileTree, p: Path)
    requires t.Valid() && Prefixes(p) <= t.dirs
    ensures !t.FileInTheWay(p)
  {
    forall k | 1 <= k <= |p|
      ensures p[..k] !in t.files
    {
      assert p[..k] in Prefixes(p);
    }
  }

  /** Whether a file stands in a path depends on the files alone. */
  lemma SameFilesSameBlock(t1: FileTree, t2: FileTree, p: Path)
    requires t1.files == t2.files
    ensures t1.FileInTheWay(p) <==> t2.FileInTheWay(p)
  {
  }

  /**
   * Running the move again on the record it renamed raises `SameFileError`:
   * the renamed record already points into `original/`, so the copy would go
   * onto the file itself. (When `original/<basename>` was a directory the
   * copy went one level deeper and this does not apply.)
   */
  lemma {:induction false} MoveAgainRaisesSameFile(t: FileTree, id: nat, name: string)
    requires t.Valid() && MoveFile(t, id, name).Moved?
    requires var m := MoveFile(t, id, name); m.dest == OriginalDir(id) + [Last(m.source)]
    ensures var m := MoveFile(t, id, name);
      MoveFile(m.tree, id, m.name) == MoveRaised(SameFile(m.dest), m.tree)
  {
    var m := MoveFile(t, id, name);
    var base := Last(m.source);
    assert IsComponent(base) by {
      assert base == PathOf(name)[|PathOf(name)| - 1];
    }
    assert m.tree.dirs == m.tree.dirs + Prefixes(OriginalDir(id));
    NoFileInTheWayOfDir(m.tree, OriginalDir(id));
    assert MakeDirs(m.tree, OriginalDir(id)) == Some(m.tree);
    assert m.dest in m.tree.files;
    assert Last(PathOf(m.name)) == base;
  }

  /**
   * `move_original` as the repository has it: `shutil` is used but never
   * imported, so once the original directory exists the call to
   * `shutil.copy2` raises `NameError` and nothing is copied or renamed.
   */
  function MoveFileAsWritten(t: FileTree, id: nat, name: string): (r: MoveResult)
    requires t.Valid()
    ensures r.MoveRaised? && r.tree.Valid()
    ensures name != "" && !t.FileInTheWay(OriginalDir(id)) ==>
      r == MoveRaised(ShutilUndefined, MakeDirs(t, OriginalDir(id)).value)
  {
    if name == "" then MoveRaised(NoFileAssociated, t)
    else
      match MakeDirs(t, OriginalDir(id))
      case None => MoveRaised(FileInTheWay(OriginalDir(id)), t)
      case Some(t1) => MoveRaised(ShutilUndefined, t1)
  }

  /** A freshly uploaded `videos/originals/clip.mp4` in an otherwise empty media directory. */
  const UploadedTree: FileTree := FileTree({["videos"], ["videos", "originals"]}, {["videos", "originals", "clip.mp4"]})

  /**
   * The upload above is moved by the corrected step but makes the step as
   * written raise, so `convert_video` as written never reaches `ready`.
   */
  lemma ShutilCounterexample()
    ensures UploadedTree.Valid()
    ensures MoveFile(UploadedTree, 1, UploadTo + "clip.mp4").Moved?
    ensures MoveFileAsWritten(UploadedTree, 1, UploadTo + "clip.mp4") ==
      MoveRaised(ShutilUndefined, MakeDirs(UploadedTree, OriginalDir(1)).value)
  {
    var t := UploadedTree;
    assert IsComponent("clip.mp4");
    UploadPath("clip.mp4");
    var src := ["videos", "originals", "clip.mp4"];
    assert t.Valid() by {
      assert Parent(src) == ["videos", "originals"];
      assert Parent(["videos", "originals"]) == ["videos"];
    }
    assert !t.FileInTheWay(OriginalDir(1)) by {
      forall k | 1 <= k <= 3
        ensures OriginalDir(1)[..k] !in t.files
      {
        assert |OriginalDir(1)[..k]| < 3 || OriginalDir(1)[..k][1] != "originals";
      }
    }
    var t1 := MakeDirs(t, OriginalDir(1)).value;
    var target := OriginalDir(1) + ["clip.mp4"];
    assert target[1] != "originals";
    assert target !in t1.dirs && target + ["clip.mp4"] !in t1.dirs;
  }

  class Worker {
    const mediaRoot: string
    var videos: map<nat, VideoRecord>
    var tree: FileTree
    ghost var log: seq<Effect>

    ghost predicate Valid()
      reads this
    {
      tree.Valid()
    }

    constructor (mediaRoot: string, videos: map<nat, VideoRecord>, tree: FileTree)
      requires tree.Valid()
      ensures Valid()
      ensures this.mediaRoot == mediaRoot && this.videos == videos && this.tree == tree && log == []
    {
      this.mediaRoot := mediaRoot;
      this.videos := videos;
      this.tree := tree;
      log := [];
    }

    /** `video.status = s` followed by `video.save(update_fields=["status"])`. */
    method SaveStatus(id: nat, s: Status)
      requires Valid() && id in videos
      modifies this
      ensures Valid()
      ensures videos == old(videos)[id := old(videos[id]).(status := s)]
      ensures tree == old(tree) && log == old(log) + [StatusSaved(s)]
      ensures SavedStatuses(log) == SavedStatuses(old(log)) + [s]
      ensures TranscoderRuns(log) == TranscoderRuns(old(log))
    {
      videos := videos[id := videos[id].(status := s)];
      log := log + [StatusSaved(s)];
      SavedStatusesAppend(old(log), [StatusSaved(s)]);
      TranscoderRunsAppend(old(log), [StatusSaved(s)]);
    }

    /** `subprocess.run(cmd, ...)` of the transcoder, as recorded in the log. */
    method RecordRun(run: Effect)
      requires Valid() && run.TranscoderRan?
      modifies this
      ensures Valid() && tree == old(tree) && videos == old(videos)
      ensures log == old(log) + [run]
      ensures SavedStatuses(log) == SavedStatuses(old(log)) && TranscoderRuns(log) == TranscoderRuns(old(log)) + [run]
    {
      log := log + [run];
      SavedStatusesAppend(old(log), [run]);
      TranscoderRunsAppend(old(log), [run]);
      assert SavedStatuses([run]) == [] && TranscoderRuns([run]) == [run];
    }

    /** `p.mkdir(parents=True, exist_ok=True)`. */
    method MakeDirsStep(p: Path) returns (res: StepResult)
      requires Valid()
      modifies this
      ensures Valid() && videos == old(videos) && tree.files == old(tree).files
      ensures res.Returned? <==> !old(tree).FileInTheWay(p)
      ensures res.Returned? ==> tree == MakeDirs(old(tree), p).value && log == old(log) + [DirsMade(p)]
      ensures res.Raised? ==> res.failure == FileInTheWay(p) && tree == old(tree) && log == old(log)
      ensures SavedStatuses(log) == SavedStatuses(old(log)) && TranscoderRuns(log) == TranscoderRuns(old(log))
    {
      var r := MakeDirs(tree, p);
      if r.None? {
        return Raised(FileInTheWay(p));
      }
      tree := r.value;
      log := log + [DirsMade(p)];
      AppendQuiet(old(log), DirsMade(p));
      res := Returned;
    }

    /** `mkdir(parents=True, exist_ok=True)` on each directory of `ds` in turn, stopping at the first that raises. */
    method MakeEach(ds: seq<Path>) returns (res: StepResult)
      requires Valid()
      modifies this
      ensures Valid() && videos == old(videos) && tree.files == old(tree).files
      ensures res.Returned? <==> MakeAll(old(tree), ds).Some?
      ensures res.Returned? ==> tree == MakeAll(old(tree), ds).value && log == old(log) + DirsMadeLog(ds)
      ensures res.Raised? ==> res.failure.FileInTheWay? && old(tree).dirs <= tree.dirs
      ensures tree.dirs <= old(tree).dirs + AllPrefixes(ds)
      ensures old(log) <= log
      ensures SavedStatuses(log) == SavedStatuses(old(log)) && TranscoderRuns(log) == TranscoderRuns(old(log))
    {
      assert ds[0..] == ds;
      res := Returned;
      for k := 0 to |ds|
        invariant Valid() && videos == old(videos) && tree.files == old(tree).files
        invariant MakeAll(old(tree), ds) == MakeAll(tree, ds[k..])
        invariant log == old(log) + DirsMadeLog(ds[..k])
        invariant res.Returned? && old(tree).dirs <= tree.dirs
        invariant tree.dirs <= old(tree).dirs + AllPrefixes(ds)
      {
        MakeAllStep(tree, ds, k);
        PrefixesInAll(ds, k);
        res := MakeDirsStep(ds[k]);
        if res.Raised? {
          DirsMadeAfterQuiet(old(log), ds[..k]);
          return;
        }
        DirsMadeLogStep(ds, k);
      }
      assert ds[..|ds|] == ds && ds[|ds|..] == [];
      DirsMadeAfterQuiet(old(log), ds);
    }

    /**
     * `prepare_directories`: creates `original`, `processed/480p`,
     * `processed/720p`, `processed/1080p` and `thumbnails` under
     * `videos/video_<id>`, in that order, stopping at the first that raises.
     */
    method PrepareDirectories(id: nat) returns (res: StepResult)
      requires Valid()
      modifies this
      ensures Valid() && videos == old(videos) && tree.files == old(tree).files
      ensures res.Returned? <==> MakeAll(old(tree), LayoutDirs(id)).Some?
      ensures res.Returned? ==> tree == MakeAll(old(tree), LayoutDirs(id)).value
      ensures res.Returned? ==> log == old(log) + DirsMadeLog(LayoutDirs(id))
      ensures res.Raised? ==> res.failure.FileInTheWay? && old(tree).dirs <= tree.dirs
      ensures tree.dirs <= old(tree).dirs + LayoutTree(id)
      ensures old(log) <= log
      ensures SavedStatuses(log) == SavedStatuses(old(log)) && TranscoderRuns(log) == TranscoderRuns(old(log))
    {
      res := MakeEach(LayoutDirs(id));
    }

    /** `video.original_file.name = name` followed by `video.save(update_fields=["original_file"])`. */
    method SaveName(id: nat, name: string)
      requires Valid() && id in videos
      modifies this
      ensures Valid() && tree == old(tree)
      ensures videos == old(videos)[id := old(videos)[id].(originalName := name)]
      ensures log == old(log) + [NameSaved(name)]
      ensures SavedStatuses(log) == SavedStatuses(old(log)) && TranscoderRuns(log) == TranscoderRuns(old(log))
    {
      videos := videos[id := videos[id].(originalName := name)];
      log := log + [NameSaved(name)];
      AppendQuiet(old(log), NameSaved(name));
    }

    /** `shutil.copy2(src, dst)`, returning the path it wrote. */
    method CopyStep(src: Path, dst: Path) returns (res: StepResult, dest: Path)
      requires Valid() && src != [] && dst != [] && tree.IsDir(Parent(dst))
      modifies this
      ensures Valid() && videos == old(videos)
      ensures var c := Copy(old(tree), src, dst);
        && (c.CopyRaised? ==> res == Raised(c.failure) && tree == old(tree) && log == old(log))
        && (c.Copied? ==> res == Returned && dest == c.dest && tree == c.tree && log == old(log) + [FileCopied(src, dest)])
      ensures SavedStatuses(log) == SavedStatuses(old(log)) && TranscoderRuns(log) == TranscoderRuns(old(log))
    {
      dest := dst;
      if tree.IsDir(dst) {
        dest := dst + [Last(src)];
      }
      if dest == src && tree.Exists(src) {
        return Raised(SameFile(src)), dest;
      }
      if src !in tree.files {
        return Raised(NotAFile(src)), dest;
      }
      if dest in tree.dirs {
        return Raised(TargetIsDirectory(dest)), dest;
      }
      tree := AddFile(tree, dest);
      log := log + [FileCopied(src, dest)];
      AppendQuiet(old(log), FileCopied(src, dest));
      res := Returned;
    }

    /** `Path.unlink()`: removes a regular file and raises for a missing path or a directory. */
    method UnlinkStep(p: Path) returns (res: StepResult)
      requires Valid()
      modifies this
      ensures Valid() && videos == old(videos)
      ensures res.Returned? <==> p in old(tree).files
      ensures res.Returned? ==> tree == RemoveFile(old(tree), p) && log == old(log) + [FileUnlinked(p)]
      ensures res.Raised? ==> res.failure == NotAFile(p) && tree == old(tree) && log == old(log)
      ensures SavedStatuses(log) == SavedStatuses(old(log)) && TranscoderRuns(log) == TranscoderRuns(old(log))
    {
      if p !in tree.files {
        return Raised(NotAFile(p));
      }
      tree := RemoveFile(tree, p);
      log := log + [FileUnlinked(p)];
      AppendQuiet(old(log), FileUnlinked(p));
      res := Returned;
    }

    /**
     * `move_original`, with `shutil` imported: the stored file is copied into
     * `videos/video_<id>/original/`, deleted at its old place, and the record
     * is renamed to the new location.
     */
    method MoveOriginal(id: nat) returns (res: StepResult)
      requires Valid() && id in videos
      modifies this
      ensures Valid()
      ensures var m := MoveFile(old(tree), id, old(videos)[id].originalName);
        && tree == m.tree
        && (m.MoveRaised? ==> res == Raised(m.failure) && videos == old(videos))
        && (m.Moved? ==> res == Returned && videos == old(videos)[id := old(videos)[id].(originalName := m.name)])
        && (m.Moved? ==> log == old(log) + [DirsMade(OriginalDir(id)), FileCopied(m.source, m.dest), FileUnlinked(m.source), NameSaved(m.name)])
      ensures old(log) <= log
      ensures SavedStatuses(log) == SavedStatuses(old(log)) && TranscoderRuns(log) == TranscoderRuns(old(log))
    {
      var name := videos[id].originalName;
      if name == "" {
        return Raised(NoFileAssociated);
      }
      var src := PathOf(name);
      res := MakeDirsStep(OriginalDir(id));
      if res.Raised? {
        return;
      }
      if src == [] {
        return Raised(NotAFile(src));
      }
      var target := OriginalDir(id) + [Last(src)];
      assert Parent(target) == OriginalDir(id);
      var dest;
      res, dest := CopyStep(src, target);
      if res.Raised? {
        return;
      }
      res := UnlinkStep(src);
      SaveName(id, MovedName(id, Last(src)));
    }

    /** `move_original` as the repository has it (see `MoveFileAsWritten`). */
    method MoveOriginalAsWritten(id: nat) returns (res: StepResult)
      requires Valid() && id in videos
      modifies this
      ensures Valid() && videos == old(videos)
      ensures var m := MoveFileAsWritten(old(tree), id, old(videos)[id].originalName);
        tree == m.tree && res == Raised(m.failure)
      ensures old(log) <= log
      ensures SavedStatuses(log) == SavedStatuses(old(log)) && TranscoderRuns(log) == TranscoderRuns(old(log))
    {
      var name := videos[id].originalName;
      if name == "" {
        return Raised(NoFileAssociated);
      }
      res := MakeDirsStep(OriginalDir(id));
      if res.Raised? {
        return;
      }
      res := Raised(ShutilUndefined);
    }

    /**
     * The transcoder run of `convert_resolution` and the `error` save that
     * follows a non-zero exit status.
     */
    method Transcode(id: nat, resolution: string, transcoder: string -> int) returns (run: Effect)
      requires Valid() && id in videos
      modifies this
      ensures Valid() && tree == old(tree)
      ensures run == RenditionRun(mediaRoot, id, old(videos)[id].originalName, resolution, transcoder)
      ensures log == old(log) + RunEntries(run)
      ensures videos == MarkError(old(videos), id, run.exitCode != 0)
      ensures TranscoderRuns(log) == TranscoderRuns(old(log)) + [run]
      ensures SavedStatuses(log) == SavedStatuses(old(log)) + ErrorSave(run.exitCode)
    {
      run := RenditionRun(mediaRoot, id, videos[id].originalName, resolution, transcoder);
      RecordRun(run);
      if run.exitCode != 0 {
        SaveStatus(id, Error);
        assert log == old(log) + [run] + [StatusSaved(Error)];
      }
    }

    /**
     * `convert_resolution`: creates `processed/<res>p`, runs the transcoder on
     * the stored original, and saves status `error` when it exits non-zero.
     */
    method ConvertResolution(id: nat, resolution: string, transcoder: string -> int) returns (res: StepResult)
      requires Valid() && id in videos
      modifies this
      ensures Valid() && tree.files == old(tree).files
      ensures res.Returned? <==> !old(tree).FileInTheWay(RenditionDir(id, resolution)) && old(videos)[id].originalName != ""
      ensures old(tree).FileInTheWay(RenditionDir(id, resolution)) ==>
        res == Raised(FileInTheWay(RenditionDir(id, resolution))) && tree == old(tree) && log == old(log)
      ensures !old(tree).FileInTheWay(RenditionDir(id, resolution)) ==>
        tree == MakeDirs(old(tree), RenditionDir(id, resolution)).value
      ensures res == Raised(NoFileAssociated) ==> log == old(log) + [DirsMade(RenditionDir(id, resolution))]
      ensures res.Raised? ==> videos == old(videos)
      ensures res.Raised? ==> SavedStatuses(log) == SavedStatuses(old(log)) && TranscoderRuns(log) == TranscoderRuns(old(log))
      ensures var run := RenditionRun(mediaRoot, id, old(videos)[id].originalName, resolution, transcoder);
        res.Returned? ==> log == old(log) + [DirsMade(RenditionDir(id, resolution))] + RunEntries(run)
      ensures var run := RenditionRun(mediaRoot, id, old(videos)[id].originalName, resolution, transcoder);
        res.Returned? ==> videos == MarkError(old(videos), id, run.exitCode != 0)
      ensures var run := RenditionRun(mediaRoot, id, old(videos)[id].originalName, resolution, transcoder);
        res.Returned? ==> TranscoderRuns(log) == TranscoderRuns(old(log)) + [run]
      ensures var run := RenditionRun(mediaRoot, id, old(videos)[id].originalName, resolution, transcoder);
        res.Returned? ==> SavedStatuses(log) == SavedStatuses(old(log)) + ErrorSave(run.exitCode)
      ensures old(log) <= log
    {
      var d := RenditionDir(id, resolution);
      res := MakeDirsStep(d);
      if res.Raised? {
        return;
      }
      if videos[id].originalName == "" {
        return Raised(NoFileAssociated);
      }
      var run := Transcode(id, resolution, transcoder);
    }

    /** `convert_original_to_variants`: the 480p, 720p and 1080p renditions, in that order. */
    method ConvertOriginalToVariants(id: nat, transcoder: string -> int) returns (res: StepResult)
      requires Valid() && id in videos
      modifies this
      ensures Valid() && tree.files == old(tree).files && old(log) <= log
      ensures AtMostErrorMarked(old(videos), videos, id)
      ensures OnlyErrorsAdded(SavedStatuses(old(log)), SavedStatuses(log))
      ensures var runs := VariantRuns(mediaRoot, id, old(videos)[id].originalName, transcoder);
        res.Returned? ==> videos == MarkError(old(videos), id, runs[0].exitCode != 0 || runs[1].exitCode != 0 || runs[2].exitCode != 0)
      ensures var runs := VariantRuns(mediaRoot, id, old(videos)[id].originalName, transcoder);
        res.Returned? ==> TranscoderRuns(log) == TranscoderRuns(old(log)) + [runs[0]] + [runs[1]] + [runs[2]]
      ensures var runs := VariantRuns(mediaRoot, id, old(videos)[id].originalName, transcoder);
        res.Returned? ==> SavedStatuses(log) == SavedStatuses(old(log)) + ErrorSave(runs[0].exitCode) + ErrorSave(runs[1].exitCode) + ErrorSave(runs[2].exitCode)
      ensures res.Returned? <==>
        && old(videos)[id].originalName != ""
        && !old(tree).FileInTheWay(RenditionDir(id, "480"))
        && !old(tree).FileInTheWay(RenditionDir(id, "720"))
        && !old(tree).FileInTheWay(RenditionDir(id, "1080"))
      ensures res.Returned? ==>
        tree.dirs == old(tree).dirs + Prefixes(RenditionDir(id, "480")) + Prefixes(RenditionDir(id, "720")) + Prefixes(RenditionDir(id, "1080"))
    {
      ghost var name := videos[id].originalName;
      ghost var runs := VariantRuns(mediaRoot, id, name, transcoder);
      ghost var t0 := tree;
      res := ConvertResolution(id, "480", transcoder);
      if res.Raised? {
        return;
      }
      assert videos[id].originalName == name;
      SameFilesSameBlock(t0, tree, RenditionDir(id, "720"));
      SameFilesSameBlock(t0, tree, RenditionDir(id, "1080"));
      OnlyErrorsMore(SavedStatuses(old(log)), SavedStatuses(old(log)), runs[0].exitCode);
      res := ConvertResolution(id, "720", transcoder);
      if res.Raised? {
        return;
      }
      assert videos[id].originalName == name;
      SameFilesSameBlock(t0, tree, RenditionDir(id, "1080"));
      OnlyErrorsMore(SavedStatuses(old(log)), SavedStatuses(old(log)) + ErrorSave(runs[0].exitCode), runs[1].exitCode);
      MarkErrorTwice(old(videos), id, runs[0].exitCode != 0, runs[1].exitCode != 0);
      res := ConvertResolution(id, "1080", transcoder);
      if res.Raised? {
        return;
      }
      OnlyErrorsMore(SavedStatuses(old(log)), SavedStatuses(old(log)) + ErrorSave(runs[0].exitCode) + ErrorSave(runs[1].exitCode), runs[2].exitCode);
      MarkErrorTwice(old(videos), id, runs[0].exitCode != 0 || runs[1].exitCode != 0, runs[2].exitCode != 0);
    }

    /** `create_thumbnail`: prints a message and does nothing else. */
    method CreateThumbnail(id: nat)
      requires Valid() && id in videos
      ensures Valid()
    {
    }

    /**
     * Lines 14-15 of `convert_video`: `prepare_directories` followed by
     * `move_original`, ending at the first that raises.
     */
    method PrepareAndMove(id: nat) returns (res: StepResult)
      requires Valid() && id in videos
      modifies this
      ensures Valid() && old(log) <= log
      ensures SavedStatuses(log) == SavedStatuses(old(log)) && TranscoderRuns(log) == TranscoderRuns(old(log))
      ensures res.Returned? <==>
        && MakeAll(old(tree), LayoutDirs(id)).Some?
        && MoveFile(MakeAll(old(tree), LayoutDirs(id)).value, id, old(videos)[id].originalName).Moved?
      ensures res.Raised? ==> videos == old(videos)
      ensures res.Raised? ==> tree.files == old(tree).files && tree.dirs <= old(tree).dirs + LayoutTree(id)
      ensures res.Returned? ==>
        var m := MoveFile(MakeAll(old(tree), LayoutDirs(id)).value, id, old(videos)[id].originalName);
        && videos == old(videos)[id := old(videos)[id].(originalName := m.name)]
        && tree == m.tree
        && LayoutTree(id) <= tree.dirs
        && m.source !in tree.files && m.dest in tree.files
      ensures res.Returned? ==>
        forall r :: r in Renditions ==> !tree.FileInTheWay(RenditionDir(id, r)) && Prefixes(RenditionDir(id, r)) <= tree.dirs
    {
      res := PrepareDirectories(id);
      if res.Raised? {
        return;
      }
      ghost var laidOut := tree;
      res := MoveOriginal(id);
      if res.Raised? {
        MoveRaisedTree(laidOut, id, old(videos)[id].originalName);
        OriginalDirLaidOut(id);
        return;
      }
      LaidOutAndMoved(laidOut, id, old(videos)[id].originalName);
    }

    /**
     * `convert_video`: loads the record (raising when it does not exist),
     * saves status `processing`, then prepares the directories, moves the
     * original, transcodes the three renditions, creates the thumbnail and
     * saves status `ready`. An exception in any step ends the job there.
     */
    method ConvertVideo(videoId: nat, transcoder: string -> int) returns (outcome: JobOutcome)
      requires Valid()
      modifies this
      ensures Valid()
      ensures videoId !in old(videos) ==>
        outcome == RecordNotFound && videos == old(videos) && tree == old(tree) && log == old(log)
      ensures videoId in old(videos) ==> !outcome.RecordNotFound?
      ensures old(log) <= log
      ensures videoId in old(videos) ==> old(log) + [StatusSaved(Processing)] <= log
      ensures outcome.Aborted? ==>
        && videos == old(videos)[videoId := old(videos)[videoId].(status := Processing)]
        && SavedStatuses(log) == SavedStatuses(old(log)) + [Processing]
        && TranscoderRuns(log) == TranscoderRuns(old(log))
      ensures outcome.Aborted? ==> tree.files == old(tree).files && tree.dirs <= old(tree).dirs + LayoutTree(videoId)
      ensures outcome.Completed? <==>
        && videoId in old(videos)
        && MakeAll(old(tree), LayoutDirs(videoId)).Some?
        && MoveFile(MakeAll(old(tree), LayoutDirs(videoId)).value, videoId, old(videos)[videoId].originalName).Moved?
      ensures outcome.Completed? ==>
        var m := MoveFile(MakeAll(old(tree), LayoutDirs(videoId)).value, videoId, old(videos)[videoId].originalName);
        && videos == old(videos)[videoId := old(videos)[videoId].(status := Ready, originalName := m.name)]
        && tree == m.tree
        && LayoutTree(videoId) <= tree.dirs
        && m.source !in tree.files && m.dest in tree.files
      ensures outcome.Completed? ==>
        var m := MoveFile(MakeAll(old(tree), LayoutDirs(videoId)).value, videoId, old(videos)[videoId].originalName);
        var runs := VariantRuns(mediaRoot, videoId, m.name, transcoder);
        TranscoderRuns(log) == TranscoderRuns(old(log)) + [runs[0]] + [runs[1]] + [runs[2]]
      ensures outcome.Completed? ==>
        var m := MoveFile(MakeAll(old(tree), LayoutDirs(videoId)).value, videoId, old(videos)[videoId].originalName);
        var runs := VariantRuns(mediaRoot, videoId, m.name, transcoder);
        SavedStatuses(log) == SavedStatuses(old(log)) + [Processing]
          + ErrorSave(runs[0].exitCode) + ErrorSave(runs[1].exitCode) + ErrorSave(runs[2].exitCode) + [Ready]
    {
      if videoId !in videos {
        return RecordNotFound;
      }
      SaveStatus(videoId, Processing);
      ghost var started := log;
      var res := PrepareAndMove(videoId);
      PrefixTrans(old(log), started, log);
      if res.Raised? {
        return Aborted(res.failure);
      }
      ghost var prepared := log;
      ghost var moved := tree;
      ghost var renamed := videos;
      ghost var runs := VariantRuns(mediaRoot, videoId, renamed[videoId].originalName, transcoder);
      assert Renditions[0] == "480" && Renditions[1] == "720" && Renditions[2] == "1080";
      assert Prefixes(RenditionDir(videoId, "480")) <= moved.dirs && Prefixes(RenditionDir(videoId, "720")) <= moved.dirs && Prefixes(RenditionDir(videoId, "1080")) <= moved.dirs;
      res := ConvertOriginalToVariants(videoId, transcoder);
      PrefixTrans(started, prepared, log);
      assert res.Returned?;
      UnionOfPresent(moved.dirs, Prefixes(RenditionDir(videoId, "480")), Prefixes(RenditionDir(videoId, "720")), Prefixes(RenditionDir(videoId, "1080")));
      assert tree == moved;
      CreateThumbnail(videoId);
      ghost var converted := log;
      SaveStatus(videoId, Ready);
      PrefixTrans(started, converted, log);
      StatusOverwritesError(renamed, videoId, runs[0].exitCode != 0 || runs[1].exitCode != 0 || runs[2].exitCode != 0, Ready);
      StatusRenameStatus(old(videos), videoId, Processing, renamed[videoId].originalName, Ready);
      outcome := Completed;
    }

    /**
     * `convert_video` with `move_original` as the repository has it: the
     * move always raises, so the job ends there with the record stuck in
     * `processing` and no transcoder run.
     */
    method ConvertVideoAsWritten(videoId: nat, transcoder: string -> int) returns (outcome: JobOutcome)
      requires Valid()
      modifies this
      ensures Valid()
      ensures videoId !in old(videos) ==>
        outcome == RecordNotFound && videos == old(videos) && tree == old(tree) && log == old(log)
      ensures videoId in old(videos) ==>
        && outcome.Aborted?
        && videos == old(videos)[videoId := old(videos)[videoId].(status := Processing)]
        && SavedStatuses(log) == SavedStatuses(old(log)) + [Processing]
        && TranscoderRuns(log) == TranscoderRuns(old(log))
      ensures videoId in old(videos) && old(videos)[videoId].originalName != "" && MakeAll(old(tree), LayoutDirs(videoId)).Some? ==>
        outcome == Aborted(ShutilUndefined)
      ensures tree.files == old(tree).files && tree.dirs <= old(tree).dirs + LayoutTree(videoId)
      ensures videoId in old(videos) && MakeAll(old(tree), LayoutDirs(videoId)).Some? ==>
        tree == MakeAll(old(tree), LayoutDirs(videoId)).value
    {
      if videoId !in videos {
        return RecordNotFound;
      }
      SaveStatus(videoId, Processing);
      var res := PrepareDirectories(videoId);
      if res.Raised? {
        return Aborted(res.failure);
      }
      OriginalDirLaidOut(videoId);
      NoFileInTheWayOfDir(tree, OriginalDir(videoId));
      MakeDirsPresent(tree, OriginalDir(videoId));
      res := MoveOriginalAsWritten(videoId);
      outcome := Aborted(res.failure);
    }
  }
}
