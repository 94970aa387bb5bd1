/**
 * The streaming read path of video_app/api/view.py (the routed module) and
 * its twin video_app/api/views.py: the list of ready videos, the readiness
 * lookup, and the playlist and segment handlers. The handlers are decisions
 * over the video rows and the media directory tree; the bytes they stream
 * are not modelled.
 */
module Streaming {
  import opened Wrappers
  import opened Text
  import opened FileSystem
  import opened Videos
  import Tasks

  const PlaylistType := "application/vnd.apple.mpegurl"
  const SegmentType := "video/MP2T"

  /** Why a handler answered 404. */
  datatype NotFoundReason =
    | NoReadyVideo   // `get_object_or_404(Video, id=..., status="ready")` raised Http404
    | NoSuchPath     // the `exists()` check failed

  /** What a handler answers. */
  datatype Response =
    | NotFound(reason: NotFoundReason)
    | Served(path: Path, contentType: string)   // a FileResponse over the file at `path`
    | OpenFailed(path: Path)                     // `open` of an existing directory raises

  /** The rows `Video.objects.filter(status="ready")` selects. */
  function ReadyIds(videos: map<nat, VideoRecord>): (ids: set<nat>)
    ensures ids <= videos.Keys
    ensures forall id :: id in ids <==> id in videos && videos[id].status == Ready
  {
    set id | id in videos && videos[id].status == Ready
  }

  /** Every non-empty set of rows has a newest row. */
  lemma {:induction false} NewestExists(videos: map<nat, VideoRecord>, ids: set<nat>)
    requires ids != {} && ids <= videos.Keys
    ensures exists x :: x in ids && forall y :: y in ids ==> videos[x].createdAt >= videos[y].createdAt
    decreases ids
  {
    var z :| z in ids;
    var rest := ids - {z};
    if rest == {} {
      forall y | y in ids
        ensures y == z
      {
        assert y !in rest;
      }
      assert forall y :: y in ids ==> videos[z].createdAt >= videos[y].createdAt;
    } else {
      NewestExists(videos, rest);
      var x :| x in rest && forall y :: y in rest ==> videos[x].createdAt >= videos[y].createdAt;
      if videos[z].createdAt >= videos[x].createdAt {
        assert forall y :: y in ids ==> videos[z].createdAt >= videos[y].createdAt;
      } else {
        assert forall y :: y in ids ==> videos[x].createdAt >= videos[y].createdAt;
      }
    }
  }

  /**
   * `order_by("-created_at")` over the rows `ids`: each row once, newest
   * first. Rows created at the same time may come in any order, as the
   * database leaves them.
   */
  ghost function NewestFirst(videos: map<nat, VideoRecord>, ids: set<nat>): (s: seq<nat>)
    requires ids <= videos.Keys
    ensures |s| == |ids|
    ensures forall i :: 0 <= i < |s| ==> s[i] in ids
    ensures forall x :: x in ids ==> x in s
    ensures forall i, j :: 0 <= i < j < |s| ==> s[i] != s[j]
    ensures forall i, j :: 0 <= i < j < |s| ==> videos[s[i]].createdAt >= videos[s[j]].createdAt
    decreases ids
  {
    if ids == {} then []
    else
      NewestExists(videos, ids);
      var x :| x in ids && forall y :: y in ids ==> videos[x].createdAt >= videos[y].createdAt;
      var rest := NewestFirst(videos, ids - {x});
      [x] + rest
  }

  /**
   * `VideoListAPIView.queryset`: exactly the ready videos, each once,
   * ordered by creation time, newest first.
   */
  ghost function ListReady(videos: map<nat, VideoRecord>): (s: seq<nat>)
    ensures forall id :: id in s <==> id in videos && videos[id].status == Ready
    ensures forall i, j :: 0 <= i < j < |s| ==> s[i] != s[j]
    ensures forall i :: 0 <= i < |s| ==> s[i] in videos && videos[s[i]].status == Ready
    ensures forall i, j :: 0 <= i < j < |s| ==> videos[s[i]].createdAt >= videos[s[j]].createdAt
  {
    NewestFirst(videos, ReadyIds(videos))
  }

  /** `get_ready_video`: the row with that id, only when its status is `ready`. */
  function GetReadyVideo(videos: map<nat, VideoRecord>, movieId: nat): (r: Option<VideoRecord>)
    ensures r.Some? <==> movieId in videos && videos[movieId].status == Ready
    ensures r.Some? ==> r.value == videos[movieId]
  {
    if movieId in videos && videos[movieId].status == Ready then Some(videos[movieId]) else None
  }

  /** A video the lookup finds is one the list shows, and the other way round. */
  lemma ListedIffFound(videos: map<nat, VideoRecord>, movieId: nat)
    ensures movieId in ListReady(videos) <==> GetReadyVideo(videos, movieId).Some?
  {
  }

  /**
   * `MEDIA_ROOT / "videos" / f"video_{id}" / "processed" / t1 / ... / tn`,
   * relative to MEDIA_ROOT. `pathlib` drops "." and empty pieces; the URL
   * tokens are used verbatim otherwise.
   */
  function ProcessedPath(movieId: nat, tokens: seq<string>): (p: Path)
    ensures (forall i :: 0 <= i < |tokens| ==> IsComponent(tokens[i])) ==> p == Tasks.ProcessedDir(movieId) + tokens
  {
    ProcessedPartsNormal(movieId, tokens);
    Normalize(["videos", VideoDirName(movieId), "processed"] + tokens)
  }

  lemma ProcessedPartsNormal(movieId: nat, tokens: seq<string>)
    ensures (forall i :: 0 <= i < |tokens| ==> IsComponent(tokens[i])) ==>
      Normalize(["videos", VideoDirName(movieId), "processed"] + tokens) == Tasks.ProcessedDir(movieId) + tokens
  {
    var parts := ["videos", VideoDirName(movieId), "processed"] + tokens;
    if forall i :: 0 <= i < |tokens| ==> IsComponent(tokens[i]) {
      forall i | 0 <= i < |parts|
        ensures IsComponent(parts[i])
      {
        if i >= 3 {
          assert parts[i] == tokens[i - 3];
        }
      }
      NormalizeComponents(parts);
    }
  }

  /** Where the playlist handler looks: `processed/<resolution>/index.m3u8`, the token verbatim. */
  function PlaylistPath(movieId: nat, resolution: string): (p: Path)
    ensures IsComponent(resolution) ==> p == Tasks.ProcessedDir(movieId) + [resolution, "index.m3u8"]
  {
    ProcessedPath(movieId, [resolution, "index.m3u8"])
  }

  /** Where the segment handler looks: `processed/<resolution>/<segment>`, both tokens verbatim. */
  function SegmentPath(movieId: nat, resolution: string, segment: string): (p: Path)
    ensures IsComponent(resolution) && IsComponent(segment) ==>
      p == Tasks.ProcessedDir(movieId) + [resolution, segment]
  {
    ProcessedPath(movieId, [resolution, segment])
  }

  /**
   * The playlist URL finds the job's output when the client names the
   * rendition directory (`480p`); the bare resolution (`480`) does not,
   * since no `p` is appended.
   */
  lemma PlaylistOfRendition(movieId: nat, resolution: string)
    requires resolution in Tasks.Renditions
    ensures PlaylistPath(movieId, resolution + "p") == Tasks.RenditionPlaylist(movieId, resolution)
    ensures PlaylistPath(movieId, resolution) != Tasks.RenditionPlaylist(movieId, resolution)
  {
    var named := resolution + "p";
    assert IsComponent(named) by {
      assert named[|named| - 1] == 'p';
      assert forall i :: 0 <= i < |named| ==> named[i] != '/';
    }
    assert IsComponent(resolution);
    assert |resolution| < |named|;
    assert PlaylistPath(movieId, resolution)[3] == resolution;
  }

  /** The existence check, then the open, of a path for a ready video. */
  function ServeFile(tree: FileTree, p: Path, contentType: string): (r: Response)
    ensures !tree.Exists(p) <==> r == NotFound(NoSuchPath)
    ensures r.Served? <==> p in tree.files && !tree.IsDir(p)
    ensures r.Served? ==> r.path == p && r.contentType == contentType
    ensures r.OpenFailed? <==> tree.IsDir(p)
    ensures tree.Valid() ==> (r.Served? <==> p in tree.files)
  {
    if !tree.Exists(p) then NotFound(NoSuchPath)
    else if tree.IsDir(p) then OpenFailed(p)
    else Served(p, contentType)
  }

  /** `VideoPlaylistAPIView.get`. */
  function Playlist(videos: map<nat, VideoRecord>, tree: FileTree, movieId: nat, resolution: string): (r: Response)
    ensures GetReadyVideo(videos, movieId).None? <==> r == NotFound(NoReadyVideo)
    ensures GetReadyVideo(videos, movieId).Some? ==> r == ServeFile(tree, PlaylistPath(movieId, resolution), PlaylistType)
    ensures r.Served? ==> r.path == PlaylistPath(movieId, resolution) && r.contentType == PlaylistType
  {
    match GetReadyVideo(videos, movieId)
    case None => NotFound(NoReadyVideo)
    case Some(_) => ServeFile(tree, PlaylistPath(movieId, resolution), PlaylistType)
  }

  /** `VideoSegmentAPIView.get`. */
  function Segment(videos: map<nat, VideoRecord>, tree: FileTree, movieId: nat, resolution: string, segment: string): (r: Response)
    ensures GetReadyVideo(videos, movieId).None? <==> r == NotFound(NoReadyVideo)
    ensures GetReadyVideo(videos, movieId).Some? ==> r == ServeFile(tree, SegmentPath(movieId, resolution, segment), SegmentType)
    ensures r.Served? ==> r.path == SegmentPath(movieId, resolution, segment) && r.contentType == SegmentType
  {
    match GetReadyVideo(videos, movieId)
    case None => NotFound(NoReadyVideo)
    case Some(_) => ServeFile(tree, SegmentPath(movieId, resolution, segment), SegmentType)
  }

  /**
   * The readiness check comes before the file check: for a video that is
   * missing or not ready, the answer is the same whatever files exist.
   */
  lemma ReadinessBeforeFiles(videos: map<nat, VideoRecord>, t1: FileTree, t2: FileTree, movieId: nat, resolution: string, segment: string)
    requires !(movieId in videos && videos[movieId].status == Ready)
    ensures Playlist(videos, t1, movieId, resolution) == Playlist(videos, t2, movieId, resolution) == NotFound(NoReadyVideo)
    ensures Segment(videos, t1, movieId, resolution, segment) == Segment(videos, t2, movieId, resolution, segment) == NotFound(NoReadyVideo)
  {
  }

  /**
   * For a ready video in a well-formed tree, a playlist is served exactly
   * when `index.m3u8` is a file in the named rendition directory, and a
   * missing path answers 404.
   */
  lemma PlaylistOfReadyVideo(videos: map<nat, VideoRecord>, tree: FileTree, movieId: nat, resolution: string)
    requires tree.Valid() && movieId in videos && videos[movieId].status == Ready && IsComponent(resolution)
    ensures var p := Tasks.ProcessedDir(movieId) + [resolution, "index.m3u8"];
      && (Playlist(videos, tree, movieId, resolution) == Served(p, PlaylistType) <==> p in tree.files)
      && (Playlist(videos, tree, movieId, resolution) == NotFound(NoSuchPath) <==> !tree.Exists(p))
  {
  }

  /** The same for a segment: served exactly when it is a file of the named rendition directory. */
  lemma SegmentOfReadyVideo(videos: map<nat, VideoRecord>, tree: FileTree, movieId: nat, resolution: string, segment: string)
    requires tree.Valid() && movieId in videos && videos[movieId].status == Ready
    requires IsComponent(resolution) && IsComponent(segment)
    ensures var p := Tasks.ProcessedDir(movieId) + [resolution, segment];
      && (Segment(videos, tree, movieId, resolution, segment) == Served(p, SegmentType) <==> p in tree.files)
      && (Segment(videos, tree, movieId, resolution, segment) == NotFound(NoSuchPath) <==> !tree.Exists(p))
  {
  }
}
