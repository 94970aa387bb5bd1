/**
 * The `Video` record of video_app/models.py: closed enumerations for status and
 * category, column bounds, the defaults of a new upload, `__str__`, and the
 * per-video directory name shared by the job and the streaming views.
 */
module Videos {
  import opened Wrappers
  import opened Text
  import opened FileSystem

  datatype Status = Pending | Processing | Ready | Error

  datatype Category =
    Drama | Romance | Comedy | Action | Thriller | Crime | Documentary | Family | Fantasy

  const StatusMaxLength := 15
  const CategoryMaxLength := 50
  const TitleMaxLength := 255

  /** `upload_to` of the original_file field. */
  const UploadTo := "videos/originals/"

  const StatusCodes: set<string> := {"pending", "processing", "ready", "error"}

  const CategoryCodes: set<string> :=
    {"drama", "romance", "comedy", "action", "thriller", "crime", "documentary", "family", "fantasy"}

  /** The value stored in the `status` column. */
  function StatusCode(s: Status): (code: string)
    ensures code in StatusCodes && |code| <= StatusMaxLength
  {
    match s
    case Pending => "pending"
    case Processing => "processing"
    case Ready => "ready"
    case Error => "error"
  }

  /** Reading a `status` column value back; only the four choices are statuses. */
  function ParseStatus(code: string): (r: Option<Status>)
    ensures r.Some? <==> code in StatusCodes
    ensures r.Some? ==> StatusCode(r.value) == code
  {
    if code == "pending" then Some(Pending)
    else if code == "processing" then Some(Processing)
    else if code == "ready" then Some(Ready)
    else if code == "error" then Some(Error)
    else None
  }

  /** The value stored in the `category` column. */
  function CategoryCode(c: Category): (code: string)
    ensures code in CategoryCodes && |code| <= CategoryMaxLength
  {
    match c
    case Drama => "drama"
    case Romance => "romance"
    case Comedy => "comedy"
    case Action => "action"
    case Thriller => "thriller"
    case Crime => "crime"
    case Documentary => "documentary"
    case Family => "family"
    case Fantasy => "fantasy"
  }

  /** Reading a `category` column value back; only the nine choices are categories. */
  function ParseCategory(code: string): (r: Option<Category>)
    ensures r.Some? <==> code in CategoryCodes
    ensures r.Some? ==> CategoryCode(r.value) == code
  {
    if code == "drama" then Some(Drama)
    else if code == "romance" then Some(Romance)
    else if code == "comedy" then Some(Comedy)
    else if code == "action" then Some(Action)
    else if code == "thriller" then Some(Thriller)
    else if code == "crime" then Some(Crime)
    else if code == "documentary" then Some(Documentary)
    else if code == "family" then Some(Family)
    else if code == "fantasy" then Some(Fantasy)
    else None
  }

  /** Each enumeration value is stored under a code that reads back as that value. */
  lemma CodesRoundTrip(s: Status, c: Category)
    ensures ParseStatus(StatusCode(s)) == Some(s)
    ensures ParseCategory(CategoryCode(c)) == Some(c)
  {
  }

  /**
   * One row of the video table. `originalName` is the storage name of
   * `original_file` (relative to MEDIA_ROOT); `createdAt` is the
   * `auto_now_add` timestamp as an integer.
   */
  datatype VideoRecord = VideoRecord(
    createdAt: int,
    title: string,
    description: string,
    originalName: string,
    thumbnail: Option<string>,
    category: Category,
    status: Status)

  /** The column bounds of the model hold. */
  predicate FitsColumns(v: VideoRecord)
  {
    |v.title| <= TitleMaxLength
    && |CategoryCode(v.category)| <= CategoryMaxLength
    && |StatusCode(v.status)| <= StatusMaxLength
  }

  /**
   * A freshly uploaded video: status defaults to pending, no thumbnail, and the
   * upload stored under `videos/originals/` with the given file name.
   */
  function NewVideo(createdAt: int, title: string, description: string, fileName: string,
                    category: Category): (v: VideoRecord)
    ensures v.status == Pending && v.thumbnail == None
    ensures v.title == title && v.description == description
    ensures v.category == category && v.createdAt == createdAt
    ensures IsComponent(fileName) ==> PathOf(v.originalName) == ["videos", "originals", fileName]
    ensures FitsColumns(v) <==> |title| <= TitleMaxLength
  {
    UploadPath(fileName);
    VideoRecord(createdAt, title, description, UploadTo + fileName, None, category, Pending)
  }

  lemma UploadPath(fileName: string)
    ensures IsComponent(fileName) ==> PathOf(UploadTo + fileName) == ["videos", "originals", fileName]
  {
    if IsComponent(fileName) {
      var parts := ["videos", "originals", fileName];
      assert Join(parts[2..], "/") == fileName;
      assert Join(parts[1..], "/") == "originals" + "/" + fileName;
      assert UploadTo + fileName == Join(parts, "/");
      PathOfJoin(["videos", "originals", fileName]);
    }
  }

  /** `Video.__str__`. */
  function Display(v: VideoRecord): (s: string)
    ensures s == v.title
  {
    v.title
  }

  /** The directory name of one video: `video_<id>`. */
  function VideoDirName(id: nat): (c: string)
    ensures IsComponent(c)
  {
    var c := "video_" + NatToDecimal(id);
    assert c[0] == 'v';
    assert forall i :: 0 <= i < |c| ==> c[i] != '/';
    c
  }

  /** `videos/video_<id>` under MEDIA_ROOT, the root of everything the job writes for one video. */
  function VideoRoot(id: nat): Path
  {
    ["videos", VideoDirName(id)]
  }

  /** Different videos never share a directory. */
  lemma VideoRootsDistinct(a: nat, b: nat)
    requires a != b
    ensures VideoRoot(a) != VideoRoot(b)
  {
    if VideoDirName(a) == VideoDirName(b) {
      var da, db := NatToDecimal(a), NatToDecimal(b);
      assert ("video_" + da)[6..] == da;
      assert ("video_" + db)[6..] == db;
      DecimalRoundTrip(a);
      DecimalRoundTrip(b);
    }
  }
}
