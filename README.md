# Videoflix backend core, modelled in Dafny

This project models the core of the Videoflix Django backend and proves properties of the model. It covers three parts.

- **The video processing job** (`video_app/tasks.py`). `convert_video` does the following, in order:
  - saves status `processing`;
  - creates the per-video directory layout under `videos/video_<id>`;
  - moves the uploaded original into `original/` and renames the stored file;
  - transcodes the 480, 720 and 1080 renditions;
  - runs a no-op thumbnail step;
  - saves status `ready`.

  It is modelled as the class `Tasks.Worker`. The class holds the video rows, the media directory tree (directories and regular files as sets of component paths) and a ghost log of what the job did. Each step of the job is one method. The external transcoder is a parameter that maps the shell command to its exit status.
- **The streaming read path** (`video_app/api/view.py`, the routed module, and its twin `video_app/api/views.py`):
  - the list of ready videos, newest first;
  - `get_ready_video`;
  - the playlist and segment handlers.

  These are pure functions over the video rows and the directory tree.
- **Accounts** (`auth_app/api/serializers.py`, `auth_app/utils/email_activation.py`, `auth_app/utils/reset_password.py`):
  - the registration, login and password-confirmation checks, over a map from primary key to user row;
  - the insertion `create` performs, on the class `Accounts.UserTable`;
  - the activation and reset links, and the uid codec they use: the decimal primary key as bytes, encoded as base64url without padding (section 5 of RFC 4648);
  - the token-gated activation and password reset. Each is a specification function plus a method on the table proved against it.

`video_app/models.py` provides the closed enumerations, defaults and column bounds in module `Videos`.

Points of the job that the model keeps exactly as the code has them:
- A failed rendition saves status `error`, but the job keeps going with the next rendition, and at the end it saves `ready` over any `error`.
- The original is moved into `original/` before any rendition is transcoded.
- The thumbnail step does nothing; the thumbnail field is never set by the job.
- `move_original` calls `shutil.copy2`, but `shutil` is never imported. The main model uses the move the code evidently intends. The step as written is modelled beside it (see Findings).

Files:
- `wrappers.dfy`: Option.
- `text.dfy`: decimal strings, split and join, `pathlib` component parsing, substring search.
- `base64url.dfy`: the codec.
- `filesystem.dfy`: the directory tree and `mkdir -p`.
- `videos.dfy`: the video model.
- `tasks.dfy`: the job.
- `streaming.dfy`: the streaming read path.
- `accounts.dfy`: the user table and serializers.
- `activation.dfy`: account activation.
- `passwordreset.dfy`: password reset.

## Model

| member | source | states |
|---|---|---|
| Videos.StatusCode | video_app/models.py:16-21 | every status is stored as one of the four codes `pending`, `processing`, `ready`, `error`, each within the 15-character column |
| Videos.ParseStatus | video_app/models.py:41-45 | a stored status code reads back as a status exactly when it is one of the four choices, and reads back to that code |
| Videos.CategoryCode | video_app/models.py:23-33 | every category is stored as one of the nine codes, each within the 50-character column |
| Videos.ParseCategory | video_app/models.py:40 | a category code reads back exactly when it is one of the nine choices |
| Videos.CodesRoundTrip | video_app/models.py:16-33 | every status and category reads back from its stored code |
| Videos.NewVideo | video_app/models.py:35-45 | a new upload has status `pending` and no thumbnail; it keeps the title, description, category and creation time; it is stored under `videos/originals/<file>`, with `<file>` the name as the storage has already cleaned it; it fits the columns exactly when the title has at most 255 characters |
| Videos.UploadPath | video_app/models.py:38 | the storage name `videos/originals/<file>` resolves to the path `videos`, `originals`, `<file>` |
| Videos.Display | video_app/models.py:47-51 | the string form of a video is its title |
| Videos.VideoDirName | video_app/tasks.py:24 | `video_<id>` is a single path component |
| Videos.VideoRootsDistinct | video_app/tasks.py:24 | different ids never share a `videos/video_<id>` directory |
| FileSystem.MakeDirs | video_app/tasks.py:26 | `mkdir(parents=True, exist_ok=True)` raises exactly when a file stands in the path; otherwise it adds the path and its parents, leaves files alone and keeps the tree well formed |
| FileSystem.MakeDirsIdempotent | video_app/tasks.py:26 | creating a directory that exists changes nothing |
| Tasks.MakeAll | video_app/tasks.py:26-30 | creating the directories in turn fails exactly when one is blocked by a file; otherwise each exists afterwards and the tree gains exactly their prefixes |
| Tasks.MakeAllIdempotent | video_app/tasks.py:23-30 | running the layout step again on its own result changes nothing |
| Tasks.MakeAllExisting | video_app/tasks.py:23-30 | in a well-formed tree that already holds the layout, the step raises nothing and changes nothing |
| Tasks.LayoutTreeExactly | video_app/tasks.py:24-30 | the layout step creates exactly these directories: `videos`, `videos/video_<id>`, `processed`, `original`, `processed/480p`, `processed/720p`, `processed/1080p` and `thumbnails` |
| Tasks.RenditionDirsLaidOut | video_app/tasks.py:27-29 | each rendition directory and its parents are part of the layout |
| Tasks.OriginalDirLaidOut | video_app/tasks.py:26 | the `original` directory and its parents are part of the layout |
| Tasks.ReadyForVariants | video_app/tasks.py:62-64 | after the layout step and the move, no rendition directory is blocked and each already exists |
| Tasks.MovedName | video_app/tasks.py:48 | the new stored name `videos/video_<id>/original/<basename>` resolves, for a proper base name, to the file's new path `original/<basename>` of that video |
| Tasks.CommandWords | video_app/tasks.py:68 | the command has 14 words and starts with `ffmpeg` |
| Tasks.TranscodeCommand | video_app/tasks.py:68 | the command starts with `ffmpeg`, passes the quoted input to `-i`, `hd<res>` to `-s`, 0 to `-start_number`, 10 to `-hls_time`, 0 to `-hls_list_size` and `hls` to `-f`, and ends with the quoted target, which follows `hls` |
| Tasks.RenditionCommand | video_app/tasks.py:62-68 | the command of one rendition reads the stored original's absolute path, scales to `hd<res>` and writes the playlist `processed/<res>p/index.m3u8` of that video |
| Tasks.RenditionRun | video_app/tasks.py:68-70 | one transcoder run is recorded for the named resolution; its command is that rendition's ffmpeg command and its exit status is the transcoder's answer to that command |
| Tasks.VariantRuns | video_app/tasks.py:53-56 | the three runs are the 480, 720 and 1080 renditions, in that order |
| Tasks.MarkError | video_app/tasks.py:71-73 | after a failed run only the record's status changes, and it becomes `error`; after a successful run nothing changes |
| Tasks.MarkErrorTwice | video_app/tasks.py:53-56 | two renditions that may each mark `error` have the effect of one mark if either failed |
| Tasks.StatusOverwritesError | video_app/tasks.py:19-20 | a later status save erases any `error` a rendition saved |
| Tasks.StatusRenameStatus | video_app/tasks.py:11-20 | saving `processing`, then the rename, then `ready` leaves only the rename and `ready` |
| Tasks.OnlyErrorsMore | video_app/tasks.py:71-73 | a rendition adds at most one `error` save to the saved statuses |
| Tasks.Copy | video_app/tasks.py:42 | `shutil.copy2` succeeds exactly for a file source whose destination is neither the source nor a directory; a directory target means `<dir>/<basename>`; copying onto itself raises `SameFileError` |
| Tasks.MoveFile | video_app/tasks.py:33-49 | an empty name raises; a blocked `original` directory raises; a later failure leaves the tree with `original/` created; on success the source was a file and is gone, the file is at the copy target (`original/<basename>`, or one level deeper when that is a directory), the tree gains exactly the `original` directory and its parents, and the new name is `videos/video_<id>/original/<basename>` |
| Tasks.MoveFileSucceeds | video_app/tasks.py:33-49 | the move succeeds exactly when the name is non-empty, nothing blocks `original/`, the name resolves to a file, and the copy target (`original/<basename>`, or one level deeper when that is a directory) is neither the source nor a directory; every other case raises |
| Tasks.MoveAgainRaisesSameFile | video_app/tasks.py:33-49 | moving a record again after its file landed at `original/<basename>` raises `SameFileError` |
| Tasks.MoveFileAsWritten | video_app/tasks.py:33-45 | as written, the move always raises; once the `original` directory exists it raises `NameError` for `shutil` |
| Tasks.ShutilCounterexample | video_app/tasks.py:42 | a fresh upload is moved by the corrected step, but the step as written raises `NameError` |
| Tasks.Worker.SaveStatus | video_app/tasks.py:11-12 | only the record's status changes; one status save is logged |
| Tasks.Worker.RecordRun | video_app/tasks.py:70 | one transcoder run is logged and nothing else changes |
| Tasks.Worker.MakeDirsStep | video_app/tasks.py:26 | the tree is `MakeDirs` of the old tree, or the step raises `FileInTheWay` and nothing changes |
| Tasks.Worker.MakeEach | video_app/tasks.py:26-30 | the loop's result and tree are those of `MakeAll`, and one directory creation is logged per directory; after a raise the files are untouched and the only new directories are among the listed ones and their parents |
| Tasks.Worker.PrepareDirectories | video_app/tasks.py:23-30 | the five layout directories are created in order; the result and tree are those of `MakeAll` over them; rows and files are untouched; whatever the outcome, the only new directories belong to the layout |
| Tasks.Worker.SaveName | video_app/tasks.py:48-49 | only the record's stored name changes |
| Tasks.Worker.CopyStep | video_app/tasks.py:42 | the step's outcome and tree are those of `Copy` |
| Tasks.Worker.UnlinkStep | video_app/tasks.py:45 | the step succeeds exactly for an existing regular file, which it removes |
| Tasks.Worker.MoveOriginal | video_app/tasks.py:33-49 | the tree and outcome are those of `MoveFile`; on success the record is renamed and the mkdir, copy, unlink and rename are logged in that order |
| Tasks.Worker.MoveOriginalAsWritten | video_app/tasks.py:33-42 | the tree and the raised failure are those of `MoveFileAsWritten`; rows are untouched |
| Tasks.Worker.Transcode | video_app/tasks.py:68-73 | one run is made on the stored original; the status becomes `error` exactly when it exits non-zero |
| Tasks.Worker.ConvertResolution | video_app/tasks.py:59-73 | the step succeeds exactly when the rendition directory is not blocked and the record has a file; on success the directory is created, the run is logged and `error` is saved exactly for a non-zero exit |
| Tasks.Worker.ConvertOriginalToVariants | video_app/tasks.py:53-56 | all three renditions run, in order, whatever the earlier exit codes; an `error` save follows each failure; the status ends as `error` when any run failed and is otherwise unchanged |
| Tasks.Worker.CreateThumbnail | video_app/tasks.py:76-78 | the step changes nothing |
| Tasks.Worker.PrepareAndMove | video_app/tasks.py:14-15 | the layout step, then the move; a raise in either leaves the files as they were and adds only layout directories; on success the layout exists, the original is moved and the record renamed, and no rendition directory is blocked |
| Tasks.Worker.ConvertVideo | video_app/tasks.py:8-20 | a missing record raises and nothing changes; otherwise the log only grows and its first new entry saves `processing`; an aborted job leaves status `processing`, runs nothing, keeps every file where it was and adds only layout directories; a job completes exactly when the layout and the move succeed; it then leaves status `ready` even after a failed rendition, the original moved, the layout present, runs for 480, 720 and 1080 in order, and saves `processing`, any `error`s and then `ready`; no thumbnail is set |
| Tasks.Worker.ConvertVideoAsWritten | video_app/tasks.py:8-15 | as written, every job on an existing record aborts with status `processing` and no transcoder run; `NameError` is raised whenever the record has a file and the layout succeeds; no file is touched, and once the layout succeeds the tree is exactly the laid-out one |
| Streaming.ReadyIds | video_app/api/view.py:15 | the filter selects exactly the rows with status `ready` |
| Streaming.NewestFirst | video_app/api/views.py:25 | the ordering lists each row once, with non-increasing creation time |
| Streaming.ListReady | video_app/api/view.py:14-16 | the list holds exactly the ready videos, each once, newest first |
| Streaming.GetReadyVideo | video_app/api/view.py:50-51 | a video is found exactly when its id exists and its status is `ready`; the twin module does the same at video_app/api/views.py:81-85 |
| Streaming.ListedIffFound | video_app/api/view.py:50-51 | a video is listed exactly when the lookup finds it |
| Streaming.ProcessedPath | video_app/api/view.py:24 | when the URL tokens are proper path components, the path is `videos/video_<id>/processed/` followed by them verbatim |
| Streaming.PlaylistPath | video_app/api/view.py:24 | the playlist path is `videos/video_<id>/processed/<resolution>/index.m3u8`; the twin module does the same at video_app/api/views.py:37-44 |
| Streaming.SegmentPath | video_app/api/view.py:40 | the segment path is `videos/video_<id>/processed/<resolution>/<segment>`; the twin module does the same at video_app/api/views.py:63-70 |
| Streaming.PlaylistOfRendition | video_app/api/view.py:24 | the token `480p` reaches the job's `processed/480p/index.m3u8`; the bare `480` does not, because no `p` is appended (likewise for 720 and 1080) |
| Streaming.ServeFile | video_app/api/view.py:26-32 | a missing path gives 404; an existing file is served with the given content type; an existing directory fails to open |
| Streaming.Playlist | video_app/api/view.py:19-32 | a video that is not ready gives 404; otherwise the playlist path is checked and served as `application/vnd.apple.mpegurl`; the twin module does the same at video_app/api/views.py:29-52 |
| Streaming.Segment | video_app/api/view.py:35-48 | a video that is not ready gives 404; otherwise the segment path is checked and served as `video/MP2T`; the twin module does the same at video_app/api/views.py:55-78 |
| Streaming.ReadinessBeforeFiles | video_app/api/view.py:20-27 | for a video that is missing or not ready, both handlers answer 404 whatever files exist |
| Streaming.PlaylistOfReadyVideo | video_app/api/view.py:24-32 | for a ready video, the playlist is served exactly when `processed/<resolution>/index.m3u8` is a file, and a missing path gives 404 |
| Streaming.SegmentOfReadyVideo | video_app/api/views.py:63-78 | for a ready video, a segment is served exactly when it is a file, and a missing path gives 404 |
| Accounts.UsersWithEmail | auth_app/api/serializers.py:38 | the filter selects exactly the rows with that email |
| Accounts.UserByEmail | auth_app/api/serializers.py:79-84 | the lookup finds no row, several rows, or the single row with that email; with unique emails it never finds several |
| Accounts.ValidateConfirmedPassword | auth_app/api/serializers.py:29-35 | a mismatch is rejected exactly when both entries are non-empty and differ |
| Accounts.ValidateEmail | auth_app/api/serializers.py:37-42 | an email is rejected exactly when some row already has it |
| Accounts.RegistrationRejectionsAlike | auth_app/api/serializers.py:29-42 | both registration rejections carry the same message |
| Accounts.NewUser | auth_app/api/serializers.py:44-58 | the new row's username and email are the submitted email; it holds the submitted password and is inactive |
| Accounts.RegistrationKeepsEmailsUnique | auth_app/api/serializers.py:37-58 | a registration that passed the email check keeps emails unique |
| Accounts.Login | auth_app/api/serializers.py:75-108 | an unknown email or a wrong password gives "Invalid email or password."; a right password on an inactive account gives "Account is not activated."; otherwise the result carries that user's id and username |
| Accounts.LoginDoesNotRevealAccounts | auth_app/api/serializers.py:79-94 | an unknown email and a wrong password get the identical answer; "not activated" is only given for the right password |
| Accounts.LoginAfterRegistration | auth_app/api/serializers.py:50-56 | a fresh registration can not log in until activated, even with the right password |
| Accounts.ConfirmPassword | auth_app/api/serializers.py:127-132 | the confirmation is rejected exactly when the two entries differ |
| Accounts.PkBytes | auth_app/utils/email_activation.py:15 | `force_bytes(pk)` gives the ASCII codes of the decimal digits of the key |
| Accounts.EncodeUid | auth_app/utils/email_activation.py:15 | the uid contains no `/` |
| Accounts.DecodeUid | auth_app/utils/email_activation.py:54-55 | a uid gives a key exactly when it is valid base64url whose bytes are a non-empty run of ASCII digits; `reset_password.py:54-55` decodes the same way |
| Base64Url.Encode | auth_app/utils/email_activation.py:15 | the encoding uses only letters of the base64url alphabet, with no `=` padding and no `/` |
| Base64Url.Decode | auth_app/utils/email_activation.py:54 | decoding succeeds exactly when every character is in the base64url alphabet and the length does not leave one dangling letter |
| Accounts.AsciiText | auth_app/utils/email_activation.py:54 | the ASCII subset of `.decode()`: bytes decode to text exactly when all are below 128, one character per byte |
| Accounts.UidRoundTrip | auth_app/utils/email_activation.py:53-55 | the uid made from a key decodes back to that key |
| Base64Url.RoundTrip | auth_app/utils/reset_password.py:20 | decoding the base64url encoding of any byte string gives it back |
| Accounts.UserByUid | auth_app/utils/email_activation.py:53-57 | the row is found exactly when the uid decodes and that key exists |
| Accounts.UserByOwnUid | auth_app/utils/reset_password.py:53-57 | a row's own uid finds that row |
| Accounts.LinkPathOfTwo | auth_app/utils/email_activation.py:19 | a two-word route with uid and token joins to `/<w1>/<w2>/<uid>/<token>/` |
| Accounts.LinkCarriesKey | auth_app/utils/email_activation.py:19 | a link path splits back into route, uid and token, and its uid part decodes to the key |
| Accounts.UserTable.Create | auth_app/api/serializers.py:44-58 | exactly one new row is added under a fresh id; it is the `NewUser` row |
| Accounts.UserTable.Save | auth_app/utils/email_activation.py:64 | only the saved row changes |
| Activation.ActivationLink | auth_app/utils/email_activation.py:15-19 | the link is exactly `<BACKEND_BASE_URL>/api/activate/<uid>/<token>/` |
| Activation.ActivationLinkCarriesKey | auth_app/utils/email_activation.py:15-19 | after the base URL, the link splits into the `api/activate` route, the uid and the token, and the uid decodes to the user's key |
| Accounts.LinkMailBody | auth_app/utils/email_activation.py:23-28 | the layout both mails share (`reset_password.py:28-32` too): the body opens with its opening text and carries the link on a line of its own between blank lines |
| Activation.ActivationBody | auth_app/utils/email_activation.py:23-28 | the plain-text body opens with the welcome text and contains the link, on a line of its own between blank lines |
| Activation.ActivationMail | auth_app/utils/email_activation.py:21-46 | the mail goes to exactly one recipient, the user's email; it carries the activation link in its body |
| Activation.Activate | auth_app/utils/email_activation.py:49-67 | an undecodable uid or a missing row gives None and changes nothing; an active row is returned without a token check; an inactive row is activated exactly on a valid token; on success the table is the old one with the returned, active row in place; otherwise None and no change |
| Activation.ActivationOnlyActivates | auth_app/utils/email_activation.py:59-65 | only `is_active` of the addressed row can change, only from false to true, and after a success that row is active |
| Activation.ActivationIdempotent | auth_app/utils/email_activation.py:59-60 | once activation succeeded, repeating it with any token returns the same row and changes nothing |
| Activation.LoginAfterActivation | auth_app/utils/email_activation.py:62-65 | after activation the account logs in with its password |
| Activation.ActivateUser | auth_app/utils/email_activation.py:49-67 | the result and the table are those of `Activate` |
| PasswordReset.ResetLink | auth_app/utils/reset_password.py:20-24 | the link is exactly `<CSRF_TRUSTED_ORIGINS[0]>/reset-password/<uid>/<token>/` |
| PasswordReset.ResetLinkCarriesKey | auth_app/utils/reset_password.py:20-24 | after the origin, the link splits into the `reset-password` route, the uid and the token, and the uid decodes to the user's key |
| PasswordReset.ResetBody | auth_app/utils/reset_password.py:28-32 | the plain-text body opens with the reset notice and contains the link, on a line of its own between blank lines |
| PasswordReset.SendResetEmail | auth_app/utils/reset_password.py:14-46 | nothing is sent for an unknown email; otherwise the single mail goes to exactly the user's email and carries the reset link for that user |
| PasswordReset.Reset | auth_app/utils/reset_password.py:49-64 | the password becomes the new one exactly for a found row and a valid token, whether the account is active or not; on success the table is the old one with the returned row in place; otherwise None and no change |
| PasswordReset.ResetOnlyChangesPassword | auth_app/utils/reset_password.py:59-62 | only the password of the addressed row can change |
| PasswordReset.LoginAfterReset | auth_app/utils/reset_password.py:59-62 | after a reset, an active account logs in with the new password, and any other password is rejected |
| PasswordReset.ResetUserPassword | auth_app/utils/reset_password.py:49-64 | the result and the table are those of `Reset` |

## Left out

- The transcoder process. `subprocess.run(cmd, shell=True)` is an oracle from the command string to an exit status. The shell's parsing of the command, and the playlist and segment files ffmpeg writes, are not modelled. The job's tree therefore never gains `index.m3u8` or segments.
- The `print` calls (`video_app/tasks.py:60`, `:77`).
- MEDIA_ROOT. Paths are relative to it; only the transcoder's input and output paths render it as a string prefix.
- `..` in a URL token. The operating system resolves it during `exists()`; the model treats it as an ordinary component name.
- The streamed bytes. `FileResponse` over an open file is modelled only as the path served and its content type.
- Upload renaming. The storage's clean-up of the upload name (`get_valid_filename`: spaces become underscores, characters other than letters, digits, `-`, `_` and `.` are dropped) and its collision renaming are not modelled.
- Videos.NewVideo: takes the file name as the storage has already cleaned it, so names with spaces or other dropped characters are not covered.
- Exception types other than those named in `Failure`, and database errors: disk full, permissions, integrity errors.
- Queue triggering and signals.
- Password hashing. `set_password` and `check_password` are modelled as storing the password and comparing it for equality.
- The token generator. It is the oracles `makeToken` and `checkToken`. The links' uid round trip is proved for slash-free tokens, which is what Django's tokens are.
- The JWT pair produced by `TokenObtainPairSerializer.validate`. The login result carries only the `user` part.
- Mail delivery. The HTML alternative, the template rendering and the sender address are not modelled. The mail is a value: subject, plain-text body and recipients.
- DRF's own field validation before `validate_*` runs (email format, blank fields, and the trimming of surrounding whitespace from each `CharField` value). The user-visible HTTP plumbing in the views is not modelled either.
- Accounts.ValidateConfirmedPassword: compares the two entries as given. The source compares the trimmed confirmation with the raw `password` from `initial_data`, so a pair such as `"pw "`/`"pw "` is rejected there and accepted here.
- Races. A second registration with the same email between `validate_email` and `create` is not modelled.
- Settings (`BACKEND_BASE_URL`, `CSRF_TRUSTED_ORIGINS[0]`). They are parameters; an empty origin list, which would raise `IndexError`, is not modelled.
- Base64Url.Decode: a strict base64url decoder. Django's `urlsafe_base64_decode` pads the uid with `=` to `len % 4` more characters, and `base64.urlsafe_b64decode` then maps `-` and `_` to `+` and `/` and decodes non-strictly. There, `+` and `/` decode as the values 62 and 63, other characters outside the alphabet are dropped, and a `=` before the end can cut decoding short. Here all such strings give None: `"M+"` and `"M/"` decode to `b"3"` in Python.
- Accounts.DecodeUid: accepts only a strict base64url string of ASCII digits, so the uids listed under Base64Url.Decode give no key here. For example, uid `"M+"` is key 3 in Django. Python's `int` also accepts a sign, surrounding whitespace, underscores and non-ASCII digits. Such uids also give None here, where Django may find a row.
- Accounts.AsciiText: decodes ASCII only. Python's `bytes.decode()` is UTF-8, so a multi-byte sequence such as `b"\xd9\xa1"` (ARABIC-INDIC DIGIT ONE) decodes there and gives None here. Only a uid whose bytes are such characters is affected, and `int` would accept some of them (see the DecodeUid line).
- Streaming.ListReady: rows created at the same instant come in an order the model leaves open, as the database does. This is why it is a ghost function.

## Findings

| source | as written | input that shows it | evidently intended | confidence | as-written member | corrected member |
|---|---|---|---|---|---|---|
| video_app/tasks.py:42 | `shutil.copy2` is called, but `shutil` is never imported (only `settings`, `Path`, `Video` and `subprocess` are). Once `original/` is created, `move_original` raises `NameError`, so every job stops with the record in `processing` and no rendition. | record 1 with stored name `videos/originals/clip.mp4` in a media tree holding just that file | import `shutil`; copy the file into `original/`, delete the source and rename the record | high (not executed) | Tasks.ShutilCounterexample | Tasks.MoveFile |
