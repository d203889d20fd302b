# my-downloader: the download request decision, in Dafny

The server offers one real operation, `POST /download`. It takes a form with a
`url` and a `format_choice`. It checks the URL against a fixed allow-list of
site substrings, makes a private work directory, runs `yt-dlp` there with
either an audio or a video profile, and replies. The reply is the newest file
the tool left behind as an attachment, or a plain error. A background thread
then deletes the work directory five seconds later, on every path that created
it.

This project models that decision procedure as pure functions and proves what
it promises:

- `strings.dfy` (module `Strings`): the Python and POSIX text operations the
  handler relies on. These are the substring test `in`, `str.strip()`,
  `os.path.join` and `os.path.basename`, each with a contract that says what it
  computes.
- `server.dfy` (module `Server`): the allow-list, form validation, command
  construction, selection of the newest file, the mapping from tool outcome to
  response, and the handler's side effects as an ordered list of `Effect`
  values.

The process, the filesystem and the clock are inputs to `Download`:

- `workdir` is the name `tempfile.mkdtemp` returned.
- `run` is what `subprocess.run` gave: `Exit(code, stderr)`, `Timeout` or
  `Error(message)`.
- `listing` is what scanning the directory gave: the `(path, ctime)` pairs from
  `glob.glob` and `os.path.getctime`, or `ListingError(message)` when that scan
  or the opening of the chosen file raised an exception.

Side effects are recorded, not performed: `CreateWorkDir`, `RunTool` (with the
command and the 600-second timeout), `ListFiles` and `ScheduleCleanup` (with the
directory and the 5-second delay).

## Model

| member | source | states |
|---|---|---|
| `Strings.FindFrom` | server.py:108 | the search from a position succeeds exactly when the needle occurs at that position or a later one |
| `Strings.Contains` | server.py:108 | Python's `needle in hay` holds exactly when `needle` occurs at some position of `hay` |
| `Strings.SubstringTransitive` | server.py:108 | an occurrence inside an occurrence is an occurrence in the whole text |
| `Strings.OneOfIsMembership` | server.py:116 | the table scan used for whitespace accepts a character exactly when it is one of the listed characters (the 29 characters Python's `str.isspace()` accepts) |
| `Strings.SkipSpaces` | server.py:116 | the left scan of `strip()` stops at the first position that does not hold whitespace (or the end), and everything it passed over is whitespace |
| `Strings.BackOverSpaces` | server.py:116 | the right scan of `strip()` never passes where the left scan stopped, everything it passed over is whitespace, and it stops just after a non-whitespace character unless it reached that limit |
| `Strings.Strip` | server.py:116 | `str.strip()` returns a part of its input; that part is empty exactly when the input is all whitespace, and otherwise neither starts nor ends with whitespace |
| `Strings.StripBetween` | server.py:116 | when the text starts with whitespace up to `i`, ends with whitespace from `j` and has non-whitespace at `i` and `j - 1`, `strip()` returns exactly the part from `i` to `j` |
| `Strings.StripSurrounded` | server.py:116 | text with non-whitespace at both ends comes back unchanged from between any two runs of whitespace |
| `Strings.StripIgnoresPadding` | server.py:116 | adding whitespace on either side never changes what `strip()` returns |
| `Strings.StripIdempotent` | server.py:116 | stripping twice gives the same result as stripping once |
| `Strings.Join` | server.py:123 | `os.path.join(a, b)`: an absolute `b` replaces `a`; otherwise the result starts with `a` and ends with `b`, with nothing between them when `a` is empty or ends in '/', and exactly one '/' between them otherwise |
| `Strings.Basename` | server.py:154 | `os.path.basename(p)` is the slash-free suffix of `p` after its last '/' (all of `p` if it has none) |
| `Strings.BasenameOfJoin` | server.py:123 | the base name of a directory joined with a slash-free name is that name |
| `Server.AnyOccursIn` | server.py:108 | `any(site in url for site in sites)` holds exactly when some listed site occurs in the URL |
| `Server.AllowedUrl` | server.py:12-17 | `allowed_url` holds exactly when one of the eight `ALLOWED_SITES` strings occurs in the URL; a URL containing none of them is refused |
| `Server.SubdomainEntriesRedundant` | server.py:12-17 | "vt.tiktok.com" and "www.instagram.com" never change the verdict: the six other entries decide it alone |
| `Server.ShortLinkAllowed` | server.py:107-108 | a short link `https://youtu.be/abc123` passes the allow-list |
| `Server.LookalikeHostsAllowed` | server.py:107-108 | the check is a substring test: `https://netflix.com/title/1` passes because it contains "x.com", and `https://evil.example/?u=youtube.com` passes because of its query string |
| `Server.QueryStringSiteAllowed` | server.py:107-108 | any text at all passes the allow-list once `?u=` followed by any of the eight listed sites is placed in it, whatever comes before or after |
| `Server.FormGet` | server.py:116-117 | `request.form.get(key, default)` is the submitted value when the key is present and the default otherwise |
| `Server.Validate` | server.py:116-120 | a request is rejected exactly when the stripped `url` field (missing counts as "") is empty or not allowed; an accepted request carries the stripped URL and the `format_choice` field (default "mp4") |
| `Server.AcceptedRequestIsClean` | server.py:116-117 | an accepted URL was submitted, is non-empty, has no whitespace at either end and occurs in the submitted text; a missing `format_choice` reads as "mp4" and a present one is kept exactly |
| `Server.ValidateIgnoresSurroundingSpace` | server.py:116 | whitespace added around the submitted URL changes nothing about validation |
| `Server.OutputPath` | server.py:123 | the output template ends in `%(title)s.%(ext)s`, and for a work directory not ending in '/' it is `workdir/%(title)s.%(ext)s` |
| `Server.BuildCommand` | server.py:123-142 | every command starts with `yt-dlp`, ends with the URL and has `-o` followed by the output template; it has `--extract-audio` exactly when the choice is "mp3", and then `-f bestaudio/best` and `--audio-format mp3`; every other choice gives `-f bestvideo+bestaudio/best` and `--merge-output-format mp4`; the command has exactly 9 arguments for "mp3" and 8 otherwise, so it holds these and nothing else |
| `Server.LatestIndex` | server.py:153 | `max(files, key=os.path.getctime)` picks a listed file whose ctime is at least every listed ctime, and every earlier file's ctime is strictly smaller (on ties the first wins) |
| `Server.Respond` | server.py:144-160 | once the tool has been started, the reply is an attachment exactly when the tool exited 0 and the listing found at least one file; every other reply is a 500 |
| `Server.Handle` | server.py:122-168 | accepted work always creates the work directory first, always ends by scheduling its cleanup, and never replies 400 |
| `Server.Download` | server.py:114-168 | a rejected form gets 400 and causes no effect; an accepted one never gets 400 and starts by creating the work directory |
| `Server.RejectedRequestDoesNoWork` | server.py:119-120 | an empty or disallowed URL gets 400 with the fixed message, and nothing is created, run or scheduled |
| `Server.UnlistedUrlIsRejected` | server.py:116-120 | a submission in which no allow-listed site occurs gets 400 and causes no work |
| `Server.AcceptedRequestIsHandled` | server.py:116-168 | for an accepted form, the reply is the one the tool outcome decides; the work directory is created first, then the tool runs exactly once with the command built from the stripped `url` and the `format_choice` field (default "mp4") and the 600-second timeout, and exactly one cleanup with the 5-second delay comes last |
| `Server.HandleCleansUpOnce` | server.py:122-168 | accepted work creates one work directory first, runs the tool exactly once with the built command and the 600-second timeout, lists the directory (`workdir/*`) exactly once if the tool exited 0 and never otherwise, and last schedules exactly one cleanup of that directory with the 5-second delay; there are no other effects |
| `Server.CleanupIffWorkDirCreated` | server.py:119-168 | on every path, the number of cleanups equals the number of work directories created: one if a work directory was created and none otherwise |
| `Server.ToolFailureReportsStderr` | server.py:146-147 | a non-zero exit is a plain-text 500 whose body ends with the tool's stderr, verbatim |
| `Server.EmptyListingIsNotFound` | server.py:149-151 | exit 0 with an empty work directory is a 500 with the "file not found" message |
| `Server.SuccessSendsNewestFile` | server.py:153-155 | exit 0 with files present gives a 200 attachment of a listed file whose ctime is at least every other file's ctime (the first such file on ties), named by the slash-free base name of its path |
| `Server.SingleFileNamedByTitle` | server.py:153-155 | a tool that leaves only `Title.mp4` in the work directory gives an attachment named `Title.mp4` |
| `Server.ExceptionsAreServerErrors` | server.py:157-160 | a timeout is a 500 with the timeout message; any other exception is a 500 whose body is "Terjadi error: " followed by the exception's text |
| `Server.StatusClassification` | server.py:119-160 | the status is 400 exactly for rejected input, 200 exactly when the tool exited 0 and left a file, and 500 otherwise |

## Left out

- The Flask routing, the `GET /` form page and `HTML_PAGE` are framework and markup glue (server.py:10, server.py:22-105, server.py:110-112).
- Running yt-dlp is external process I/O. Its result is the `RunOutcome` input, so the 600-second timeout is recorded but not enforced (server.py:145).
- `tempfile.mkdtemp`, `glob.glob`, `os.path.getctime` and the creation of the downloads root are filesystem calls. They become the `workdir` and `listing` inputs. A failure of `mkdtemp` itself, which happens outside the `try` and schedules no cleanup, is not modelled (server.py:19-20, server.py:122, server.py:149, server.py:153).
- `glob` skips hidden files; the listing input is what it returned.
- `ctime` is a float in Python and an integer here; only its order matters.
- `send_file` is response I/O. Only the chosen path and the attachment name are modelled. An exception when it opens the file is folded into `ListingError`, which gives the same 500 (server.py:155).
- The cleanup thread, its `time.sleep(5)` and `shutil.rmtree` are concurrency and timing. Only the `ScheduleCleanup` effect is recorded (server.py:161-168).
- `request.form` is a multi-dict whose `get` returns the first value for a key; a `map` with one value per key stands for it.
- Response content types omit the `; charset=utf-8` suffix that Flask appends.
- Server start-up and its printed messages (server.py:170-173).
