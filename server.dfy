/**
 * The request-decision procedure behind `POST /download`: validate the form,
 * build the yt-dlp command line, and map the tool's outcome and the work
 * directory's listing to an HTTP response, recording the side effects the
 * handler performs (work directory creation, the tool run, the listing and
 * the one deferred cleanup).
 *
 * The process, the filesystem and the clock are inputs: the directory name
 * that `tempfile.mkdtemp` returned, the outcome of `subprocess.run`, and the
 * `(path, ctime)` pairs that `glob.glob` and `os.path.getctime` report.
 */
module Server {
  import opened Strings

  /** The allow-list of site substrings. */
  const ALLOWED_SITES: seq<string> := [
    "youtube.com", "youtu.be",
    "tiktok.com", "vt.tiktok.com",
    "instagram.com", "www.instagram.com",
    "twitter.com", "x.com"
  ]

  const INVALID_URL_MESSAGE := "URL tidak valid atau situs belum didukung."
  const DOWNLOAD_FAILED_PREFIX := "Gagal mendownload:\n\n"
  const NOT_FOUND_MESSAGE := "Gagal menemukan file hasil download."
  const TIMEOUT_MESSAGE := "Proses download terlalu lama (timeout)."
  const ERROR_PREFIX := "Terjadi error: "

  /** Flask's content type for a bare string result, and the one set explicitly for tool failures. */
  const HTML := "text/html"
  const PLAIN := "text/plain"

  const WORKDIR_PREFIX := "ydl_"
  const OUTPUT_TEMPLATE := "%(title)s.%(ext)s"
  const TOOL_TIMEOUT_SECONDS := 600
  const CLEANUP_DELAY_SECONDS := 5

  // ---------------------------------------------------------------------------
  // Allow-list

  /** Python's `any(site in url for site in sites)`. */
  function AnyOccursIn(sites: seq<string>, url: string): (b: bool)
    ensures b <==> exists i :: 0 <= i < |sites| && IsSubstring(sites[i], url)
  {
    if sites == [] then false
    else if Contains(url, sites[0]) then true
    else
      assert forall i :: 1 <= i < |sites| ==> sites[i] == sites[1..][i - 1];
      AnyOccursIn(sites[1..], url)
  }

  /** `allowed_url`: some allow-listed site occurs in the URL as a substring. */
  function AllowedUrl(url: string): (ok: bool)
    ensures ok <==> exists i :: 0 <= i < |ALLOWED_SITES| && IsSubstring(ALLOWED_SITES[i], url)
  {
    AnyOccursIn(ALLOWED_SITES, url)
  }

  /** The allow-list without the entries that contain another entry. */
  const BASE_SITES: seq<string> := ["youtube.com", "youtu.be", "tiktok.com", "instagram.com", "twitter.com", "x.com"]

  /**
   * "vt.tiktok.com" and "www.instagram.com" never change the verdict: any
   * URL containing them also contains "tiktok.com" or "instagram.com".
   */
  lemma SubdomainEntriesRedundant(url: string)
    ensures AllowedUrl(url) <==> exists i :: 0 <= i < |BASE_SITES| && IsSubstring(BASE_SITES[i], url)
  {
    if AllowedUrl(url) {
      var i :| 0 <= i < |ALLOWED_SITES| && IsSubstring(ALLOWED_SITES[i], url);
      if i == 3 {
        assert OccursAt("tiktok.com", "vt.tiktok.com", 3);
        SubstringTransitive("tiktok.com", "vt.tiktok.com", url);
        assert IsSubstring(BASE_SITES[2], url);
      } else if i == 5 {
        assert OccursAt("instagram.com", "www.instagram.com", 4);
        SubstringTransitive("instagram.com", "www.instagram.com", url);
        assert IsSubstring(BASE_SITES[3], url);
      } else {
        var j := if i < 3 then i else if i == 4 then 3 else i - 2;
        assert BASE_SITES[j] == ALLOWED_SITES[i];
      }
    }
    if exists j :: 0 <= j < |BASE_SITES| && IsSubstring(BASE_SITES[j], url) {
      var j :| 0 <= j < |BASE_SITES| && IsSubstring(BASE_SITES[j], url);
      var i := if j < 3 then j else if j == 3 then 4 else j + 2;
      assert ALLOWED_SITES[i] == BASE_SITES[j];
    }
  }

  /** A short youtu.be link passes the allow-list. */
  lemma ShortLinkAllowed()
    ensures AllowedUrl("https://youtu.be/abc123")
  {
    assert OccursAt(ALLOWED_SITES[1], "https://youtu.be/abc123", 8);
  }

  /**
   * The match is on substrings, not hosts: a host that merely ends in "x.com"
   * is let through, and so is a host naming a listed site in its query string.
   */
  lemma LookalikeHostsAllowed()
    ensures AllowedUrl("https://netflix.com/title/1")
    ensures AllowedUrl("https://evil.example/?u=youtube.com")
  {
    assert OccursAt(ALLOWED_SITES[7], "https://netflix.com/title/1", 14);
    assert OccursAt(ALLOWED_SITES[0], "https://evil.example/?u=youtube.com", 24);
  }

  /** Any URL whatsoever passes once a listed site is placed in a query parameter. */
  lemma QueryStringSiteAllowed(prefix: string, i: nat, rest: string)
    requires i < |ALLOWED_SITES|
    ensures AllowedUrl(prefix + "?u=" + ALLOWED_SITES[i] + rest)
  {
    var site := ALLOWED_SITES[i];
    var url := prefix + "?u=" + site + rest;
    var at := |prefix| + 3;
    forall m | 0 <= m < |site| ensures url[at..at + |site|][m] == site[m] {
      assert url[at + m] == site[m];
    }
    assert OccursAt(site, url, at);
  }

  // ---------------------------------------------------------------------------
  // Input validation

  /** `request.form.get(key, default)`. */
  function FormGet(form: map<string, string>, key: string, default: string): (v: string)
    ensures key in form ==> v == form[key]
    ensures key !in form ==> v == default
  {
    if key in form then form[key] else default
  }

  datatype DownloadRequest = DownloadRequest(url: string, formatChoice: string)

  datatype Validation = Accepted(request: DownloadRequest) | Rejected

  /**
   * The checks made before any work is done: the `url` field, stripped of
   * surrounding whitespace (missing counts as ""), must be non-empty and
   * allow-listed; `format_choice` defaults to "mp4".
   */
  function Validate(form: map<string, string>): (v: Validation)
    ensures v.Rejected? <==>
      AllSpace(FormGet(form, "url", "")) || !AllowedUrl(Strip(FormGet(form, "url", "")))
    ensures v.Accepted? ==> v.request.url == Strip(form["url"]) && AllowedUrl(v.request.url)
    ensures v.Accepted? ==> v.request.formatChoice == FormGet(form, "format_choice", "mp4")
  {
    var url := Strip(FormGet(form, "url", ""));
    var formatChoice := FormGet(form, "format_choice", "mp4");
    if url == [] || !AllowedUrl(url) then Rejected
    else Accepted(DownloadRequest(url, formatChoice))
  }

  /**
   * An accepted URL was submitted, is non-empty, has no whitespace at either
   * end and occurs in the submitted text; a missing `format_choice` reads as "mp4".
   */
  lemma AcceptedRequestIsClean(form: map<string, string>)
    requires Validate(form).Accepted?
    ensures var request := Validate(form).request;
      && "url" in form && request.url != [] && IsSubstring(request.url, form["url"])
      && !IsSpace(request.url[0]) && !IsSpace(request.url[|request.url| - 1])
      && ("format_choice" in form ==> request.formatChoice == form["format_choice"])
      && ("format_choice" !in form ==> request.formatChoice == "mp4")
  {
  }

  /** Whitespace around the submitted URL is ignored entirely. */
  lemma ValidateIgnoresSurroundingSpace(form: map<string, string>, before: string, after: string)
    requires "url" in form && AllSpace(before) && AllSpace(after)
    ensures Validate(form["url" := before + form["url"] + after]) == Validate(form)
  {
    var padded := form["url" := before + form["url"] + after];
    StripIgnoresPadding(before, form["url"], after);
    assert FormGet(padded, "format_choice", "mp4") == FormGet(form, "format_choice", "mp4");
  }

  // ---------------------------------------------------------------------------
  // Command construction

  /** The output path template handed to yt-dlp: files named after the title, with the tool's extension. */
  function OutputPath(workdir: string): (p: string)
    ensures |p| >= |OUTPUT_TEMPLATE| && p[|p| - |OUTPUT_TEMPLATE|..] == OUTPUT_TEMPLATE
    ensures workdir != [] && workdir[|workdir| - 1] != '/' ==> p == workdir + "/" + OUTPUT_TEMPLATE
  {
    assert OUTPUT_TEMPLATE[0] == '%';
    Join(workdir, OUTPUT_TEMPLATE)
  }

  /** `cmd[i]` is `flag` and the next argument, which is not the last one, is `value`. */
  predicate OptionAt(cmd: seq<string>, i: int, flag: string, value: string)
  {
    0 <= i < |cmd| - 2 && cmd[i] == flag && cmd[i + 1] == value
  }

  /** `flag` is immediately followed by `value` somewhere among the options of `cmd`. */
  ghost predicate HasOption(cmd: seq<string>, flag: string, value: string)
  {
    exists i :: OptionAt(cmd, i, flag, value)
  }

  /** The argument vector for yt-dlp; only the exact choice "mp3" selects the audio profile. */
  function BuildCommand(formatChoice: string, workdir: string, url: string): (cmd: seq<string>)
    ensures |cmd| == (if formatChoice == "mp3" then 9 else 8)
    ensures cmd[0] == "yt-dlp" && cmd[|cmd| - 1] == url
    ensures HasOption(cmd, "-o", OutputPath(workdir))
    ensures formatChoice == "mp3" <==> "--extract-audio" in cmd[..|cmd| - 1]
    ensures formatChoice == "mp3" ==>
      HasOption(cmd, "-f", "bestaudio/best") && HasOption(cmd, "--audio-format", "mp3")
    ensures formatChoice != "mp3" ==>
      HasOption(cmd, "-f", "bestvideo+bestaudio/best") && HasOption(cmd, "--merge-output-format", "mp4")
  {
    var outputPath := OutputPath(workdir);
    if formatChoice == "mp3" then
      var cmd := ["yt-dlp", "-f", "bestaudio/best", "--extract-audio", "--audio-format", "mp3",
                  "-o", outputPath, url];
      assert OptionAt(cmd, 1, "-f", "bestaudio/best") && OptionAt(cmd, 4, "--audio-format", "mp3");
      assert OptionAt(cmd, 6, "-o", outputPath);
      assert cmd[..|cmd| - 1][3] == "--extract-audio";
      cmd
    else
      var cmd := ["yt-dlp", "-f", "bestvideo+bestaudio/best", "-o", outputPath,
                  "--merge-output-format", "mp4", url];
      assert OptionAt(cmd, 1, "-f", "bestvideo+bestaudio/best") && OptionAt(cmd, 3, "-o", outputPath);
      assert OptionAt(cmd, 5, "--merge-output-format", "mp4");
      assert cmd[..|cmd| - 1] == ["yt-dlp", "-f", "bestvideo+bestaudio/best", "-o", outputPath,
                                  "--merge-output-format", "mp4"];
      cmd
  }

  // ---------------------------------------------------------------------------
  // Outcome and result selection

  /** What `subprocess.run` gave back: an exit, `TimeoutExpired`, or another exception with its text. */
  datatype RunOutcome = Exit(returnCode: int, stderr: string) | Timeout | Error(message: string)

  /** A file `glob.glob` found in the work directory, with what `os.path.getctime` reports for it. */
  datatype FileEntry = FileEntry(path: string, ctime: int)

  /** The scan of the work directory, or the text of an exception raised while scanning or opening the file. */
  datatype Listing = Listed(entries: seq<FileEntry>) | ListingError(message: string)

  /**
   * `max(files, key=os.path.getctime)` as an index: Python keeps the current
   * maximum unless a later key is strictly larger, so the first newest entry wins.
   */
  function LatestIndex(entries: seq<FileEntry>): (k: nat)
    requires entries != []
    ensures k < |entries|
    ensures forall j :: 0 <= j < |entries| ==> entries[j].ctime <= entries[k].ctime
    ensures forall j :: 0 <= j < k ==> entries[j].ctime < entries[k].ctime
    decreases |entries|
  {
    if |entries| == 1 then 0
    else
      var k := LatestIndex(entries[..|entries| - 1]);
      if entries[|entries| - 1].ctime > entries[k].ctime then |entries| - 1 else k
  }

  datatype Response =
    | Text(code: int, mimetype: string, body: string)
    | Attachment(path: string, downloadName: string)
  {
    function Status(): int { if Attachment? then 200 else code }
  }

  /** The response once the tool has been started in the work directory. */
  function Respond(run: RunOutcome, listing: Listing): (r: Response)
    ensures r.Attachment? <==> ToolSucceeded(run) && listing.Listed? && listing.entries != []
    ensures r.Text? ==> r.code == 500
  {
    match run
    case Timeout => Text(500, HTML, TIMEOUT_MESSAGE)
    case Error(message) => Text(500, HTML, ERROR_PREFIX + message)
    case Exit(returnCode, stderr) =>
      if returnCode != 0 then Text(500, PLAIN, DOWNLOAD_FAILED_PREFIX + stderr)
      else match listing
        case ListingError(message) => Text(500, HTML, ERROR_PREFIX + message)
        case Listed(entries) =>
          if entries == [] then Text(500, HTML, NOT_FOUND_MESSAGE)
          else
            var file := entries[LatestIndex(entries)];
            Attachment(file.path, Basename(file.path))
  }

  // ---------------------------------------------------------------------------
  // The handler

  /** Side effects of the handler, in the order it performs them. */
  datatype Effect =
    | CreateWorkDir(prefix: string)
    | RunTool(cmd: seq<string>, timeoutSeconds: int)
    | ListFiles(pattern: string)
    | ScheduleCleanup(dir: string, delaySeconds: int)
  {
    function Kind(): EffectKind
    {
      match this
      case CreateWorkDir(_) => WorkDirCreation
      case RunTool(_, _) => ToolRun
      case ListFiles(_) => DirectoryListing
      case ScheduleCleanup(_, _) => Cleanup
    }
  }

  datatype EffectKind = WorkDirCreation | ToolRun | DirectoryListing | Cleanup

  datatype Handled = Handled(response: Response, effects: seq<Effect>)

  /** The work directory is listed only after the tool exited with code 0. */
  predicate ToolSucceeded(run: RunOutcome)
  {
    run.Exit? && run.returnCode == 0
  }

  /**
   * The work done for an accepted request, from the creation of the work
   * directory to the `finally` block that schedules its removal: `workdir`
   * is the name `tempfile.mkdtemp` returned, `run` what running the command
   * gave, `listing` what scanning the work directory gave.
   */
  function Handle(request: DownloadRequest, workdir: string, run: RunOutcome, listing: Listing): (h: Handled)
    ensures |h.effects| >= 3 && h.effects[0] == CreateWorkDir(WORKDIR_PREFIX)
    ensures h.effects[|h.effects| - 1] == ScheduleCleanup(workdir, CLEANUP_DELAY_SECONDS)
    ensures h.response.Status() != 400
  {
    var cmd := BuildCommand(request.formatChoice, workdir, request.url);
    Handled(
      Respond(run, listing),
      [CreateWorkDir(WORKDIR_PREFIX), RunTool(cmd, TOOL_TIMEOUT_SECONDS)]
      + (if ToolSucceeded(run) then [ListFiles(Join(workdir, "*"))] else [])
      + [ScheduleCleanup(workdir, CLEANUP_DELAY_SECONDS)])
  }

  /** `download()`: validation first, and the work only for an accepted request. */
  function Download(form: map<string, string>, workdir: string, run: RunOutcome, listing: Listing): (d: Handled)
    ensures Validate(form).Rejected? ==> d.response.Status() == 400 && d.effects == []
    ensures Validate(form).Accepted? ==>
      d.response.Status() != 400 && d.effects != [] && d.effects[0] == CreateWorkDir(WORKDIR_PREFIX)
  {
    match Validate(form)
    case Rejected => Handled(Text(400, HTML, INVALID_URL_MESSAGE), [])
    case Accepted(request) => Handle(request, workdir, run, listing)
  }

  /** Number of effects of the given kind among `effects`. */
  function CountOf(effects: seq<Effect>, kind: EffectKind): nat
  {
    if effects == [] then 0
    else (if effects[0].Kind() == kind then 1 else 0) + CountOf(effects[1..], kind)
  }

  lemma {:induction false} CountOfAppend(a: seq<Effect>, b: seq<Effect>, kind: EffectKind)
    ensures CountOf(a + b, kind) == CountOf(a, kind) + CountOf(b, kind)
    decreases |a|
  {
    if a == [] {
      assert a + b == b;
    } else {
      assert (a + b)[1..] == a[1..] + b;
      CountOfAppend(a[1..], b, kind);
    }
  }

  // ---------------------------------------------------------------------------
  // Properties of the handler

  /** An empty or non-allow-listed URL gets 400 and nothing else happens. */
  lemma RejectedRequestDoesNoWork(form: map<string, string>, workdir: string, run: RunOutcome, listing: Listing)
    requires AllSpace(FormGet(form, "url", "")) || !AllowedUrl(Strip(FormGet(form, "url", "")))
    ensures Download(form, workdir, run, listing) == Handled(Text(400, HTML, INVALID_URL_MESSAGE), [])
  {
  }

  /**
   * A submission in which no allow-listed site occurs is refused even though
   * the check is made on the stripped URL: that URL is part of the submission.
   */
  lemma UnlistedUrlIsRejected(form: map<string, string>, workdir: string, run: RunOutcome, listing: Listing)
    requires forall i :: 0 <= i < |ALLOWED_SITES| ==> !IsSubstring(ALLOWED_SITES[i], FormGet(form, "url", ""))
    ensures Download(form, workdir, run, listing) == Handled(Text(400, HTML, INVALID_URL_MESSAGE), [])
  {
    var raw := FormGet(form, "url", "");
    var url := Strip(raw);
    if AllowedUrl(url) {
      var i :| 0 <= i < |ALLOWED_SITES| && IsSubstring(ALLOWED_SITES[i], url);
      SubstringTransitive(ALLOWED_SITES[i], url, raw);
      assert false;
    }
  }

  /**
   * An accepted form starts the work directory, runs the tool once with the
   * command built from the stripped URL and the chosen format, and schedules
   * exactly one cleanup, as its last act.
   */
  lemma AcceptedRequestIsHandled(form: map<string, string>, workdir: string, run: RunOutcome, listing: Listing)
    requires Validate(form).Accepted?
    ensures var d := Download(form, workdir, run, listing);
      && d.response == Respond(run, listing)
      && |d.effects| >= 3
      && d.effects[0] == CreateWorkDir(WORKDIR_PREFIX)
      && d.effects[1] == RunTool(
           BuildCommand(FormGet(form, "format_choice", "mp4"), workdir, Strip(FormGet(form, "url", ""))),
           TOOL_TIMEOUT_SECONDS)
      && d.effects[|d.effects| - 1] == ScheduleCleanup(workdir, CLEANUP_DELAY_SECONDS)
      && CountOf(d.effects, ToolRun) == 1 && CountOf(d.effects, Cleanup) == 1
  {
    var request := Validate(form).request;
    assert request == DownloadRequest(Strip(FormGet(form, "url", "")), FormGet(form, "format_choice", "mp4"));
    HandleCleansUpOnce(request, workdir, run, listing);
  }

  /**
   * Accepted work creates one work directory, runs the tool once with the
   * command built from the request, lists the directory only after an exit 0,
   * and schedules exactly one cleanup of that directory, as its last act.
   */
  lemma HandleCleansUpOnce(request: DownloadRequest, workdir: string, run: RunOutcome, listing: Listing)
    ensures var h := Handle(request, workdir, run, listing);
      && |h.effects| == (if ToolSucceeded(run) then 4 else 3)
      && h.effects[0] == CreateWorkDir(WORKDIR_PREFIX)
      && h.effects[1] == RunTool(BuildCommand(request.formatChoice, workdir, request.url), TOOL_TIMEOUT_SECONDS)
      && (ToolSucceeded(run) ==> h.effects[2] == ListFiles(Join(workdir, "*")))
      && h.effects[|h.effects| - 1] == ScheduleCleanup(workdir, CLEANUP_DELAY_SECONDS)
      && CountOf(h.effects, WorkDirCreation) == 1
      && CountOf(h.effects, ToolRun) == 1
      && CountOf(h.effects, DirectoryListing) == (if ToolSucceeded(run) then 1 else 0)
      && CountOf(h.effects, Cleanup) == 1
  {
    var cmd := BuildCommand(request.formatChoice, workdir, request.url);
    var middle := if ToolSucceeded(run) then [ListFiles(Join(workdir, "*"))] else [];
    var effects := [CreateWorkDir(WORKDIR_PREFIX), RunTool(cmd, TOOL_TIMEOUT_SECONDS)]
      + middle + [ScheduleCleanup(workdir, CLEANUP_DELAY_SECONDS)];
    assert Handle(request, workdir, run, listing).effects == effects;
    if ToolSucceeded(run) {
      ListingCount(workdir, WorkDirCreation);
      ListingCount(workdir, ToolRun);
      ListingCount(workdir, DirectoryListing);
      ListingCount(workdir, Cleanup);
    }
    WorkCounts(cmd, middle, workdir, WorkDirCreation);
    WorkCounts(cmd, middle, workdir, ToolRun);
    WorkCounts(cmd, middle, workdir, DirectoryListing);
    WorkCounts(cmd, middle, workdir, Cleanup);
  }

  /** How many effects of each kind the work list of `Handle` holds, given what lies between the run and the cleanup. */
  lemma WorkCounts(cmd: seq<string>, middle: seq<Effect>, workdir: string, kind: EffectKind)
    ensures CountOf([CreateWorkDir(WORKDIR_PREFIX), RunTool(cmd, TOOL_TIMEOUT_SECONDS)]
                    + middle + [ScheduleCleanup(workdir, CLEANUP_DELAY_SECONDS)], kind)
      == (if kind == WorkDirCreation || kind == ToolRun || kind == Cleanup then 1 else 0) + CountOf(middle, kind)
  {
    var first := [CreateWorkDir(WORKDIR_PREFIX), RunTool(cmd, TOOL_TIMEOUT_SECONDS)];
    var last := [ScheduleCleanup(workdir, CLEANUP_DELAY_SECONDS)];
    CountOfAppend(first + middle, last, kind);
    CountOfAppend(first, middle, kind);
    assert first[1..][1..] == [] && last[1..] == [];
    assert CountOf(first, kind) == (if kind == WorkDirCreation || kind == ToolRun then 1 else 0);
  }

  /** A single listing step counts once, under its own kind. */
  lemma ListingCount(workdir: string, kind: EffectKind)
    ensures CountOf([ListFiles(Join(workdir, "*"))], kind) == if kind == DirectoryListing then 1 else 0
  {
    assert [ListFiles(Join(workdir, "*"))][1..] == [];
  }

  /** Every request schedules one cleanup exactly when it created a work directory, and none otherwise. */
  lemma CleanupIffWorkDirCreated(form: map<string, string>, workdir: string, run: RunOutcome, listing: Listing)
    ensures var h := Download(form, workdir, run, listing);
      && CountOf(h.effects, Cleanup) == CountOf(h.effects, WorkDirCreation)
      && CountOf(h.effects, Cleanup) == (if CreateWorkDir(WORKDIR_PREFIX) in h.effects then 1 else 0)
  {
    match Validate(form)
    case Rejected =>
    case Accepted(request) =>
      HandleCleansUpOnce(request, workdir, run, listing);
  }

  /** A non-zero exit is a 500 whose plain-text body ends with the tool's stderr, verbatim. */
  lemma ToolFailureReportsStderr(code: int, stderr: string, listing: Listing)
    requires code != 0
    ensures var r := Respond(Exit(code, stderr), listing);
      && r.Status() == 500 && r.Text? && r.mimetype == PLAIN
      && |stderr| <= |r.body| && r.body[|r.body| - |stderr|..] == stderr
      && IsSubstring(stderr, r.body)
  {
    var r := Respond(Exit(code, stderr), listing);
    assert OccursAt(stderr, r.body, |DOWNLOAD_FAILED_PREFIX|);
  }

  /** Exit 0 with nothing in the work directory is a 500 "file not found". */
  lemma EmptyListingIsNotFound(stderr: string)
    ensures Respond(Exit(0, stderr), Listed([])) == Text(500, HTML, NOT_FOUND_MESSAGE)
  {
  }

  /**
   * Exit 0 with files present sends one of them as an attachment: the first
   * one with the newest ctime, named by the base name of its path.
   */
  lemma SuccessSendsNewestFile(stderr: string, entries: seq<FileEntry>) returns (k: nat)
    requires entries != []
    ensures var r := Respond(Exit(0, stderr), Listed(entries));
      && r.Attachment? && r.Status() == 200
      && '/' !in r.downloadName && r.downloadName == Basename(r.path)
      && k < |entries| && entries[k].path == r.path
    ensures forall j :: 0 <= j < |entries| ==> entries[j].ctime <= entries[k].ctime
    ensures forall j :: 0 <= j < k ==> entries[j].ctime < entries[k].ctime
  {
    k := LatestIndex(entries);
  }

  /** A tool that writes a single "Title.mp4" into the work directory yields an attachment named "Title.mp4". */
  lemma SingleFileNamedByTitle(workdir: string, ctime: int)
    ensures var path := Join(workdir, "Title.mp4");
      Respond(Exit(0, ""), Listed([FileEntry(path, ctime)])) == Attachment(path, "Title.mp4")
  {
    BasenameOfJoin(workdir, "Title.mp4");
  }

  /** A timeout is a 500 with the timeout message; any other exception a 500 carrying its text. */
  lemma ExceptionsAreServerErrors(listing: Listing, message: string, stderr: string)
    ensures Respond(Timeout, listing) == Text(500, HTML, TIMEOUT_MESSAGE)
    ensures Respond(Error(message), listing) == Text(500, HTML, ERROR_PREFIX + message)
    ensures Respond(Exit(0, stderr), ListingError(message)) == Text(500, HTML, ERROR_PREFIX + message)
  {
  }

  /** 400 is returned exactly for rejected input, 200 exactly when the tool exited 0 and left a file, and 500 otherwise. */
  lemma StatusClassification(form: map<string, string>, workdir: string, run: RunOutcome, listing: Listing)
    ensures var status := Download(form, workdir, run, listing).response.Status();
      && (status == 400 <==> Validate(form).Rejected?)
      && (status == 200 <==> Validate(form).Accepted? && ToolSucceeded(run) && listing.Listed? && listing.entries != [])
      && (status == 400 || status == 200 || status == 500)
  {
  }
}
