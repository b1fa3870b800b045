/**
 * The pure pieces of YouTube/video_downloader.py: URL validation, the base
 * yt-dlp options, reading the cookie configuration, the cookies.txt
 * diagnostic, and the error classification done by `try_download`.
 *
 * The environment, the filesystem and yt-dlp itself are inputs: environment
 * variables arrive as optional strings, `os.path.expanduser(os.path.expandvars(_))`
 * as an opaque function, a file as the list of its lines (or `None` when
 * opening or reading it raises), and a yt-dlp download as an `EngineResult`.
 */
module YouTubeDownloader {
  import opened Maybe
  import opened Text

  // ---------------------------------------------------------------------------
  // is_valid_youtube_url
  // ---------------------------------------------------------------------------

  const WatchPrefix := "https://www.youtube.com/"
  const ShortPrefix := "https://youtu.be/"

  /** The URL allow-list: a plain prefix test, nothing else about the URL is checked. */
  predicate IsValidYouTubeUrl(url: string): (b: bool)
    ensures b ==> StartsWith(url, "https://")
  {
    assert WatchPrefix[..8] == ShortPrefix[..8] == "https://";
    StartsWith(url, WatchPrefix) || StartsWith(url, ShortPrefix)
  }

  /** A URL is accepted exactly when it is one of the two prefixes followed by anything. */
  lemma ValidUrlShape(url: string)
    ensures IsValidYouTubeUrl(url) <==>
      (exists rest :: url == WatchPrefix + rest) || (exists rest :: url == ShortPrefix + rest)
  {
    if StartsWith(url, WatchPrefix) {
      assert url == WatchPrefix + url[|WatchPrefix|..];
    }
    if StartsWith(url, ShortPrefix) {
      assert url == ShortPrefix + url[|ShortPrefix|..];
    }
    if exists rest :: url == WatchPrefix + rest {
      var rest :| url == WatchPrefix + rest;
      assert url[..|WatchPrefix|] == WatchPrefix;
    }
    if exists rest :: url == ShortPrefix + rest {
      var rest :| url == ShortPrefix + rest;
      assert url[..|ShortPrefix|] == ShortPrefix;
    }
  }

  // ---------------------------------------------------------------------------
  // yt-dlp option dictionaries and build_base_opts
  // ---------------------------------------------------------------------------

  /** A value in a yt-dlp options dictionary. */
  datatype OptValue = Str(s: string) | Flag(b: bool) | Tuple(items: seq<string>)

  type Options = map<string, OptValue>

  const OuttmplKey := "outtmpl"
  const FormatKey := "format"
  const MergeKey := "merge_output_format"
  const QuietKey := "quiet"
  const CookieFileKey := "cookiefile"
  const BrowserKey := "cookiesfrombrowser"

  const OutputTemplate := "%(title)s.%(ext)s"

  /** `os.path.join(a, b)` with the POSIX separator: an absolute `b` replaces
      `a`; otherwise one `/` separates the two unless `a` is empty or already
      ends with one. */
  function PathJoin(a: string, b: string): (r: string)
    ensures EndsWith(r, b)
    ensures !StartsWith(b, "/") ==> StartsWith(r, a)
    ensures StartsWith(b, "/") ==> r == b
    ensures !StartsWith(b, "/") && (a == [] || EndsWith(a, "/")) ==> r == a + b
    ensures !StartsWith(b, "/") && a != [] && !EndsWith(a, "/") ==> r == a + "/" + b
  {
    if StartsWith(b, "/") then b
    else if a == [] || EndsWith(a, "/") then
      assert (a + b)[..|a|] == a;
      a + b
    else
      assert (a + "/" + b)[..|a|] == a;
      a + "/" + b
  }

  /** The options every attempt starts from: output named after the video's
      title inside `downloadDir`, best video+audio merged to mp4, not quiet.
      They carry no credential. */
  function BuildBaseOpts(downloadDir: string): (opts: Options)
    ensures opts.Keys == {OuttmplKey, FormatKey, MergeKey, QuietKey}
    ensures CookieFileKey !in opts && BrowserKey !in opts
    ensures opts[OuttmplKey].Str?
    ensures StartsWith(opts[OuttmplKey].s, downloadDir) && EndsWith(opts[OuttmplKey].s, OutputTemplate)
    ensures downloadDir != [] && !EndsWith(downloadDir, "/") ==>
      opts[OuttmplKey] == Str(downloadDir + "/" + OutputTemplate)
    ensures downloadDir == [] || EndsWith(downloadDir, "/") ==>
      opts[OuttmplKey] == Str(downloadDir + OutputTemplate)
    ensures opts[FormatKey] == Str("bestvideo+bestaudio/best") && opts[MergeKey] == Str("mp4")
    ensures opts[QuietKey] == Flag(false)
  {
    assert !StartsWith(OutputTemplate, "/") by {
      assert OutputTemplate[..1] == "%";
    }
    map[
      OuttmplKey := Str(PathJoin(downloadDir, OutputTemplate)),
      FormatKey := Str("bestvideo+bestaudio/best"),
      MergeKey := Str("mp4"),
      QuietKey := Flag(false)
    ]
  }

  // ---------------------------------------------------------------------------
  // get_cookies_from_env
  // ---------------------------------------------------------------------------

  /** The three environment variables, `None` when unset. */
  datatype Env = Env(cookiesFile: Option<string>, cookiesBrowser: Option<string>, cookiesProfile: Option<string>)

  /** What `get_cookies_from_env` returns: the cookie file and the
      `cookiesfrombrowser` tuple (a sequence of one or two strings). */
  datatype CookieConfig = CookieConfig(file: Option<string>, browser: Option<seq<string>>)

  /** Python truthiness of an optional string. */
  predicate Truthy(s: Option<string>) {
    s.Some? && s.value != []
  }

  /** The browser tuple: `(name,)` or `(name, profile)`. */
  function BrowserTuple(browser: Option<string>, profile: Option<string>): (t: Option<seq<string>>)
    ensures t.Some? <==> Truthy(browser)
    ensures t.Some? ==> 1 <= |t.value| <= 2 && t.value[0] == ToLower(Strip(browser.value))
    ensures t.Some? ==> (|t.value| == 2 <==> profile.Some? && Strip(profile.value) != [])
    ensures t.Some? && |t.value| == 2 ==> t.value[1] == Strip(profile.value)
  {
    if !Truthy(browser) then None
    else
      var name := ToLower(Strip(browser.value));
      if profile.Some? && profile.value != [] && Strip(profile.value) != [] then
        Some([name, Strip(profile.value)])
      else
        Some([name])
  }

  /** `get_cookies_from_env`. `expand` stands for
      `os.path.expanduser(os.path.expandvars(_))`. A file value with something
      other than whitespace is stripped and expanded; any other value,
      including a whitespace-only one, is returned as it is. */
  function GetCookiesFromEnv(env: Env, expand: string -> string): (c: CookieConfig)
    ensures c.browser == BrowserTuple(env.cookiesBrowser, env.cookiesProfile)
    ensures c.file.None? <==> env.cookiesFile.None?
    ensures env.cookiesFile.Some? && Strip(env.cookiesFile.value) != [] ==>
      c.file == Some(expand(Strip(env.cookiesFile.value)))
    ensures env.cookiesFile.Some? && Strip(env.cookiesFile.value) == [] ==>
      c.file == env.cookiesFile
  {
    var file :=
      if Truthy(env.cookiesFile) && Strip(env.cookiesFile.value) != [] then
        Some(expand(Strip(env.cookiesFile.value)))
      else
        env.cookiesFile;
    CookieConfig(file, BrowserTuple(env.cookiesBrowser, env.cookiesProfile))
  }

  /** The browser name handed to yt-dlp is normalised: lower-case ASCII and no
      surrounding whitespace. */
  lemma BrowserNameNormalised(env: Env, expand: string -> string)
    requires GetCookiesFromEnv(env, expand).browser.Some?
    ensures var name := GetCookiesFromEnv(env, expand).browser.value[0];
      Strip(name) == name && ToLower(name) == name
  {
    var s := env.cookiesBrowser.value;
    LowerOfStripIsStripped(s);
    ToLowerIdempotent(Strip(s));
  }

  /** Unlike what the docstring says, both values can be set at once. */
  lemma BothSourcesCanBeReturned(expand: string -> string)
    ensures var c := GetCookiesFromEnv(Env(Some("cookies.txt"), Some("chrome"), None), expand);
      c.file.Some? && c.browser.Some?
  {
    assert "chrome" != [];
  }

  /** A whitespace-only browser value is truthy before it is stripped, so it
      gives the tuple `("",)`; a whitespace-only file value is returned unstripped. */
  lemma WhitespaceValuesSlipThrough(expand: string -> string)
    ensures var c := GetCookiesFromEnv(Env(Some(" "), Some(" "), None), expand);
      c.browser == Some([""]) && c.file == Some(" ")
  {
    assert Strip(" ") == [] by {
      assert LStrip(" ") == LStrip(" "[1..]);
      assert " "[1..] == [];
    }
  }

  // ---------------------------------------------------------------------------
  // analyze_cookie_file
  // ---------------------------------------------------------------------------

  /** `(total_lines, youtube_lines, accounts_lines, has_core_auth_cookies)` */
  datatype Diagnostics = Diagnostics(totalLines: nat, youtubeLines: nat, accountsLines: nat, hasCore: bool)

  /** The cookie names whose presence, as a case-sensitive substring of some
      line, counts as "core auth cookies". */
  const CoreMarkers: seq<string> := ["SID", "SAPISID", "HSID", "SSID", "LOGIN_INFO", "PREF", "CONSENT"]

  /** `sum(1 for l in lines if needle in l)` */
  function CountContaining(lines: seq<string>, needle: string): (n: nat)
    ensures n <= |lines|
    ensures n == 0 <==> forall i | 0 <= i < |lines| :: !Contains(lines[i], needle)
    ensures n == |lines| <==> forall i | 0 <= i < |lines| :: Contains(lines[i], needle)
  {
    if lines == [] then 0
    else
      var rest := CountContaining(lines[1..], needle);
      assert forall i | 1 <= i < |lines| :: lines[i] == lines[1..][i - 1];
      (if Contains(lines[0], needle) then 1 else 0) + rest
  }

  /** The count is additive over the lines: with the one-line case
      (1 when the line holds the needle, 0 otherwise) it is the number of
      matching lines, counted with repetition. */
  lemma {:induction false} CountContainingAppend(a: seq<string>, b: seq<string>, needle: string)
    ensures CountContaining(a + b, needle) == CountContaining(a, needle) + CountContaining(b, needle)
  {
    if a != [] {
      assert (a + b)[1..] == a[1..] + b;
      CountContainingAppend(a[1..], b, needle);
    } else {
      assert a + b == b;
    }
  }

  /** One line counts 1 when it holds the needle and 0 otherwise. */
  lemma CountContainingLine(line: string, needle: string)
    ensures CountContaining([line], needle) == if Contains(line, needle) then 1 else 0
  {
    assert [line][1..] == [];
  }

  predicate HasCoreMarker(line: string) {
    exists k | 0 <= k < |CoreMarkers| :: Contains(line, CoreMarkers[k])
  }

  /** `any(any(m in l for m in marker_names) for l in lines)` */
  function AnyCoreLine(lines: seq<string>): (b: bool)
    ensures b <==> exists i | 0 <= i < |lines| :: HasCoreMarker(lines[i])
  {
    if lines == [] then false
    else
      assert forall i | 1 <= i < |lines| :: lines[i] == lines[1..][i - 1];
      HasCoreMarker(lines[0]) || AnyCoreLine(lines[1..])
  }

  /** `analyze_cookie_file`: `None` is a file that could not be opened or read. */
  function AnalyzeCookieFile(file: Option<seq<string>>): (d: Diagnostics)
    ensures d.youtubeLines <= d.totalLines && d.accountsLines <= d.totalLines
    ensures file.None? ==> d == Diagnostics(0, 0, 0, false)
    ensures file.Some? ==> d.totalLines == |file.value|
    ensures file.Some? ==> d.youtubeLines == CountContaining(file.value, "youtube.com")
    ensures file.Some? ==> d.accountsLines == CountContaining(file.value, "accounts.google.com")
    ensures file.Some? ==>
      (d.hasCore <==> exists i | 0 <= i < |file.value| :: HasCoreMarker(file.value[i]))
  {
    match file
    case None => Diagnostics(0, 0, 0, false)
    case Some(lines) =>
      Diagnostics(|lines|, CountContaining(lines, "youtube.com"),
                  CountContaining(lines, "accounts.google.com"), AnyCoreLine(lines))
  }

  /** The condition for the "cookies.txt may be incomplete" warning. */
  predicate LowQuality(d: Diagnostics) {
    d.youtubeLines < 5 || !d.hasCore
  }

  /** "SID" is a substring of "SAPISID", "HSID" and "SSID", so only four of
      the seven marker names decide the flag. */
  lemma CoreMarkersReduce(line: string)
    ensures HasCoreMarker(line) <==>
      Contains(line, "SID") || Contains(line, "LOGIN_INFO") ||
      Contains(line, "PREF") || Contains(line, "CONSENT")
  {
    assert OccursAt("SAPISID", "SID", 4);
    assert OccursAt("HSID", "SID", 1);
    assert OccursAt("SSID", "SID", 1);
    if HasCoreMarker(line) {
      var k :| 0 <= k < |CoreMarkers| && Contains(line, CoreMarkers[k]);
      if 1 <= k <= 3 {
        ContainsTransitive(line, CoreMarkers[k], "SID");
      }
    }
    if Contains(line, "SID") {
      assert Contains(line, CoreMarkers[0]);
    }
    if Contains(line, "LOGIN_INFO") {
      assert Contains(line, CoreMarkers[4]);
    }
    if Contains(line, "PREF") {
      assert Contains(line, CoreMarkers[5]);
    }
    if Contains(line, "CONSENT") {
      assert Contains(line, CoreMarkers[6]);
    }
  }

  /** For a readable file the warning is skipped exactly when at least five
      lines mention youtube.com and some line holds a core marker. */
  lemma WarningCondition(lines: seq<string>)
    ensures !LowQuality(AnalyzeCookieFile(Some(lines))) <==>
      CountContaining(lines, "youtube.com") >= 5 && exists i | 0 <= i < |lines| :: HasCoreMarker(lines[i])
  {
  }

  /** A cookie file that cannot be read, or holds fewer than five youtube.com
      lines, always draws the warning. */
  lemma SparseFileWarns(file: Option<seq<string>>)
    requires file.None? || CountContaining(file.value, "youtube.com") < 5
    ensures LowQuality(AnalyzeCookieFile(file))
  {
  }

  // ---------------------------------------------------------------------------
  // try_download
  // ---------------------------------------------------------------------------

  /** An exception, with the text `str(e)` gives for it. */
  datatype Exception =
    | DownloadError(msg: string)    // yt_dlp.utils.DownloadError
    | PermissionError(msg: string)
    | OtherError(msg: string)       // any other exception class

  /** What one call into yt-dlp does: finish, or raise. */
  datatype EngineResult = Completed | Raised(error: Exception)

  /** The markers that identify a DownloadError as "sign-in required"; the
      first one holds a right single quotation mark (U+2019), not an apostrophe. */
  const AuthMarkers: seq<string> := [
    "Sign in to confirm you\U{2019}re not a bot",
    "This video is only available for registered users",
    "login required"
  ]

  /** Some auth marker occurs in the error text, case-sensitively. */
  predicate IsAuthRequired(msg: string): (b: bool)
    ensures b <==>
      (Contains(msg, "Sign in to confirm you\U{2019}re not a bot") ||
       Contains(msg, "This video is only available for registered users") ||
       Contains(msg, "login required"))
  {
    assert AuthMarkers[0] == "Sign in to confirm you\U{2019}re not a bot";
    assert AuthMarkers[1] == "This video is only available for registered users";
    assert AuthMarkers[2] == "login required";
    exists k | 0 <= k < |AuthMarkers| :: Contains(msg, AuthMarkers[k])
  }

  /** `try_download` around one yt-dlp call: it returns True when the call
      finishes (it never returns False); a DownloadError whose text holds an
      auth marker is re-raised as a PermissionError with the same text; every
      other exception leaves it unchanged. */
  function TryDownload(r: EngineResult): (t: EngineResult)
    ensures t.Completed? <==> r.Completed?
    ensures t.Raised? ==> t.error.msg == r.error.msg
    ensures (t.Raised? && t.error.PermissionError?) <==>
      (r.Raised? && (r.error.PermissionError? || (r.error.DownloadError? && IsAuthRequired(r.error.msg))))
    ensures r.Raised? && !(r.error.DownloadError? && IsAuthRequired(r.error.msg)) ==> t == r
  {
    match r
    case Raised(DownloadError(msg)) =>
      if IsAuthRequired(msg) then Raised(PermissionError(msg)) else r
    case _ => r
  }
}
