/**
 * `main` of YouTube/video_downloader.py: validate the URL, try an
 * anonymous download, and when YouTube asks for a sign-in pick one cookie
 * source, try again with it, and on a locked or undecryptable browser cookie
 * store fall back once to the cookie file.
 *
 * Two forms are given. `Run` is the flow as a state machine whose phases are
 * the stages of `main` (URL check, anonymous attempt, credential choice,
 * authenticated attempt, fallback, finished), driven by the values `main`
 * computes from its inputs (`Locals`). `RunMain` is the body of `main`
 * written out step by step, copying and updating option dictionaries as the
 * source does; its postcondition says it ends where `Execute` ends.
 */
module YouTubeMain {
  import opened Maybe
  import opened Text
  import opened YouTubeDownloader

  // ---------------------------------------------------------------------------
  // Inputs and outcomes
  // ---------------------------------------------------------------------------

  /** What `main` asks of its surroundings. */
  datatype Host = Host(
    home: string,                              // os.path.expanduser("~")
    expand: string -> string,                  // os.path.expanduser(os.path.expandvars(_))
    isFile: string -> bool,                    // os.path.isfile
    readLines: string -> Option<seq<string>>,  // open(_).readlines(); None when that raises
    engine: (nat, Options) -> EngineResult     // what the n-th yt-dlp download (from 0) does with these options
  )

  /** One run: the URL as typed (sys.argv[1] or input()), the environment
      after load_dotenv, and the host. */
  datatype Invocation = Invocation(rawUrl: string, env: Env, host: Host)

  /** The values the control flow of `main` depends on: the stripped URL, the
      base options, the cookie file when it is set and is a file
      (`cookiefile and os.path.isfile(cookiefile)`), the browser tuple,
      whether that file draws the cookies.txt warning, and yt-dlp. */
  datatype Locals = Locals(
    url: string,
    baseOpts: Options,
    usableFile: Option<string>,
    browser: Option<seq<string>>,
    lowQuality: bool,
    engine: (nat, Options) -> EngineResult
  )

  /** The cookie file when `cookiefile and os.path.isfile(cookiefile)` holds. */
  function UsableFile(file: Option<string>, isFile: string -> bool): (u: Option<string>)
    ensures u.Some? <==> file.Some? && file.value != [] && isFile(file.value)
    ensures u.Some? ==> u == file
  {
    if file.Some? && file.value != [] && isFile(file.value) then file else None
  }

  /** `l` holds the values `main` derives from the host, the cookie
      configuration and the base options. */
  ghost predicate LocalsFor(l: Locals, host: Host, cfg: CookieConfig, baseOpts: Options) {
    && l.engine == host.engine
    && l.baseOpts == baseOpts
    && l.browser == cfg.browser
    && l.usableFile == UsableFile(cfg.file, host.isFile)
    && l.lowQuality == (l.usableFile.Some? && LowQuality(AnalyzeCookieFile(host.readLines(l.usableFile.value))))
  }

  /** The values `main` computes for one run. */
  function LocalsOf(inv: Invocation): (l: Locals)
    ensures l.usableFile.Some? ==> l.usableFile == GetCookiesFromEnv(inv.env, inv.host.expand).file
    ensures l.lowQuality ==> l.usableFile.Some?
    ensures CarriesNoCredential(l.baseOpts)
  {
    var cfg := GetCookiesFromEnv(inv.env, inv.host.expand);
    var usable := UsableFile(cfg.file, inv.host.isFile);
    Locals(
      Strip(inv.rawUrl),
      BuildBaseOpts(PathJoin(inv.host.home, "Desktop")),
      usable,
      cfg.browser,
      usable.Some? && LowQuality(AnalyzeCookieFile(inv.host.readLines(usable.value))),
      inv.host.engine)
  }

  /** Neither cookie option is set. */
  predicate CarriesNoCredential(opts: Options) {
    CookieFileKey !in opts && BrowserKey !in opts
  }

  /** The credential of the authenticated attempt. */
  datatype Credential = CookieFile(path: string) | BrowserCookies(spec: seq<string>)

  /** Which attempt succeeded. */
  datatype Source = NoAuth | Primary(cred: Credential) | FallbackFile(path: string)

  /** The remediation text printed before exit status 3. */
  datatype Guidance = LockedDatabase | DpapiFailure | Generic

  datatype ExitReason = NoUrl | InvalidUrl | NoCredentials | AuthFailed(guidance: Guidance)

  /** How `main` ends: it returns, calls sys.exit, or lets an exception out. */
  datatype Outcome = Success(source: Source) | Exit(reason: ExitReason) | Uncaught(error: Exception)

  /** The status passed to sys.exit. */
  function ExitStatus(reason: ExitReason): nat {
    match reason
    case NoUrl => 1
    case InvalidUrl => 1
    case NoCredentials => 2
    case AuthFailed(_) => 3
  }

  const LockedMarker := "Could not copy Chrome cookie database"
  const DpapiMarker := "Failed to decrypt with DPAPI"

  // ---------------------------------------------------------------------------
  // Quantities of one run
  // ---------------------------------------------------------------------------

  predicate UrlAccepted(l: Locals) {
    l.url != [] && IsValidYouTubeUrl(l.url)
  }

  predicate BrowserConfigured(l: Locals) {
    l.browser.Some?
  }

  /** The credential chosen for the authenticated attempt: the cookie file
      first, then the browser. */
  function PrimaryCredential(l: Locals): (c: Option<Credential>)
    ensures c.None? <==> l.usableFile.None? && l.browser.None?
    ensures l.usableFile.Some? ==> c.Some? && c.value.CookieFile?
    ensures c.Some? && c.value.CookieFile? ==> l.usableFile == Some(c.value.path)
    ensures c.Some? && c.value.BrowserCookies? ==> l.usableFile.None? && l.browser == Some(c.value.spec)
  {
    if l.usableFile.Some? then Some(CookieFile(l.usableFile.value))
    else if l.browser.Some? then Some(BrowserCookies(l.browser.value))
    else None
  }

  /** Whether the cookies.txt warning is printed. */
  predicate Warned(l: Locals) {
    l.usableFile.Some? && l.lowQuality
  }

  function CredentialKey(cred: Credential): string {
    if cred.CookieFile? then CookieFileKey else BrowserKey
  }

  /** A copy of `base` with the one entry that carries `cred`. */
  function WithCredential(base: Options, cred: Credential): Options {
    match cred
    case CookieFile(path) => base[CookieFileKey := Str(path)]
    case BrowserCookies(spec) => base[BrowserKey := Tuple(spec)]
  }

  /** The n-th call of `try_download`. */
  function Attempt(l: Locals, n: nat, opts: Options): EngineResult {
    TryDownload(l.engine(n, opts))
  }

  // ---------------------------------------------------------------------------
  // The state machine
  // ---------------------------------------------------------------------------

  datatype Phase =
    | CheckUrl
    | Unauthenticated
    | ResolveCredentials
    | Authenticated(cred: Credential)
    | Fallback(path: string)
    | Finished(outcome: Outcome)

  /** The phase, the option sets tried so far (in order) and whether the
      cookies.txt warning was printed. */
  datatype State = State(phase: Phase, tried: seq<Options>, warned: bool)

  function Rank(p: Phase): nat {
    match p
    case CheckUrl => 5
    case Unauthenticated => 4
    case ResolveCredentials => 3
    case Authenticated(_) => 2
    case Fallback(_) => 1
    case Finished(_) => 0
  }

  /** How many downloads a phase can still start. */
  function AttemptsLeft(p: Phase): nat {
    match p
    case CheckUrl => 3
    case Unauthenticated => 3
    case ResolveCredentials => 2
    case Authenticated(_) => 2
    case Fallback(_) => 1
    case Finished(_) => 0
  }

  /** The URL check: an empty URL or one outside the allow-list ends the run. */
  function CheckedUrl(l: Locals): (p: Phase)
    ensures p == Unauthenticated || p.Finished?
    ensures Rank(p) <= 4 && AttemptsLeft(p) <= 3
  {
    if l.url == [] then Finished(Exit(NoUrl))
    else if !IsValidYouTubeUrl(l.url) then Finished(Exit(InvalidUrl))
    else Unauthenticated
  }

  /** After the anonymous attempt: a PermissionError (an auth marker) leads on
      to the credentials; any other exception leaves `main` uncaught. */
  function AfterAnonymous(r: EngineResult): (p: Phase)
    ensures p == ResolveCredentials || p.Finished?
    ensures Rank(p) <= 3 && AttemptsLeft(p) <= 2
  {
    match r
    case Completed => Finished(Success(NoAuth))
    case Raised(e) => if e.PermissionError? then ResolveCredentials else Finished(Uncaught(e))
  }

  /** The credential choice: without a credential the run ends. */
  function Resolved(l: Locals): (p: Phase)
    ensures p.Authenticated? || p.Finished?
    ensures Rank(p) <= 2 && AttemptsLeft(p) <= 2
  {
    match PrimaryCredential(l)
    case None => Finished(Exit(NoCredentials))
    case Some(cred) => Authenticated(cred)
  }

  /** The phase after a failed authenticated attempt whose error reads `msg`:
      the locked-database marker is looked at first, then the DPAPI marker,
      each only when a browser is configured (whichever credential was used);
      either falls back to a usable cookie file, else ends with its guidance. */
  function AfterAuthFailure(l: Locals, msg: string): (p: Phase)
    ensures BrowserConfigured(l) && Contains(msg, LockedMarker) ==>
      p == if l.usableFile.Some? then Fallback(l.usableFile.value) else Finished(Exit(AuthFailed(LockedDatabase)))
    ensures BrowserConfigured(l) && !Contains(msg, LockedMarker) && Contains(msg, DpapiMarker) ==>
      p == if l.usableFile.Some? then Fallback(l.usableFile.value) else Finished(Exit(AuthFailed(DpapiFailure)))
    ensures !(BrowserConfigured(l) && (Contains(msg, LockedMarker) || Contains(msg, DpapiMarker))) ==>
      p == Finished(Exit(AuthFailed(Generic)))
  {
    var g := MarkerGuidance(l, msg);
    if g != Generic && l.usableFile.Some? then Fallback(l.usableFile.value)
    else Finished(Exit(AuthFailed(g)))
  }

  /** The guidance the error text selects: the locked-database text is looked
      for first, then the DPAPI text, each only when a browser is configured. */
  function MarkerGuidance(l: Locals, msg: string): Guidance {
    if BrowserConfigured(l) && Contains(msg, LockedMarker) then LockedDatabase
    else if BrowserConfigured(l) && Contains(msg, DpapiMarker) then DpapiFailure
    else Generic
  }

  /** The options of the fallback download: the base options plus the cookie file. */
  function FallbackOpts(l: Locals, path: string): Options {
    l.baseOpts[CookieFileKey := Str(path)]
  }

  /** After the authenticated attempt. */
  function AfterAuthenticated(l: Locals, cred: Credential, r: EngineResult): (p: Phase)
    ensures p.Fallback? || p.Finished?
    ensures Rank(p) <= 1 && AttemptsLeft(p) <= 1
  {
    match r
    case Completed => Finished(Success(Primary(cred)))
    case Raised(e) => AfterAuthFailure(l, e.msg)
  }

  /** After the fallback attempt: a failure escapes `main`, since
      `try_download` raises rather than returning False. */
  function AfterFallback(path: string, r: EngineResult): (p: Phase)
    ensures p.Finished?
    ensures Rank(p) == 0 && AttemptsLeft(p) == 0
  {
    match r
    case Completed => Finished(Success(FallbackFile(path)))
    case Raised(e) => Finished(Uncaught(e))
  }

  /** One transition. Each phase that downloads appends its options to
      `tried`; the credential choice records whether the warning was printed. */
  function Step(l: Locals, s: State): (t: State)
    requires !s.phase.Finished?
    ensures Rank(t.phase) < Rank(s.phase)
    ensures s.tried <= t.tried
    ensures |t.tried| + AttemptsLeft(t.phase) <= |s.tried| + AttemptsLeft(s.phase)
  {
    match s.phase
    case CheckUrl => s.(phase := CheckedUrl(l))
    case Unauthenticated =>
      var opts := l.baseOpts;
      State(AfterAnonymous(Attempt(l, |s.tried|, opts)), s.tried + [opts], s.warned)
    case ResolveCredentials => State(Resolved(l), s.tried, Warned(l))
    case Authenticated(cred) =>
      var opts := WithCredential(l.baseOpts, cred);
      State(AfterAuthenticated(l, cred, Attempt(l, |s.tried|, opts)), s.tried + [opts], s.warned)
    case Fallback(path) =>
      var opts := FallbackOpts(l, path);
      State(AfterFallback(path, Attempt(l, |s.tried|, opts)), s.tried + [opts], s.warned)
  }

  /** Steps until a final phase, which always comes. */
  function Run(l: Locals, s: State): (t: State)
    ensures t.phase.Finished?
    decreases Rank(s.phase)
  {
    if s.phase.Finished? then s else Run(l, Step(l, s))
  }

  /** The run from the start, for given values of the locals. */
  function Flow(l: Locals): (t: State)
    ensures t.phase.Finished?
  {
    Run(l, State(CheckUrl, [], false))
  }

  /** The run of one invocation. */
  function Execute(inv: Invocation): (t: State)
    ensures t.phase.Finished?
  {
    Flow(LocalsOf(inv))
  }

  /** Running from the URL check: the two exits, else the anonymous phase. */
  lemma RunCheckUrl(l: Locals, tried: seq<Options>, warned: bool)
    ensures Run(l, State(CheckUrl, tried, warned))
      == if l.url == [] then State(Finished(Exit(NoUrl)), tried, warned)
         else if !IsValidYouTubeUrl(l.url) then State(Finished(Exit(InvalidUrl)), tried, warned)
         else Run(l, State(Unauthenticated, tried, warned))
  {
  }

  /** Running from the anonymous phase: one download with the base options. */
  lemma RunUnauthenticated(l: Locals, tried: seq<Options>, warned: bool)
    ensures Run(l, State(Unauthenticated, tried, warned))
      == Run(l, State(AfterAnonymous(Attempt(l, |tried|, l.baseOpts)), tried + [l.baseOpts], warned))
  {
  }

  /** Running from the credential phase: no credential exits, else the
      authenticated phase, with the warning flag set either way. */
  lemma RunResolveCredentials(l: Locals, tried: seq<Options>, warned: bool)
    ensures Run(l, State(ResolveCredentials, tried, warned))
      == if PrimaryCredential(l).None? then State(Finished(Exit(NoCredentials)), tried, Warned(l))
         else Run(l, State(Authenticated(PrimaryCredential(l).value), tried, Warned(l)))
  {
  }

  /** Running from the authenticated phase: one download with the credential. */
  lemma RunAuthenticated(l: Locals, cred: Credential, tried: seq<Options>, warned: bool)
    ensures var opts := WithCredential(l.baseOpts, cred);
      Run(l, State(Authenticated(cred), tried, warned))
      == Run(l, State(AfterAuthenticated(l, cred, Attempt(l, |tried|, opts)), tried + [opts], warned))
  {
  }

  /** Running from the fallback phase: one more download, then the end. */
  lemma RunFallback(l: Locals, path: string, prior: seq<Options>, warned: bool)
    ensures var opts := FallbackOpts(l, path);
      Run(l, State(Fallback(path), prior, warned))
      == State(AfterFallback(path, Attempt(l, |prior|, opts)), prior + [opts], warned)
  {
  }

  // ---------------------------------------------------------------------------
  // main, step by step
  // ---------------------------------------------------------------------------

  /** The fallback block of `main` (written twice there, once per marker): a
      fresh copy of the base options with only the cookie file added, and one
      more download. A failure propagates: `try_download` never returns False,
      so the success test around it cannot fail. */
  method FallBackToCookieFile(engine: (nat, Options) -> EngineResult, baseOpts: Options, path: string,
                              prior: seq<Options>, warned: bool, ghost l: Locals)
    returns (outcome: Outcome, fallbackOpts: Options)
    requires l.engine == engine && l.baseOpts == baseOpts
    ensures Run(l, State(Fallback(path), prior, warned)) == State(Finished(outcome), prior + [fallbackOpts], warned)
  {
    fallbackOpts := baseOpts;
    fallbackOpts := fallbackOpts[CookieFileKey := Str(path)];
    var third := TryDownload(engine(|prior|, fallbackOpts));
    RunFallback(l, path, prior, warned);
    if third.Completed? {
      outcome := Success(FallbackFile(path));
      return;
    }
    outcome := Uncaught(third.error);
  }

  /** The choice of cookie source in `main`: the cookie file when it is set
      and is a file (after the diagnostic, whose warning does not stop
      anything), else the browser tuple when set, else none. The options are a
      copy of the base options with the one chosen entry added. */
  method ChooseCredential(host: Host, cfg: CookieConfig, baseOpts: Options, ghost l: Locals)
    returns (authedOpts: Options, cred: Option<Credential>, warned: bool)
    requires LocalsFor(l, host, cfg, baseOpts)
    ensures cred == PrimaryCredential(l) && warned == Warned(l)
    ensures cred.Some? ==> authedOpts == WithCredential(baseOpts, cred.value)
  {
    authedOpts := baseOpts;
    warned := false;
    if cfg.file.Some? && cfg.file.value != [] && host.isFile(cfg.file.value) {
      var diagnostics := AnalyzeCookieFile(host.readLines(cfg.file.value));
      if diagnostics.youtubeLines < 5 || !diagnostics.hasCore {
        warned := true;
      }
      authedOpts := authedOpts[CookieFileKey := Str(cfg.file.value)];
      cred := Some(CookieFile(cfg.file.value));
    } else if cfg.browser.Some? {
      authedOpts := authedOpts[BrowserKey := Tuple(cfg.browser.value)];
      cred := Some(BrowserCookies(cfg.browser.value));
    } else {
      cred := None;
    }
  }

  /** The authenticated download of `main` and, when it fails, the choice
      between the fallback, the locked-database or DPAPI guidance and the
      generic guidance, by the markers in the error text. */
  method AuthenticatedDownload(host: Host, cfg: CookieConfig, baseOpts: Options, authedOpts: Options,
                               cred: Credential, prior: seq<Options>, warned: bool, ghost l: Locals)
    returns (outcome: Outcome, tried: seq<Options>)
    requires LocalsFor(l, host, cfg, baseOpts) && authedOpts == WithCredential(baseOpts, cred)
    ensures Run(l, State(Authenticated(cred), prior, warned)) == State(Finished(outcome), tried, warned)
    ensures |tried| <= |prior| + 2
  {
    var second := TryDownload(host.engine(|prior|, authedOpts));
    tried := prior + [authedOpts];
    RunAuthenticated(l, cred, prior, warned);
    ghost var s := State(AfterAuthenticated(l, cred, second), tried, warned);
    if second.Completed? {
      outcome := Success(Primary(cred));
      return;
    }
    var err := second.error.msg;
    assert s.phase == AfterAuthFailure(l, err);

    if cfg.browser.Some? && Contains(err, LockedMarker) {
      if cfg.file.Some? && cfg.file.value != [] && host.isFile(cfg.file.value) {
        assert s == State(Fallback(cfg.file.value), tried, warned);
        var fallbackOpts;
        outcome, fallbackOpts := FallBackToCookieFile(host.engine, baseOpts, cfg.file.value, tried, warned, l);
        tried := tried + [fallbackOpts];
        return;
      }
      outcome := Exit(AuthFailed(LockedDatabase));
      return;
    }

    if cfg.browser.Some? && Contains(err, DpapiMarker) {
      if cfg.file.Some? && cfg.file.value != [] && host.isFile(cfg.file.value) {
        assert s == State(Fallback(cfg.file.value), tried, warned);
        var fallbackOpts;
        outcome, fallbackOpts := FallBackToCookieFile(host.engine, baseOpts, cfg.file.value, tried, warned, l);
        tried := tried + [fallbackOpts];
        return;
      }
      outcome := Exit(AuthFailed(DpapiFailure));
      return;
    }

    outcome := Exit(AuthFailed(Generic));
  }

  /** The downloads of `main` once the URL is accepted: anonymous first, then
      with the configured cookies when YouTube asks for a sign-in. The cookie
      configuration is read only in the second case. */
  method Download(inv: Invocation, baseOpts: Options) returns (outcome: Outcome, tried: seq<Options>, warned: bool)
    requires baseOpts == LocalsOf(inv).baseOpts
    ensures Run(LocalsOf(inv), State(Unauthenticated, [], false)) == State(Finished(outcome), tried, warned)
    ensures |tried| <= 3
  {
    ghost var l := LocalsOf(inv);
    tried, warned := [], false;

    // First attempt: no authentication.
    var first := TryDownload(inv.host.engine(0, baseOpts));
    tried := tried + [baseOpts];
    RunUnauthenticated(l, [], false);
    if first.Completed? {
      outcome := Success(NoAuth);
      return;
    }
    if !first.error.PermissionError? {
      outcome := Uncaught(first.error);
      return;
    }

    // Second attempt: cookies from the configuration.
    var cfg := GetCookiesFromEnv(inv.env, inv.host.expand);
    assert LocalsFor(l, inv.host, cfg, baseOpts);
    var authedOpts, choice;
    authedOpts, choice, warned := ChooseCredential(inv.host, cfg, baseOpts, l);
    RunResolveCredentials(l, tried, false);
    if choice.None? {
      outcome := Exit(NoCredentials);
      return;
    }
    var cred := choice.value;
    outcome, tried := AuthenticatedDownload(inv.host, cfg, baseOpts, authedOpts, cred, tried, warned, l);
  }

  /** The body of `main`. The option dictionaries are copied from the base
      options and updated in place, as in the source. Each stage is tied to
      the state machine by the lemma for its phase. */
  method RunMain(inv: Invocation) returns (outcome: Outcome, tried: seq<Options>, warned: bool)
    ensures Execute(inv) == State(Finished(outcome), tried, warned)
    ensures |tried| <= 3
  {
    tried, warned := [], false;
    RunCheckUrl(LocalsOf(inv), tried, warned);

    var url := Strip(inv.rawUrl);
    if url == [] {
      outcome := Exit(NoUrl);
      return;
    }
    if !IsValidYouTubeUrl(url) {
      outcome := Exit(InvalidUrl);
      return;
    }

    var desktopPath := PathJoin(inv.host.home, "Desktop");
    var baseOpts := BuildBaseOpts(desktopPath);
    outcome, tried, warned := Download(inv, baseOpts);
  }
}
