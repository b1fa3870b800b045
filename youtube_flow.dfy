/**
 * What `main` of YouTube/video_downloader.py does: how many downloads it
 * starts and with which options, which credential it picks, when it falls
 * back to the cookie file, and how it ends. The lemmas are stated for any
 * values of the locals of `main` (`Flow`), and so hold for every invocation
 * (`Execute(inv) == Flow(LocalsOf(inv))`), which `RunMain` is proved to
 * follow; the last section ties them to the environment variables.
 */
module YouTubeFlow {
  import opened Maybe
  import opened Text
  import opened YouTubeDownloader
  import opened YouTubeMain

  // ---------------------------------------------------------------------------
  // The downloads of a run, named
  // ---------------------------------------------------------------------------

  /** The anonymous download. */
  function First(l: Locals): EngineResult {
    Attempt(l, 0, l.baseOpts)
  }

  /** YouTube asked for a sign-in on the anonymous download. */
  predicate SignInRequired(l: Locals) {
    First(l).Raised? && First(l).error.PermissionError?
  }

  /** The options of the authenticated download with credential `cred`. */
  function AuthOpts(l: Locals, cred: Credential): Options {
    WithCredential(l.baseOpts, cred)
  }

  /** The authenticated download. */
  function Second(l: Locals, cred: Credential): EngineResult {
    Attempt(l, 1, AuthOpts(l, cred))
  }

  /** The run reaches the authenticated download. */
  predicate Authenticates(l: Locals) {
    UrlAccepted(l) && SignInRequired(l) && PrimaryCredential(l).Some?
  }

  /** The authenticated download failed. */
  predicate SecondFailed(l: Locals) {
    Authenticates(l) && Second(l, PrimaryCredential(l).value).Raised?
  }

  function SecondMessage(l: Locals): string
    requires SecondFailed(l)
  {
    Second(l, PrimaryCredential(l).value).error.msg
  }

  /** One of the two browser-store markers is in the error, and a browser is configured. */
  predicate BrowserStoreFailure(l: Locals) {
    SecondFailed(l) && MarkerGuidance(l, SecondMessage(l)) != Generic
  }

  /** The run falls back to the cookie file. */
  predicate FallsBack(l: Locals) {
    BrowserStoreFailure(l) && l.usableFile.Some?
  }

  /** The guidance printed when the authenticated download fails and there is no fallback. */
  function GuidanceFor(l: Locals): Guidance
    requires SecondFailed(l)
  {
    MarkerGuidance(l, SecondMessage(l))
  }

  /** The run in closed form, download by download: an independent statement
      of what the state machine computes. */
  function Expected(l: Locals): State {
    if !UrlAccepted(l) then
      State(Finished(Exit(if l.url == [] then NoUrl else InvalidUrl)), [], false)
    else if !SignInRequired(l) then
      State(Finished(if First(l).Completed? then Success(NoAuth) else Uncaught(First(l).error)),
            [l.baseOpts], false)
    else if PrimaryCredential(l).None? then
      State(Finished(Exit(NoCredentials)), [l.baseOpts], false)
    else
      var cred := PrimaryCredential(l).value;
      var tried := [l.baseOpts, AuthOpts(l, cred)];
      if !SecondFailed(l) then
        State(Finished(Success(Primary(cred))), tried, Warned(l))
      else if FallsBack(l) then
        var path := l.usableFile.value;
        var third := Attempt(l, 2, FallbackOpts(l, path));
        State(Finished(if third.Completed? then Success(FallbackFile(path)) else Uncaught(third.error)),
              tried + [FallbackOpts(l, path)], Warned(l))
      else
        State(Finished(Exit(AuthFailed(GuidanceFor(l)))), tried, Warned(l))
  }

  // ---------------------------------------------------------------------------
  // The run, stage by stage
  // ---------------------------------------------------------------------------

  /** A URL that is empty after stripping or fails the allow-list ends the
      run before any download. */
  lemma FlowRejected(l: Locals)
    requires !UrlAccepted(l)
    ensures Flow(l) == State(Finished(Exit(if l.url == [] then NoUrl else InvalidUrl)), [], false)
  {
    RunCheckUrl(l, [], false);
  }

  lemma FlowAnonymous(l: Locals)
    requires UrlAccepted(l)
    ensures Flow(l) == Run(l, State(AfterAnonymous(First(l)), [l.baseOpts], false))
  {
    RunCheckUrl(l, [], false);
    RunUnauthenticated(l, [], false);
    assert [] + [l.baseOpts] == [l.baseOpts];
  }

  lemma FlowResolve(l: Locals)
    requires UrlAccepted(l) && SignInRequired(l)
    ensures Flow(l)
      == if PrimaryCredential(l).None? then State(Finished(Exit(NoCredentials)), [l.baseOpts], Warned(l))
         else Run(l, State(Authenticated(PrimaryCredential(l).value), [l.baseOpts], Warned(l)))
  {
    FlowAnonymous(l);
    RunResolveCredentials(l, [l.baseOpts], false);
  }

  lemma FlowAuthenticated(l: Locals)
    requires Authenticates(l)
    ensures var cred := PrimaryCredential(l).value;
      Flow(l) == Run(l, State(AfterAuthenticated(l, cred, Second(l, cred)),
                                     [l.baseOpts, AuthOpts(l, cred)], Warned(l)))
  {
    var cred := PrimaryCredential(l).value;
    FlowResolve(l);
    RunAuthenticated(l, cred, [l.baseOpts], Warned(l));
    assert [l.baseOpts] + [AuthOpts(l, cred)] == [l.baseOpts, AuthOpts(l, cred)];
  }

  lemma FlowAfterSecond(l: Locals)
    requires Authenticates(l) && !FallsBack(l)
    ensures Flow(l) == Expected(l)
  {
    FlowAuthenticated(l);
  }

  lemma FlowFallback(l: Locals)
    requires FallsBack(l)
    ensures Flow(l) == Expected(l)
  {
    var cred := PrimaryCredential(l).value;
    var path := l.usableFile.value;
    var tried := [l.baseOpts, AuthOpts(l, cred)];
    FlowAuthenticated(l);
    assert AfterAuthenticated(l, cred, Second(l, cred)) == Fallback(path);
    RunFallback(l, path, tried, Warned(l));
  }

  /** The state machine computes the closed form. */
  lemma FlowClosedForm(l: Locals)
    ensures Flow(l) == Expected(l)
  {
    if !UrlAccepted(l) {
      FlowRejected(l);
    } else if !SignInRequired(l) {
      FlowAnonymous(l);
    } else if PrimaryCredential(l).None? {
      FlowResolve(l);
    } else if FallsBack(l) {
      FlowFallback(l);
    } else {
      FlowAfterSecond(l);
    }
  }

  // ---------------------------------------------------------------------------
  // Bounds
  // ---------------------------------------------------------------------------

  /** Running never forgets a download and starts no more than the phase allows. */
  lemma {:induction false} RunBounds(l: Locals, s: State)
    ensures s.tried <= Run(l, s).tried
    ensures |Run(l, s).tried| <= |s.tried| + AttemptsLeft(s.phase)
    decreases Rank(s.phase)
  {
    if !s.phase.Finished? {
      RunBounds(l, Step(l, s));
    }
  }

  /** `main` starts at most three downloads. */
  lemma AtMostThreeAttempts(inv: Invocation)
    ensures |Execute(inv).tried| <= 3
  {
    RunBounds(LocalsOf(inv), State(CheckUrl, [], false));
  }

  // ---------------------------------------------------------------------------
  // The URL check
  // ---------------------------------------------------------------------------

  /** No download starts exactly when the URL is rejected, and a rejected URL
      exits with status 1. */
  lemma RejectedUrlStartsNothing(l: Locals)
    ensures Flow(l).tried == [] <==> !UrlAccepted(l)
    ensures !UrlAccepted(l) ==>
      Flow(l).phase.outcome.Exit? && ExitStatus(Flow(l).phase.outcome.reason) == 1
  {
    FlowClosedForm(l);
    var e := Expected(l);
    assert e.tried == [] <==> !UrlAccepted(l);
    assert !UrlAccepted(l) ==> e.phase.outcome.Exit? && ExitStatus(e.phase.outcome.reason) == 1;
  }

  // ---------------------------------------------------------------------------
  // The anonymous download
  // ---------------------------------------------------------------------------

  /** The first download of an accepted URL carries no credential. */
  lemma FirstAttemptIsAnonymous(l: Locals)
    requires UrlAccepted(l) && CarriesNoCredential(l.baseOpts)
    ensures |Flow(l).tried| >= 1 && Flow(l).tried[0] == l.baseOpts
    ensures CookieFileKey !in Flow(l).tried[0] && BrowserKey !in Flow(l).tried[0]
  {
    FlowClosedForm(l);
    var e := Expected(l);
    assert |e.tried| >= 1 && e.tried[0] == l.baseOpts;
  }

  /** Without a sign-in request the cookie configuration is never consulted:
      success ends the run after one download, and any other failure, a
      DownloadError without an auth marker included, escapes `main`. */
  lemma NoSignInNoCookies(l: Locals)
    requires UrlAccepted(l) && !SignInRequired(l)
    ensures Flow(l).tried == [l.baseOpts] && !Flow(l).warned
    ensures First(l).Completed? ==> Flow(l).phase == Finished(Success(NoAuth))
    ensures First(l).Raised? ==> Flow(l).phase == Finished(Uncaught(First(l).error))
  {
    FlowClosedForm(l);
  }

  // ---------------------------------------------------------------------------
  // The credential
  // ---------------------------------------------------------------------------

  /** Exit status 2 comes exactly from a sign-in request with neither a usable
      cookie file nor a browser configured. */
  lemma NoCredentialsExit(l: Locals)
    ensures Flow(l).phase == Finished(Exit(NoCredentials))
        <==> UrlAccepted(l) && SignInRequired(l) && PrimaryCredential(l).None?
    ensures Flow(l).phase == Finished(Exit(NoCredentials)) ==>
      ExitStatus(NoCredentials) == 2 && |Flow(l).tried| == 1
  {
    FlowClosedForm(l);
  }

  /** A second download happens exactly when a credential was found, and it
      uses the base options plus that one credential entry. */
  lemma SecondAttemptCarriesCredential(l: Locals)
    ensures |Flow(l).tried| >= 2 <==> Authenticates(l)
    ensures |Flow(l).tried| >= 2 ==>
      Flow(l).tried[1] == AuthOpts(l, PrimaryCredential(l).value)
  {
    FlowClosedForm(l);
  }

  /** The options of an authenticated download are the base options plus the
      key of its credential, and never carry the other credential key. */
  lemma AuthOptsHoldOneCredential(l: Locals, cred: Credential)
    requires CarriesNoCredential(l.baseOpts)
    ensures AuthOpts(l, cred).Keys == l.baseOpts.Keys + {CredentialKey(cred)}
    ensures cred.CookieFile? ==> AuthOpts(l, cred)[CookieFileKey] == Str(cred.path) && BrowserKey !in AuthOpts(l, cred)
    ensures cred.BrowserCookies? ==> AuthOpts(l, cred)[BrowserKey] == Tuple(cred.spec) && CookieFileKey !in AuthOpts(l, cred)
    ensures forall k | k in l.baseOpts :: AuthOpts(l, cred)[k] == l.baseOpts[k]
  {
  }

  /** A usable cookie file wins over a configured browser. */
  lemma CookieFileTakesPrecedence(l: Locals)
    requires Authenticates(l) && l.usableFile.Some? && CarriesNoCredential(l.baseOpts)
    ensures |Flow(l).tried| >= 2 && Flow(l).tried[1] == l.baseOpts[CookieFileKey := Str(l.usableFile.value)]
    ensures BrowserKey !in Flow(l).tried[1]
  {
    FlowClosedForm(l);
  }

  // ---------------------------------------------------------------------------
  // The cookies.txt warning
  // ---------------------------------------------------------------------------

  /** The warning is printed exactly when the cookie file is chosen and looks
      incomplete. */
  lemma WarnedExactly(l: Locals)
    ensures Flow(l).warned <==> UrlAccepted(l) && SignInRequired(l) && Warned(l)
    ensures Flow(l).warned ==> PrimaryCredential(l) == Some(CookieFile(l.usableFile.value))
  {
    FlowClosedForm(l);
  }

  // ---------------------------------------------------------------------------
  // Fallback and guidance
  // ---------------------------------------------------------------------------

  /** A third download happens exactly when the authenticated download failed
      with a browser-store marker, a browser is configured and the cookie file
      is usable; it uses the base options plus the cookie file only. */
  lemma FallbackExactly(l: Locals)
    requires CarriesNoCredential(l.baseOpts)
    ensures |Flow(l).tried| == 3 <==> FallsBack(l)
    ensures FallsBack(l) ==>
      Flow(l).tried[2] == FallbackOpts(l, l.usableFile.value) && BrowserKey !in Flow(l).tried[2]
  {
    FlowClosedForm(l);
  }

  /** The fallback can only ever repeat the authenticated download: a usable
      file is always the primary credential, so both downloads use the same
      options. */
  lemma FallbackRepeatsSecondAttempt(l: Locals)
    requires |Flow(l).tried| == 3
    ensures Flow(l).tried[2] == Flow(l).tried[1]
  {
    FlowClosedForm(l);
  }

  /** Exit status 3 and its guidance: the locked-database text is looked for
      first, then the DPAPI text, each only when a browser is configured and
      no cookie file can be fallen back on; otherwise the generic text. */
  lemma GuidanceExactly(l: Locals, g: Guidance)
    ensures Flow(l).phase == Finished(Exit(AuthFailed(g)))
        <==> SecondFailed(l) && !FallsBack(l) && GuidanceFor(l) == g
    ensures Flow(l).phase == Finished(Exit(AuthFailed(g))) ==> |Flow(l).tried| == 2
  {
    FlowClosedForm(l);
  }

  /** Guidance names a browser-store failure only when a browser is configured
      and the cookie file is not usable. */
  lemma BrowserGuidanceNeedsNoFile(l: Locals)
    requires Flow(l).phase.outcome.Exit? && Flow(l).phase.outcome.reason.AuthFailed?
    requires Flow(l).phase.outcome.reason.guidance != Generic
    ensures BrowserConfigured(l) && !l.usableFile.Some?
  {
    FlowClosedForm(l);
  }

  // ---------------------------------------------------------------------------
  // How the run ends
  // ---------------------------------------------------------------------------

  /** A success is reported only when the final download of the run
      completed, and the `Source` of the `Success` outcome says which of the
      three downloads that was. */
  lemma SuccessMeansLastDownloadCompleted(l: Locals)
    requires Flow(l).phase.outcome.Success?
    ensures var t := Flow(l).tried; var n := |t|;
      1 <= n && l.engine(n - 1, t[n - 1]).Completed?
    ensures var src := Flow(l).phase.outcome.source; var n := |Flow(l).tried|;
      (src.NoAuth? <==> n == 1) && (src.Primary? <==> n == 2) && (src.FallbackFile? <==> n == 3)
  {
    FlowClosedForm(l);
  }

  /** An exception escapes `main` only from the anonymous download (when it is
      not a sign-in request) or from the fallback download. */
  lemma UncaughtOrigins(l: Locals)
    requires Flow(l).phase.outcome.Uncaught?
    ensures var n := |Flow(l).tried|;
      (n == 1 && !SignInRequired(l)) || (n == 3 && FallsBack(l))
  {
    FlowClosedForm(l);
  }

  // ---------------------------------------------------------------------------
  // The warning changes nothing
  // ---------------------------------------------------------------------------

  /** The cookies.txt warning is advice only: whether the file looks
      incomplete changes neither the downloads nor how the run ends. */
  lemma WarningNeverBlocks(l: Locals, lowQuality: bool)
    ensures Flow(l.(lowQuality := lowQuality)).phase == Flow(l).phase
    ensures Flow(l.(lowQuality := lowQuality)).tried == Flow(l).tried
  {
    FlowClosedForm(l);
    FlowClosedForm(l.(lowQuality := lowQuality));
  }

  // ---------------------------------------------------------------------------
  // From the environment
  // ---------------------------------------------------------------------------

  /** When YT_COOKIES_FILE names an existing file after stripping and
      expansion, that file is the credential, whatever browser is set. */
  lemma EnvCookieFileWins(inv: Invocation)
    requires inv.env.cookiesFile.Some? && Strip(inv.env.cookiesFile.value) != []
    requires inv.host.expand(Strip(inv.env.cookiesFile.value)) != []
    requires inv.host.isFile(inv.host.expand(Strip(inv.env.cookiesFile.value)))
    ensures PrimaryCredential(LocalsOf(inv)) == Some(CookieFile(inv.host.expand(Strip(inv.env.cookiesFile.value))))
  {
    StripBlank(inv.env.cookiesFile.value);
  }

  /** With none of the three variables set there is no credential, so a
      sign-in request ends the run with exit status 2 after one download. */
  lemma UnconfiguredSignInExits(inv: Invocation)
    requires inv.env == Env(None, None, None)
    requires UrlAccepted(LocalsOf(inv)) && SignInRequired(LocalsOf(inv))
    ensures Execute(inv).phase == Finished(Exit(NoCredentials))
    ensures ExitStatus(Execute(inv).phase.outcome.reason) == 2 && |Execute(inv).tried| == 1
  {
    var l := LocalsOf(inv);
    assert l.usableFile.None? && l.browser.None?;
    NoCredentialsExit(l);
  }

  /** A sign-in request on the first download is either a DownloadError whose
      text holds "login required" (or another auth marker) or a PermissionError
      raised by yt-dlp itself. */
  lemma LoginRequiredIsSignIn(l: Locals)
    ensures var r := l.engine(0, l.baseOpts);
      r.Raised? && (r.error.PermissionError? || (r.error.DownloadError? && Contains(r.error.msg, "login required")))
      ==> SignInRequired(l)
  {
  }
}
