# Cookie handling and download flow of the Nilsosint YouTube downloader

This project is a Dafny model of two pieces of the Nilsosint OSINT scripts.

- **The YouTube downloader** (`YouTube/video_downloader.py`). It covers:
  - the URL allow-list;
  - the base yt-dlp options;
  - reading the cookie configuration from `YT_COOKIES_FILE`, `YT_COOKIES_BROWSER` and `YT_COOKIES_PROFILE`;
  - the cookies.txt quality diagnostic;
  - the way `try_download` turns a "sign-in required" `DownloadError` into a `PermissionError`;
  - the three-attempt flow of `main`: anonymous, then authenticated with one cookie source, then a single fallback to the cookie file when the browser cookie store is locked or cannot be decrypted.
- **The Instagram cookie loader** (`load_cookies_from_txt` in `Instagram/get_profile_by_userid.py`). It reads a browser cookie export, in Netscape tab-separated or `key=value` form, into a name-to-value dictionary of ASCII values.

Modules:

- `Maybe` (maybe.dfy): the `Option` type.
- `Text` (text.dfy): the Python string operations the scripts rely on. These are `strip`, `lower`, `startswith`, `in`, `split`, `split(sep, 1)`, and the ASCII filter `encode('ascii', errors='ignore')`. Each comes with the lemmas the rest of the model needs.
- `YouTubeDownloader` (youtube_downloader.dfy): the pure functions of the downloader.
- `YouTubeMain` (youtube_main.dfy): `main` in two forms.
  - `Run` is a state machine whose phases are the stages of `main`. It is driven by the values `main` computes (`Locals`).
  - `RunMain` is the body of `main`, written step by step with option dictionaries that are copied and updated as in the source. Its postcondition is that it ends exactly where `Execute` ends.
- `YouTubeFlow` (youtube_flow.dfy): what a run does, proved for every value of the locals and so for every invocation. This covers which downloads start with which options, which credential is used, when the fallback happens and how the run ends. `FlowClosedForm` gives an independent closed form of the whole run.
- `InstagramCookies` (instagram_cookies.dfy): the per-line parser, the dictionary the file yields (`Load`), the loop that builds it, and its properties.

The surroundings become inputs.

- The command line or prompt becomes a raw URL string.
- The environment after `load_dotenv` becomes three optional strings.
- `os.path.expanduser(os.path.expandvars(_))` and `os.path.isfile` become functions.
- Reading the cookie file becomes its list of lines, or `None` when opening or reading it raises.
- yt-dlp becomes a function from the attempt number and the options to "completed" or "raised this exception".

## Model

| member | source | states |
|---|---|---|
| `Text.Strip` | YouTube/video_downloader.py:132 | `str.strip()`: the result is no longer than the input and neither starts nor ends with whitespace |
| `Text.LStripShape` | YouTube/video_downloader.py:132 | `lstrip` removes a prefix of the input, and that prefix is all whitespace |
| `Text.RStripShape` | YouTube/video_downloader.py:132 | `rstrip` removes a suffix of the input, and that suffix is all whitespace |
| `Text.StripKeeps` | Instagram/get_profile_by_userid.py:31-33 | a non-whitespace character of the line is still present after stripping |
| `Text.StripBlank` | Instagram/get_profile_by_userid.py:19 | `not line.strip()` holds exactly when every character is whitespace |
| `Text.StripFixed` | YouTube/video_downloader.py:36 | a string that neither starts nor ends with whitespace is its own strip |
| `Text.ToLower` | YouTube/video_downloader.py:36 | same length, each character lower-cased, no upper-case ASCII letter left |
| `Text.ToLowerIdempotent` | YouTube/video_downloader.py:36 | lower-casing twice equals lower-casing once |
| `Text.LowerOfStripIsStripped` | YouTube/video_downloader.py:36 | `browser.strip().lower()` is already stripped |
| `Text.ContainsTransitive` | YouTube/video_downloader.py:61-62 | a substring of a substring is a substring |
| `Text.Split` | Instagram/get_profile_by_userid.py:24 | `split('\t')` yields at least one field and no field holds a tab |
| `Text.JoinSplit` | Instagram/get_profile_by_userid.py:24 | joining the fields of a split gives back the string |
| `Text.SplitJoin` | Instagram/get_profile_by_userid.py:24 | splitting the join of tab-free fields gives back exactly those fields |
| `Text.SplitAfterPlain` | Instagram/get_profile_by_userid.py:24 | splitting `w + t`, where `w` has no separator, glues `w` onto the first field of `t` |
| `Text.SplitOnce` | Instagram/get_profile_by_userid.py:33 | `split('=', 1)` unpacks into two parts exactly when `=` occurs; the parts re-join to the string and the key holds no `=` |
| `Text.SplitOnceUnique` | Instagram/get_profile_by_userid.py:33 | the split is at the first `=`: any decomposition whose head has no `=` is the result |
| `Text.AsciiOnly` | Instagram/get_profile_by_userid.py:29 | the ASCII filter yields only ASCII characters and never lengthens the value |
| `Text.AsciiOnlyChar` | Instagram/get_profile_by_userid.py:29 | on one character the filter keeps it when it is ASCII and drops it otherwise; with `AsciiOnlyAppend` this fixes the filter on every string |
| `Text.AsciiOnlyAppend` | Instagram/get_profile_by_userid.py:29 | the filter works character by character (it distributes over concatenation) |
| `Text.AsciiOnlyKeepsAscii` | Instagram/get_profile_by_userid.py:34 | an all-ASCII value passes the filter unchanged |
| `Text.AsciiOnlyIdempotent` | Instagram/get_profile_by_userid.py:34 | filtering twice equals filtering once |
| `YouTubeDownloader.IsValidYouTubeUrl` | YouTube/video_downloader.py:9-11 | the allow-list; an accepted URL always starts with `https://` |
| `YouTubeDownloader.ValidUrlShape` | YouTube/video_downloader.py:9-11 | a URL is accepted exactly when it is `https://www.youtube.com/` or `https://youtu.be/` followed by anything |
| `YouTubeDownloader.PathJoin` | YouTube/video_downloader.py:17 | `os.path.join(a, b)`: an absolute `b` is the result; otherwise `a`, then one `/` unless `a` is empty or already ends with `/`, then `b` |
| `YouTubeDownloader.BuildBaseOpts` | YouTube/video_downloader.py:14-21 | exactly the keys outtmpl, format, merge_output_format and quiet; no cookie key; the template is the download directory, a `/` unless the directory is empty or ends with one, then `%(title)s.%(ext)s`; the format is `bestvideo+bestaudio/best`, merged to `mp4`; quiet is False |
| `YouTubeDownloader.BrowserTuple` | YouTube/video_downloader.py:34-41 | a tuple exists exactly when the browser value is non-empty; it holds the stripped lower-cased name, plus the stripped profile exactly when the profile is not blank |
| `YouTubeDownloader.GetCookiesFromEnv` | YouTube/video_downloader.py:24-46 | the browser part is that tuple; the file is absent exactly when unset; a non-blank file value is stripped and expanded; a blank one is returned unchanged |
| `YouTubeDownloader.BrowserNameNormalised` | YouTube/video_downloader.py:36 | the browser name handed to yt-dlp is stripped and lower-case |
| `YouTubeDownloader.BothSourcesCanBeReturned` | YouTube/video_downloader.py:27-28 | contrary to the docstring, the file and the browser can both be set at once |
| `YouTubeDownloader.WhitespaceValuesSlipThrough` | YouTube/video_downloader.py:35-44 | a whitespace-only browser gives the tuple `("",)`, and a whitespace-only file value is returned as it is |
| `YouTubeDownloader.CountContaining` | YouTube/video_downloader.py:58-59 | the count of lines holding the needle: at most the number of lines; zero exactly when no line holds it; all exactly when every line does |
| `YouTubeDownloader.CountContainingAppend` | YouTube/video_downloader.py:58-59 | the count is additive over concatenated line lists |
| `YouTubeDownloader.CountContainingLine` | YouTube/video_downloader.py:58-59 | one line counts 1 when it holds the needle and 0 otherwise; with `CountContainingAppend` the count is the number of matching lines |
| `YouTubeDownloader.AnyCoreLine` | YouTube/video_downloader.py:61-62 | true exactly when some line holds one of the seven marker names |
| `YouTubeDownloader.AnalyzeCookieFile` | YouTube/video_downloader.py:49-65 | an unreadable file gives `(0, 0, 0, False)`; otherwise the total is the number of lines, the two counts are the numbers of lines holding `youtube.com` and `accounts.google.com` (so bounded by the total), and the flag holds exactly when some line holds a marker |
| `YouTubeDownloader.CoreMarkersReduce` | YouTube/video_downloader.py:61-62 | since `SID` is inside `SAPISID`, `HSID` and `SSID`, the flag depends only on `SID`, `LOGIN_INFO`, `PREF` and `CONSENT` |
| `YouTubeDownloader.LowQuality` | YouTube/video_downloader.py:168 | the warning condition: fewer than five youtube.com lines, or no core marker |
| `YouTubeDownloader.WarningCondition` | YouTube/video_downloader.py:167-168 | for a readable file the warning is skipped exactly when at least five lines mention youtube.com and some line holds a core marker |
| `YouTubeDownloader.SparseFileWarns` | YouTube/video_downloader.py:166-167 | an unreadable file, or one with fewer than five youtube.com lines, always draws the warning |
| `YouTubeDownloader.IsAuthRequired` | YouTube/video_downloader.py:118-123 | a DownloadError text asks for a sign-in exactly when it holds, case-sensitively, one of the three auth markers |
| `YouTubeDownloader.TryDownload` | YouTube/video_downloader.py:108-126 | completes exactly when yt-dlp completes; the error text is kept; a PermissionError comes out exactly from a PermissionError or from a DownloadError holding an auth marker; every other exception passes unchanged |
| `YouTubeMain.UsableFile` | YouTube/video_downloader.py:165 | the cookie file counts exactly when it is set, non-empty and a file |
| `YouTubeMain.PrimaryCredential` | YouTube/video_downloader.py:165-182 | there is no credential exactly when neither a usable file nor a browser is configured; a usable file is always the credential; the browser is used only without a usable file |
| `YouTubeMain.AfterAuthFailure` | YouTube/video_downloader.py:189-232 | with a browser configured, the locked-database text (looked for first) and then the DPAPI text lead to the fallback when the file is usable, else to exit 3 with that guidance; anything else gives exit 3 with the generic guidance |
| `YouTubeMain.LocalsOf` | YouTube/video_downloader.py:130-168 | the usable file is the configured one; the warning needs a usable file; the base options carry no credential |
| `YouTubeMain.Step` | YouTube/video_downloader.py:129-232 | each stage moves to a later one, only appends to the options tried, and stays within the three-download budget |
| `YouTubeMain.Run` | YouTube/video_downloader.py:129-232 | the flow always ends: a final outcome is reached from any phase |
| `YouTubeMain.Execute` | YouTube/video_downloader.py:129-232 | every invocation ends in a success, an exit or an uncaught exception |
| `YouTubeMain.RunCheckUrl` | YouTube/video_downloader.py:136-142 | an empty URL exits with `NoUrl`, a URL off the allow-list with `InvalidUrl`, and no download starts; otherwise the anonymous attempt follows |
| `YouTubeMain.RunUnauthenticated` | YouTube/video_downloader.py:148-156 | the anonymous attempt downloads once with the base options |
| `YouTubeMain.RunResolveCredentials` | YouTube/video_downloader.py:158-182 | without a credential the run exits with `NoCredentials`; otherwise the authenticated attempt follows with the chosen credential; the warning flag is set either way |
| `YouTubeMain.RunAuthenticated` | YouTube/video_downloader.py:184-188 | the authenticated attempt downloads once with the base options plus the credential |
| `YouTubeMain.RunFallback` | YouTube/video_downloader.py:192-198 | the fallback downloads once more, with the base options plus the cookie file, and ends the run |
| `YouTubeMain.FallBackToCookieFile` | YouTube/video_downloader.py:194-198 | the fallback block builds a fresh copy of the base options plus the cookie file and ends where the state machine's fallback ends |
| `YouTubeMain.ChooseCredential` | YouTube/video_downloader.py:162-182 | the credential is the usable cookie file, else the browser tuple, else none; the warning is printed exactly when the chosen file looks incomplete; the options are the base options plus that one entry |
| `YouTubeMain.AuthenticatedDownload` | YouTube/video_downloader.py:184-232 | the authenticated attempt and the marker-driven handling of its failure end where the state machine ends, with at most two more downloads |
| `YouTubeMain.Download` | YouTube/video_downloader.py:148-232 | the downloads end where the state machine ends, with at most three downloads |
| `YouTubeMain.RunMain` | YouTube/video_downloader.py:129-232 | the body of `main` ends with exactly the outcome, downloads and warning of `Execute`, with at most three downloads |
| `YouTubeFlow.FlowRejected` | YouTube/video_downloader.py:136-142 | a rejected URL ends the run with its exit reason and no download |
| `YouTubeFlow.FlowAnonymous` | YouTube/video_downloader.py:148-156 | an accepted URL leads to exactly one anonymous download first |
| `YouTubeFlow.FlowResolve` | YouTube/video_downloader.py:158-182 | after a sign-in request the run exits with `NoCredentials` or proceeds with the chosen credential |
| `YouTubeFlow.FlowAuthenticated` | YouTube/video_downloader.py:184-188 | the second download uses the base options plus the chosen credential |
| `YouTubeFlow.FlowAfterSecond` | YouTube/video_downloader.py:184-232 | without a fallback, the run equals its closed form |
| `YouTubeFlow.FlowFallback` | YouTube/video_downloader.py:189-218 | with a fallback, the run equals its closed form, including the third download |
| `YouTubeFlow.FlowClosedForm` | YouTube/video_downloader.py:129-232 | the state machine computes the closed form: outcome, options tried and warning, download by download |
| `YouTubeFlow.RunBounds` | YouTube/video_downloader.py:129-232 | running only appends downloads and starts no more than the phase allows |
| `YouTubeFlow.AtMostThreeAttempts` | YouTube/video_downloader.py:148-218 | `main` starts at most three downloads |
| `YouTubeFlow.RejectedUrlStartsNothing` | YouTube/video_downloader.py:136-142 | no download starts exactly when the URL is rejected, and such a run exits with status 1 |
| `YouTubeFlow.FirstAttemptIsAnonymous` | YouTube/video_downloader.py:145-151 | the first download of an accepted URL uses the base options, with neither cookie key |
| `YouTubeFlow.NoSignInNoCookies` | YouTube/video_downloader.py:148-156 | without a sign-in request there is one download and no warning; success ends the run; any other error, an unmarked DownloadError included, escapes `main` |
| `YouTubeFlow.NoCredentialsExit` | YouTube/video_downloader.py:179-182 | exit status 2 happens exactly on a sign-in request with neither a usable file nor a browser, after one download |
| `YouTubeFlow.SecondAttemptCarriesCredential` | YouTube/video_downloader.py:162-188 | a second download happens exactly when a credential was found, and it uses the base options plus that credential |
| `YouTubeFlow.AuthOptsHoldOneCredential` | YouTube/video_downloader.py:162-178 | the authenticated options are the base options plus one key; they carry the chosen credential and never the other cookie key; every base entry is kept |
| `YouTubeFlow.CookieFileTakesPrecedence` | YouTube/video_downloader.py:165-175 | a usable cookie file wins over a configured browser; the second download carries no browser key |
| `YouTubeFlow.WarnedExactly` | YouTube/video_downloader.py:165-174 | the cookies.txt warning is printed exactly on a sign-in request with a usable, incomplete-looking file, which is then the credential |
| `YouTubeFlow.FallbackExactly` | YouTube/video_downloader.py:189-218 | a third download happens exactly when the authenticated download failed with a browser-store marker, a browser is configured and the file is usable; it uses the base options plus the file only |
| `YouTubeFlow.FallbackRepeatsSecondAttempt` | YouTube/video_downloader.py:165-198 | the fallback always repeats the authenticated download's options, since a usable file is always the primary credential |
| `YouTubeFlow.GuidanceExactly` | YouTube/video_downloader.py:189-232 | exit status 3 with the given guidance happens exactly when the authenticated download failed, there is no fallback, and the locked-database text (checked first), the DPAPI text or neither selects that guidance; two downloads were made |
| `YouTubeFlow.BrowserGuidanceNeedsNoFile` | YouTube/video_downloader.py:191-226 | browser-store guidance is printed only when a browser is configured and the cookie file is not usable |
| `YouTubeFlow.SuccessMeansLastDownloadCompleted` | YouTube/video_downloader.py:150-218 | a success is reported only when the last download completed, and the `Source` of the `Success` outcome names which download it was |
| `YouTubeFlow.UncaughtOrigins` | YouTube/video_downloader.py:148-218 | an exception escapes `main` only from the anonymous download without a sign-in request, or from the fallback download |
| `YouTubeFlow.WarningNeverBlocks` | YouTube/video_downloader.py:166-173 | whether the file looks incomplete changes neither the downloads nor the outcome |
| `YouTubeFlow.EnvCookieFileWins` | YouTube/video_downloader.py:43-44 | a `YT_COOKIES_FILE` that names an existing file after stripping and expansion is the credential, whatever browser is set |
| `YouTubeFlow.UnconfiguredSignInExits` | YouTube/video_downloader.py:158-182 | with no cookie variable set, a sign-in request ends the run with exit status 2 after one download |
| `YouTubeFlow.LoginRequiredIsSignIn` | YouTube/video_downloader.py:118-155 | a DownloadError holding "login required" on the first download, or a PermissionError raised by yt-dlp itself, is a sign-in request |
| `InstagramCookies.Skipped` | Instagram/get_profile_by_userid.py:19 | the lines passed over before parsing: blank after stripping, starting with `#`, or `wd` once stripped |
| `InstagramCookies.SkippedExactly` | Instagram/get_profile_by_userid.py:19 | a line is skipped exactly when it is all whitespace, starts with `#`, or strips to `wd` |
| `InstagramCookies.ParseLine` | Instagram/get_profile_by_userid.py:17-38 | a line defines a cookie only if it is not skipped, and the cookie's value is ASCII; a line with neither a tab nor `=` defines nothing |
| `InstagramCookies.Load` | Instagram/get_profile_by_userid.py:14-39 | every value in the dictionary is ASCII |
| `InstagramCookies.LoadCookiesFromTxt` | Instagram/get_profile_by_userid.py:9-39 | the loop yields exactly `Load` of the lines, with ASCII values only |
| `InstagramCookies.TabRecord` | Instagram/get_profile_by_userid.py:22-30 | a tab line with at least seven fields maps field 5 to the filtered field 6; with fewer it defines nothing, even when it holds `=` |
| `InstagramCookies.KeyValueRecord` | Instagram/get_profile_by_userid.py:31-35 | a tab-free line maps the text before the first `=` of the stripped line to the filtered rest |
| `InstagramCookies.KeyValueLineNeverRaises` | Instagram/get_profile_by_userid.py:31-38 | the `split('=', 1)` unpacking never raises: every tab-free, non-skipped line holding `=` defines a cookie |
| `InstagramCookies.RejectedLineAddsNothing` | Instagram/get_profile_by_userid.py:19-38 | a skipped, short or key-less line leaves the dictionary unchanged |
| `InstagramCookies.LoadKeys` | Instagram/get_profile_by_userid.py:14-39 | the keys are exactly the names some line defines |
| `InstagramCookies.LoadSetsLine` | Instagram/get_profile_by_userid.py:30 | a defining line sets its cookie in the dictionary built up to and including it |
| `InstagramCookies.LoadUnaffectedAfter` | Instagram/get_profile_by_userid.py:17-38 | lines after an index that do not define a name leave its entry as the earlier lines left it |
| `InstagramCookies.LoadLastWins` | Instagram/get_profile_by_userid.py:30-35 | the value stored for a name is the one from the last line defining it |

## Behaviour worth knowing

- **Which errors reach the user.** An error of the anonymous download other than a sign-in request is not caught by `main`. Neither is any error of the fallback download. `try_download` re-raises instead of returning False, so these escape as exceptions (`Uncaught`), not as a failure message.
- **What the fallback uses.** The fallback is tried only when a usable cookie file exists. Such a file is always chosen first, so the fallback repeats the authenticated download with the same options (`FallbackRepeatsSecondAttempt`). The browser-store markers are looked for only when a browser is configured, even if the cookie file was used.
- **What the URL check tests.** It is only a prefix test (`ValidUrlShape`).
- **How markers are matched.** Marker matching is case-sensitive. The locked-database text is looked for before the DPAPI text.
- **The docstring's claim.** The docstring of `get_cookies_from_env` says only one source is returned. Both can be (`BothSourcesCanBeReturned`).

## Left out

- yt-dlp itself is not modelled. Each download is an input function of the attempt number and the options. The URL passed to it is the same on every attempt and is not a parameter.
- Printing is not modelled: the progress messages, the warning text, the guidance texts and `print_auth_help`. The guidance is modelled as which of the three texts is printed, and the warning as a flag.
- `load_dotenv` and `os.getenv` are not modelled. The environment is the three optional strings as they read after `.env` is loaded. Loading `.env` only after the first download is not observable in the model.
- `os.path.expanduser`, `os.path.expandvars`, `os.path.isfile`, `os.path.expanduser("~")` and file reading are inputs. So the filesystem is assumed not to change during a run.
- The decoding of the cookie files is not modelled. `errors='ignore'` for the YouTube file and strict UTF-8 for the Instagram file are both left out. The lines are already-decoded strings, and a decoding error of the Instagram file is not modelled.
- `KeyboardInterrupt`, `SystemExit` and other `BaseException` subclasses are not modelled. `sys.exit` is the `Exit` outcome, and its status is `ExitStatus`.
- `get_instagram_profile` and the rest of Instagram/get_profile_by_userid.py are not part of this model. They send HTTP requests.
- X/collect_tweets.py is not part of this model.
- `YouTubeDownloader.PathJoin`: models the POSIX `os.path.join` only, not the Windows drive and backslash rules.
- `Text.ToLower`: lower-cases only the ASCII letters A to Z. Python's `str.lower()` also maps other Unicode letters.
- `Text.Strip`: `IsSpace` lists Python's whitespace characters, but the model does not tie them to the Unicode database.
- `InstagramCookies.LoadCookiesFromTxt`: starts from the list `f.readlines()` returns. Opening the file and its errors are outside the loop and are not modelled. The "Skipping line" message is not modelled either. The only statement in the loop that could raise is the `split('=', 1)` unpacking, and it never does (`KeyValueLineNeverRaises`). The other statements cannot raise on a `str`.
