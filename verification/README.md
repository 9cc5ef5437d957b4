# Zeabur keep-alive, modelled in Dafny

`scripts/keep_alive.py` keeps a Zeabur account active. It logs into the Zeabur
dashboard in a headless browser and takes a screenshot. It writes the browser's
fresh session cookies back into the `ZEABUR_COOKIE` repository secret, then
reports to a Telegram chat. This project models two parts of that script and
proves what they guarantee.

1. **The cookie codec.**
   - `parse_cookies` turns a header-style `name=value; name=value` string into
     browser cookies scoped to `.zeabur.com` and `/`.
   - `format_cookies` turns the browser's jar back into such a string. It keeps
     only the cookies whose domain contains `zeabur.com`.
   - `parse_cookies` is a loop that appends to a list, so it is modelled as a
     method with loop invariants. Its specification is the function
     `Cookies.Parsed`. `format_cookies` is a pure function.
   - The Python string operations they use are modelled in `Text`: `strip()`
     with Python's whitespace set, `split(';')`, `split('=', 1)`, `'; '.join` and
     the substring test `in`.
2. **One run of `main`.**
   - The run fails fast without credentials.
   - It tries the cookie login first, then the magic link as the fallback.
   - It checks for success with `'/login' not in page.url`.
   - It takes the screenshot and reads the cookie jar.
   - It decides whether to rotate the secret, builds the log lines with the
     cookie preview, and sends the Telegram report.
   - Its top-level exception handler and `finally` close the browser.

The browser, the secret store and the bot are not modelled.

- What each outside call would do is an input, a `World` value:
  - the outcome of each login attempt (a raised setup call, or the final URL
    or an exception on navigation);
  - whether the screenshot raises;
  - the cookie jar, or an exception;
  - whether the secret update raises.
- What the run asks of the outside world is recorded, in order, as a trace of
  `Event`s.

`KeepAlive.Run` is the imperative model of `main`. It is proved to return
`KeepAlive.Outcome(env, world)`, a function built from the same steps, one
function per "rest of `main` after step X". It is also proved that no two
pages are ever open at once (pages are counted with multiplicity, so the
same login function opening a second page would count too) and that none
is left open. The lemmas in
`RunFacts` state the run's properties about `Outcome`.

Files:

- `wrappers.dfy`: `Option`.
- `text.dfy`: the Python `str` operations.
- `cookies.dfy`: the codec and its round trip.
- `keep_alive.dfy`: the configuration, the oracle, the trace, the two login
  functions and `main`.
- `run_facts.dfy`: the properties of a run.

Where the code and the script's own description disagree, the model follows
the code:

- The module docstring calls the magic link the preferred login, but `main`
  tries the cookie first (`scripts/keep_alive.py:177-189`).
- A failure of `update_github_secret`, or a `GITHUB_REPOSITORY` that does not
  split into exactly two parts at `/`, is not handled locally. It reaches the
  top-level handler, so the run exits with status 1 after the login succeeded
  (`scripts/keep_alive.py:215-216`, `244-249`).
- A rejected credential and a navigation error are not told apart. Both login
  functions turn an exception during navigation into a failed attempt.
- `context.add_cookies` and `new_page` are outside the login functions' own
  `try`. An exception there therefore reaches `main`'s handler, which is
  modelled as `CookieSetupFailed` / `MagicSetupFailed`.
- The `sys.exit(1)` after all logins failed raises `SystemExit`. That is not an
  `Exception`, so the handler does not report it a second time. Only the
  "all failed" message is sent before the browser is closed.

## Model

| member | source | states |
|---|---|---|
| Text.Strip | scripts/keep_alive.py:88 | `strip()`: neither end of the result is whitespace (Python's `isspace` set), and it is no longer than the input; `StripTrims` states which stretch of the input it is |
| Text.StripTrims | scripts/keep_alive.py:88 | `strip()` returns a contiguous stretch `s[i..j]` of its input, with only whitespace before `i` and after `j` |
| Text.StripSameChar | scripts/keep_alive.py:88 | a non-whitespace character occurs in the stripped string exactly when it occurs in the original |
| Text.StripSkips | scripts/keep_alive.py:88 | leading whitespace does not change what `strip()` returns |
| Text.StripStripped | scripts/keep_alive.py:90-91 | stripping a string with no whitespace at either end gives it back unchanged |
| Text.Split | scripts/keep_alive.py:87 | `split(';')` yields at least one piece, and no piece contains the separator |
| Text.JoinSplit | scripts/keep_alive.py:87 | joining the pieces of a split with the separator gives back the original string: splitting loses nothing |
| Text.SplitNone | scripts/keep_alive.py:87 | a string without the separator splits into itself alone |
| Text.SplitAt | scripts/keep_alive.py:87 | a string cut at a first separator splits into the head, then the pieces of the rest |
| Text.Join | scripts/keep_alive.py:101 | `sep.join(parts)`: the parts with the separator between each two; `JoinSplit` is its partner |
| Text.Contains | scripts/keep_alive.py:101 | Python's substring test `needle in hay`, defined by trying each start position in turn |
| Text.ContainsAt | scripts/keep_alive.py:101 | `needle in hay` holds exactly when `needle` occurs at some position of `hay` |
| Text.IndexOf | scripts/keep_alive.py:88 | the position of the first occurrence of a character, or the length when it is absent |
| Text.SplitOnce | scripts/keep_alive.py:88 | `split('=', 1)`: one piece when there is no `=`, otherwise the text before the FIRST `=` and everything after it, which put back together with `=` give the input |
| Text.SplitOnceAt | scripts/keep_alive.py:88 | splitting `a + "=" + b` once, with no `=` in `a`, gives exactly `[a, b]` |
| Cookies.ParseSegment | scripts/keep_alive.py:88-95 | a segment gives a cookie exactly when it contains `=`; that cookie is scoped to `.zeabur.com` and `/`, and is well formed (trimmed name and value, no `;`, no `=` in the name) |
| Cookies.CutAtFirstEquals | scripts/keep_alive.py:88-92 | a segment with several `=` is cut at the first one: the name is the trimmed text before it, the value the trimmed text after it, later `=` included |
| Cookies.ParsedSegments | scripts/keep_alive.py:86-95 | no more cookies than segments, every one scoped to `.zeabur.com` and `/`, and well formed when no segment holds `;` |
| Cookies.Parsed | scripts/keep_alive.py:84-96 | `parse_cookies`: no more cookies than `;`-separated segments, and every cookie is scoped to `.zeabur.com` and `/` and well formed |
| Cookies.ParsedSegmentsConcat | scripts/keep_alive.py:86-95 | parsing two runs of segments gives the two results one after the other: the loop's step |
| Cookies.ParseCookies | scripts/keep_alive.py:84-96 | the loop over the segments returns exactly `Parsed(cookieString)` |
| Cookies.Kept | scripts/keep_alive.py:101 | a cookie is kept exactly when it is in the jar and its domain contains `zeabur.com` |
| Cookies.KeptConcat | scripts/keep_alive.py:101 | the filter keeps input order: filtering a concatenation is concatenating the filtered parts |
| Cookies.OnSite | scripts/keep_alive.py:101 | the filter of `format_cookies`: the cookie's domain contains `zeabur.com` |
| Cookies.Entries | scripts/keep_alive.py:101 | one entry per cookie, in order: entry `k` is the name of cookie `k`, `=`, and its value |
| Cookies.JoinEntriesEmpty | scripts/keep_alive.py:101 | the `"; "`-joined entries are empty exactly when there are no entries |
| Cookies.FormatCookies | scripts/keep_alive.py:99-101 | `format_cookies` returns `""` exactly when no cookie of the jar is on the Zeabur domain |
| Cookies.Tagged | scripts/keep_alive.py:91-94 | cookie `k` of the result has the name and value of input cookie `k`, domain `.zeabur.com` and path `/`; the number of cookies is kept |
| Cookies.EntryParses | scripts/keep_alive.py:88-95 | a well-formed `name=value` entry, behind any whitespace, parses back to its cookie, re-scoped |
| Cookies.ParseJoined | scripts/keep_alive.py:84-101 | parsing the `"; "`-joined entries of well-formed cookies gives back exactly those cookies, re-scoped, in order |
| Cookies.FormatThenParse | scripts/keep_alive.py:84-101 | for a jar whose on-site cookies are well formed (trimmed name and value, no `;` in either, no `=` in the name), `parse_cookies(format_cookies(jar))` is exactly the on-site cookies of the jar, in order, re-scoped; a jar cookie named `" a"` or with `;` in its value does not come back |
| Cookies.DomainOnSite | scripts/keep_alive.py:91-101 | `.zeabur.com`, the domain `parse_cookies` assigns, passes the `zeabur.com` filter of `format_cookies` |
| Cookies.KeptAll | scripts/keep_alive.py:101 | a jar of on-site cookies is kept whole |
| Cookies.TaggedFixed | scripts/keep_alive.py:91-94 | cookies already scoped to `.zeabur.com` and `/` are unchanged by re-scoping |
| Cookies.RoundTrip | scripts/keep_alive.py:84-101 | `parse_cookies(format_cookies(parse_cookies(s))) == parse_cookies(s)` for every string `s` |
| KeepAlive.Preview | scripts/keep_alive.py:219 | the preview of the new cookie string is its first 20 characters, `...`, and its last 10 (fewer when it is shorter) |
| KeepAlive.PreviewIgnoresMiddle | scripts/keep_alive.py:219 | two cookie strings of 30 or more characters that agree on their first 20 and last 10 characters have the same preview |
| KeepAlive.PreviewShowsShortValue | scripts/keep_alive.py:219 | a cookie string of at most 30 characters can be read back whole from its preview |
| KeepAlive.Authenticated | scripts/keep_alive.py:142 | the success test of both login functions: the navigation did not raise and `'/login' not in page.url` |
| KeepAlive.AuthenticatedMeans | scripts/keep_alive.py:118 | a navigation counts as logged in exactly when it landed on a URL in which `/login` occurs at no position |
| KeepAlive.LoginWithCookie | scripts/keep_alive.py:132-150 | loads exactly the parsed cookies, then opens a page unless setup raised; the attempt succeeds exactly when navigation did not raise and the final URL does not contain `/login` |
| KeepAlive.LoginWithMagicLink | scripts/keep_alive.py:106-129 | opens a page unless that raised; succeeds exactly when the link's final URL does not contain `/login` and the dashboard navigation after it did not raise |
| KeepAlive.MagicLinkTried | scripts/keep_alive.py:184 | the magic link is tried when it is set and no cookie login succeeded: no cookie string, or its page loaded without a login (a raised setup goes to the handler instead) |
| KeepAlive.RotationDue | scripts/keep_alive.py:212-213 | rotation is due when the token and the repository are set, the new cookie string is not empty and differs from the configured one |
| KeepAlive.Rotation | scripts/keep_alive.py:212-220 | when due: split the repository at `/`, write the secret, then report the preview and the rotation; a bad split or a failed update goes to the handler |
| KeepAlive.Outcome | scripts/keep_alive.py:155-252 | the whole run, as a function of the environment and of what the outside world does; the `RunFacts` lemmas are its properties |
| KeepAlive.Run | scripts/keep_alive.py:155-252 | `main` computes `Outcome(env, world)`; at no point of its trace are two pages open, and none is open at the end |
| KeepAlive.GiveUp | scripts/keep_alive.py:191-197 | when every login failed: the "all failed" message if the bot is configured, then the browser is closed, exit 1 |
| KeepAlive.Capture | scripts/keep_alive.py:199-242 | after a login: screenshot, cookie read, rotation when due, report; the result is `AfterLogin` and the page is closed with the browser |
| KeepAlive.Finish | scripts/keep_alive.py:222-242 | a successful run sends the report and then the screenshot if the bot is configured, closes the browser, exits 0 |
| KeepAlive.AbortRun | scripts/keep_alive.py:244-252 | an exception reaching `main`'s handler: the failure message if the bot is configured, then the browser is closed, exit 1 |
| RunFacts.ThenQuiet | scripts/keep_alive.py:176-190 | login events before the rest of a run change nothing the chat receives |
| RunFacts.AbortedEnding | scripts/keep_alive.py:244-252 | the handler's ending closes the browser and sends exactly the failure message when the bot is configured |
| RunFacts.AllFailedEnding | scripts/keep_alive.py:191-197 | the "all failed" ending closes the browser and sends exactly the "all failed" message when the bot is configured |
| RunFacts.FinishedEnding | scripts/keep_alive.py:222-242 | a successful ending closes the browser, sends exactly the report, and sends the screenshot only when the bot is configured |
| RunFacts.RotationFacts | scripts/keep_alive.py:210-220 | rotation writes the new string under `ZEABUR_COOKIE` exactly when it is due and the repository splits in two; the exit status, the "updated" flag and the logs follow |
| RunFacts.AfterLoginFacts | scripts/keep_alive.py:199-242 | everything after a login with a given method: screenshot first, that method recorded, exit status, rotation and logs as the outside world decides |
| RunFacts.FallbackFacts | scripts/keep_alive.py:184-197 | the magic-link fallback starts with its attempt, never retries the cookie, and records the magic link exactly when it works |
| RunFacts.AfterCookieFacts | scripts/keep_alive.py:177-197 | after the cookie attempt: its page is closed right before the magic link is tried, which happens exactly when the cookie page loaded without a login and a link is set |
| RunFacts.Phases | scripts/keep_alive.py:167-252 | a run with credentials is the launch and the cookie attempt, followed by a remainder with all the phase facts above |
| RunFacts.RunFault | scripts/keep_alive.py:176-249 | the exception that reaches the top-level handler, if any: a login setup call, the screenshot, the cookie read, a repository that does not split in two, or the secret update, in the order `main` meets them |
| RunFacts.FailFast | scripts/keep_alive.py:163-165 | with neither a magic link nor a cookie string, the run exits 1 with an empty trace: no browser or network action |
| RunFacts.BrowserFirstAndLast | scripts/keep_alive.py:169-252 | a run with a credential launches the browser first and closes it last |
| RunFacts.CookieBeforeMagicLink | scripts/keep_alive.py:177-189 | the cookie attempt comes right after the launch and loads exactly `parse_cookies(cookie_string)`; the magic link comes right after the cookie page is closed, or right after the launch without a cookie string |
| RunFacts.AttemptsMade | scripts/keep_alive.py:177-189 | the cookie is tried exactly when it is set; the magic link exactly when it is set and the cookie was absent or its page loaded without a login |
| RunFacts.MethodIsWinner | scripts/keep_alive.py:177-189 | `login_method` is `Cookie` exactly when the cookie attempt succeeded, and `Magic Link` exactly when the fallback was tried and succeeded |
| RunFacts.NoLoginNoCapture | scripts/keep_alive.py:191-203 | with no successful login the run exits 1, takes no screenshot, reads no cookies and writes no secret; a login setup that raised records no login; a screenshot is always of the page that logged in |
| RunFacts.ExitStatus | scripts/keep_alive.py:191-249 | the exit status is 0 or 1, and 0 exactly when a login succeeded, the screenshot and the jar read worked and, when rotation was due, the repository split in two and the update went through |
| RunFacts.RotationWhenDue | scripts/keep_alive.py:210-220 | the secret is written exactly when a login succeeded, the jar was read, token, repository and new string are present, the new string differs from the configured one (an unset cookie counts as different) and the repository splits in two; it writes the new string under `ZEABUR_COOKIE` for that owner and name; `cookie_updated` holds exactly when the run succeeded with rotation due |
| RunFacts.ReportLogs | scripts/keep_alive.py:207-220 | the logs of a successful run are the dashboard visit, then, when rotated, the preview of the new string and the rotation notice |
| RunFacts.OneMessage | scripts/keep_alive.py:191-249 | with a credential and a configured bot, the chat gets exactly one message: the report (followed by the screenshot) on success, the "all failed" notice when no login worked without an exception, and `RunFailed(f)` exactly when the fault `f` reached the handler, which happens exactly when a login setup raised or a login succeeded and the run still exits 1; nothing without a bot |

## Left out

- The browser engine is not modelled: launch, new context, navigation, waits,
  `set_default_timeout`, the screenshot file and `context.cookies()`. Each
  appears only as an outcome in `World` and an event in the trace. The launch,
  `new_context`, `page.close()` and `browser.close()` are taken never to
  raise.
- The HTTP calls, the file read and the bool results of
  `send_telegram_message` and `send_telegram_photo` are not modelled. Both
  catch every exception, so a send never changes the run. Sends appear as the
  `SendMessage` and `SendPhoto` events. The "sent / partly failed" print that
  depends on their results is left out.
- `update_github_secret` is not modelled: its GitHub API calls and its
  sealed-box encryption are foreign code. Only the call (`UpdateSecret` with
  owner, repository, name and value) and whether it raises are modelled.
- Environment variables are not read. They are the `Env` input, and an unset
  variable is `None`.
- `datetime.now()`, every `print`, and the wording of the Telegram messages
  are not modelled. The HTML template and the localized log texts appear only
  as the `Report` message, which carries the login method and the log lines.
- `KeepAlive.LoginMethod.Label` gives the strings `Cookie` and `Magic Link`.
  No property is stated about them beyond their definition.
- `format_cookies` reads `c.get('domain', '')`. In the model every jar cookie
  carries a `domain` string, so a cookie without one is a cookie whose domain
  is `""`.
- The exception text in the failure message is not modelled. The model
  records which step raised (`Fault`) instead.
- The cookie preview is modelled as written: a new cookie string of 30
  characters or fewer appears whole in the report
  (`KeepAlive.PreviewShowsShortValue`). Real session cookie strings are far
  longer, so this is recorded rather than corrected.
