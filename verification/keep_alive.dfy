/**
 * One run of the keep-alive script (`main` in scripts/keep_alive.py): fail
 * fast without credentials, log in with the cookie string and fall back to
 * the magic link, capture the dashboard, rotate the stored cookie secret when
 * the browser's cookies changed, and report.
 *
 * The browser, the notification bot and the secret store are not modelled:
 * what each call would return is an input (`World`), and what the run asks
 * of them is recorded, in order, as a trace of `Event`s.
 */
module KeepAlive {
  import opened Wrappers
  import opened Text
  import opened Cookies

  const DASHBOARD_URL := "https://zeabur.com/projects"
  /** A final URL containing this is the login page: the attempt failed. */
  const LOGIN_PATH := "/login"
  /** The repository secret that holds the cookie string. */
  const SECRET_NAME := "ZEABUR_COOKIE"
  const PREVIEW_HEAD := 20
  const PREVIEW_TAIL := 10

  /** The environment variables the run reads; `None` is an unset variable. */
  datatype Env = Env(
    magicLink: Option<string>,
    cookieString: Option<string>,
    repoToken: Option<string>,
    repository: string,          // `GITHUB_REPOSITORY`, default ""
    botToken: Option<string>,
    chatId: Option<string>)

  /** Python truthiness of an environment variable: set and non-empty. */
  predicate IsSet(v: Option<string>)
  {
    v.Some? && v.value != ""
  }

  /** Both bot credentials are present, so the run talks to the chat. */
  predicate Notifies(env: Env)
  {
    IsSet(env.botToken) && IsSet(env.chatId)
  }

  predicate HasCredential(env: Env)
  {
    IsSet(env.magicLink) || IsSet(env.cookieString)
  }

  /** What a navigation (`goto` and the wait after it) ends in. */
  datatype Nav = Landed(url: string) | Raised

  /** The success test of both login functions: no exception, not on the login page. */
  predicate Authenticated(nav: Nav)
  {
    nav.Landed? && !Contains(nav.url, LOGIN_PATH)
  }

  /** A navigation counts as logged in exactly when it landed on a URL with no `/login` anywhere in it. */
  lemma AuthenticatedMeans(nav: Nav)
    ensures Authenticated(nav) <==> nav.Landed? && forall k :: !OccursAt(nav.url, LOGIN_PATH, k)
  {
    if nav.Landed? {
      ContainsAt(nav.url, LOGIN_PATH);
    }
  }

  /**
   * The cookie attempt: `add_cookies` or `new_page` raised (outside the
   * attempt's own handler), or the page navigated to the dashboard.
   */
  datatype CookieProbe = CookieSetupRaised | CookiePageLoaded(landing: Nav)

  /**
   * The magic-link attempt: `new_page` raised, or the page followed the link
   * (`landing`) and, if that left the login page, went on to the dashboard.
   */
  datatype MagicProbe = MagicSetupRaised | MagicPageLoaded(landing: Nav, dashboard: Nav)

  /** What every external call of a run would do. */
  datatype World = World(
    cookieProbe: CookieProbe,
    magicProbe: MagicProbe,
    screenshotRaises: bool,
    jar: Option<seq<Cookie>>,    // `context.cookies()`; `None` when it raises
    secretUpdateRaises: bool)

  datatype LoginMethod = ViaCookie | ViaMagicLink
  {
    /** The `login_method` string shown in the report. */
    function Label(): string
    {
      match this
      case ViaCookie => "Cookie"
      case ViaMagicLink => "Magic Link"
    }
  }

  /** The outcome of one login function: it raised, or it returned `(page, ok)`. */
  datatype Attempt = SetupRaised | PageReady(success: bool)

  /** The report's log lines. */
  datatype LogLine = VisitedDashboard(url: string) | NewCookie(preview: string) | CookieSecretUpdated

  /** What reached the top-level exception handler. */
  datatype Fault = CookieSetupFailed | MagicSetupFailed | ScreenshotFailed | CookieReadFailed
                 | BadRepository | SecretUpdateFailed

  datatype Message = AllLoginsFailed | RunFailed(fault: Fault) | Report(via: LoginMethod, logs: seq<LogLine>)

  datatype Event =
    | Launch
    | TryLogin(via: LoginMethod)
    | AddCookies(cookies: seq<Cookie>)
    | OpenPage(page: LoginMethod)
    | ClosePage(page: LoginMethod)
    | Screenshot(page: LoginMethod)
    | ReadCookies
    | UpdateSecret(owner: string, repo: string, name: string, value: string)
    | SendMessage(message: Message)
    | SendPhoto
    | CloseBrowser

  datatype RunResult = RunResult(
    exitCode: int,
    via: Option<LoginMethod>,
    logs: seq<LogLine>,
    cookieUpdated: bool,
    trace: seq<Event>)

  // ---------------------------------------------------------------- traces

  /** The pages a trace has opened and not yet closed, counted with multiplicity. */
  function OpenPages(t: seq<Event>): multiset<LoginMethod>
    decreases |t|
  {
    if t == [] then multiset{} else PageStep(OpenPages(t[..|t| - 1]), t[|t| - 1])
  }

  function PageStep(open: multiset<LoginMethod>, e: Event): multiset<LoginMethod>
  {
    match e
    case OpenPage(m) => open + multiset{m}
    case ClosePage(m) => open - multiset{m}
    case CloseBrowser => multiset{}
    case _ => open
  }

  /** At no point of the trace are two pages open at once. */
  predicate PagesNeverOverlap(t: seq<Event>)
    decreases |t|
  {
    |OpenPages(t)| <= 1 && (t == [] || PagesNeverOverlap(t[..|t| - 1]))
  }

  /** The chat messages a trace sends, in order. */
  function Messages(t: seq<Event>): seq<Message>
    decreases |t|
  {
    if t == [] then []
    else Messages(t[..|t| - 1]) + (if t[|t| - 1].SendMessage? then [t[|t| - 1].message] else [])
  }

  lemma EmptyTrace()
    ensures OpenPages([]) == multiset{} && Messages([]) == [] && PagesNeverOverlap([])
  {
  }

  /** How appending one event moves each view of the trace. */
  lemma Appended(t: seq<Event>, e: Event)
    ensures OpenPages(t + [e]) == PageStep(OpenPages(t), e)
    ensures Messages(t + [e]) == Messages(t) + (if e.SendMessage? then [e.message] else [])
    ensures PagesNeverOverlap(t + [e]) <==> PagesNeverOverlap(t) && |OpenPages(t + [e])| <= 1
    ensures PagesNeverOverlap(t) ==> |OpenPages(t)| <= 1
  {
    assert (t + [e])[..|t|] == t;
  }

  // ----------------------------------------------------------- the preview

  function Min(a: int, b: int): int
  {
    if a < b then a else b
  }

  /**
   * The preview of a new cookie string in the report: Python's
   * `s[:20] + '...' + s[-10:]`.
   */
  function Preview(s: string): (p: string)
    ensures |p| == Min(PREVIEW_HEAD, |s|) + 3 + Min(PREVIEW_TAIL, |s|)
    ensures p[..Min(PREVIEW_HEAD, |s|)] == s[..Min(PREVIEW_HEAD, |s|)]
    ensures p[Min(PREVIEW_HEAD, |s|)..Min(PREVIEW_HEAD, |s|) + 3] == "..."
    ensures p[|p| - Min(PREVIEW_TAIL, |s|)..] == s[|s| - Min(PREVIEW_TAIL, |s|)..]
  {
    s[..Min(PREVIEW_HEAD, |s|)] + "..." + s[|s| - Min(PREVIEW_TAIL, |s|)..]
  }

  /** Strings that agree on their first 20 and last 10 characters share a preview. */
  lemma PreviewIgnoresMiddle(s: string, t: string)
    requires |s| >= PREVIEW_HEAD + PREVIEW_TAIL && |t| >= PREVIEW_HEAD + PREVIEW_TAIL
    requires s[..PREVIEW_HEAD] == t[..PREVIEW_HEAD]
    requires s[|s| - PREVIEW_TAIL..] == t[|t| - PREVIEW_TAIL..]
    ensures Preview(s) == Preview(t)
  {
  }

  /** A string of at most 30 characters can be read back whole from its preview. */
  lemma PreviewShowsShortValue(s: string)
    requires |s| <= PREVIEW_HEAD + PREVIEW_TAIL
    ensures var p := Preview(s);
            var head := Min(PREVIEW_HEAD, |s|);
            s == p[..head] + p[|p| - (|s| - head)..]
  {
    var p := Preview(s);
    var head := Min(PREVIEW_HEAD, |s|);
    var tail := Min(PREVIEW_TAIL, |s|);
    assert p[..head] == s[..head];
    assert p[|p| - tail..] == s[|s| - tail..];
    assert p[|p| - (|s| - head)..] == s[head..];
    assert s == s[..head] + s[head..];
  }

  // -------------------------------------------------------- login attempts

  /**
   * `login_with_cookie`: load the parsed cookies into the context, open a
   * page on the dashboard, and report success unless navigation raised or
   * ended on the login page.
   */
  method LoginWithCookie(cookieString: string, probe: CookieProbe, trace: seq<Event>)
    returns (after: seq<Event>, attempt: Attempt)
    requires PagesNeverOverlap(trace) && OpenPages(trace) == multiset{}
    ensures after == trace + CookieAttempt(cookieString, probe)
    ensures PagesNeverOverlap(after) && Messages(after) == Messages(trace)
    ensures OpenPages(after) == if probe.CookiePageLoaded? then multiset{ViaCookie} else multiset{}
    ensures attempt.PageReady? <==> probe.CookiePageLoaded?
    ensures attempt.PageReady? ==> (attempt.success <==> Authenticated(probe.landing))
  {
    hide Parsed, OpenPages, PagesNeverOverlap, Messages;
    Appended(trace, TryLogin(ViaCookie));
    after := trace + [TryLogin(ViaCookie)];
    var cookies := ParseCookies(cookieString);
    Appended(after, AddCookies(cookies));
    after := after + [AddCookies(cookies)];
    match probe
    case CookieSetupRaised =>
      attempt := SetupRaised;
    case CookiePageLoaded(landing) =>
      Appended(after, OpenPage(ViaCookie));
      after := after + [OpenPage(ViaCookie)];
      match landing
      case Raised =>
        attempt := PageReady(false);
      case Landed(url) =>
        attempt := PageReady(!Contains(url, LOGIN_PATH));
  }

  /**
   * `login_with_magic_link`: open a page on the link; if that leaves the
   * login page, go on to the dashboard. Any exception on the way is a
   * failed attempt.
   */
  method LoginWithMagicLink(probe: MagicProbe, trace: seq<Event>) returns (after: seq<Event>, attempt: Attempt)
    requires PagesNeverOverlap(trace) && OpenPages(trace) == multiset{}
    ensures after == trace + MagicAttempt(probe)
    ensures PagesNeverOverlap(after) && Messages(after) == Messages(trace)
    ensures OpenPages(after) == if probe.MagicPageLoaded? then multiset{ViaMagicLink} else multiset{}
    ensures attempt.PageReady? <==> probe.MagicPageLoaded?
    ensures attempt.PageReady? ==>
              (attempt.success <==> Authenticated(probe.landing) && probe.dashboard.Landed?)
  {
    hide OpenPages, PagesNeverOverlap, Messages;
    Appended(trace, TryLogin(ViaMagicLink));
    after := trace + [TryLogin(ViaMagicLink)];
    match probe
    case MagicSetupRaised =>
      attempt := SetupRaised;
    case MagicPageLoaded(landing, dashboard) =>
      Appended(after, OpenPage(ViaMagicLink));
      after := after + [OpenPage(ViaMagicLink)];
      match landing
      case Raised =>
        attempt := PageReady(false);
      case Landed(url) =>
        if Contains(url, LOGIN_PATH) {
          attempt := PageReady(false);
        } else {
          attempt := PageReady(dashboard.Landed?);
        }
  }

  // --------------------------------------------------------------- the run

  /** The events of `login_with_cookie`, as `LoginWithCookie` records them. */
  function CookieAttempt(cookieString: string, probe: CookieProbe): seq<Event>
  {
    [TryLogin(ViaCookie), AddCookies(Parsed(cookieString))]
    + (if probe.CookiePageLoaded? then [OpenPage(ViaCookie)] else [])
  }

  /** The events of `login_with_magic_link`, as `LoginWithMagicLink` records them. */
  function MagicAttempt(probe: MagicProbe): seq<Event>
  {
    [TryLogin(ViaMagicLink)] + (if probe.MagicPageLoaded? then [OpenPage(ViaMagicLink)] else [])
  }

  predicate CookieLoginWorks(world: World)
  {
    world.cookieProbe.CookiePageLoaded? && Authenticated(world.cookieProbe.landing)
  }

  /** The magic link is tried: it is set, and there was no cookie or the cookie page failed. */
  predicate MagicLinkTried(env: Env, world: World)
  {
    IsSet(env.magicLink)
    && (!IsSet(env.cookieString) || (world.cookieProbe.CookiePageLoaded? && !CookieLoginWorks(world)))
  }

  predicate MagicLinkWorks(world: World)
  {
    world.magicProbe.MagicPageLoaded? && Authenticated(world.magicProbe.landing)
    && world.magicProbe.dashboard.Landed?
  }

  /** A login function raised: the run goes to the top-level handler. */
  predicate SetupFailed(env: Env, world: World)
  {
    (IsSet(env.cookieString) && world.cookieProbe.CookieSetupRaised?)
    || (MagicLinkTried(env, world) && world.magicProbe.MagicSetupRaised?)
  }

  /** Whether the new cookie string is written back to the repository secret. */
  predicate RotationDue(env: Env, newCookieString: string)
  {
    IsSet(env.repoToken) && env.repository != "" && newCookieString != ""
    && env.cookieString != Some(newCookieString)
  }

  /** The events `t` happen, then the rest of the run, `r`. */
  function Then(t: seq<Event>, r: RunResult): RunResult
  {
    r.(trace := t + r.trace)
  }

  /** The top-level `except` and the `finally`: report the fault, close the browser, exit 1. */
  function Aborted(env: Env, fault: Fault, via: Option<LoginMethod>): RunResult
  {
    RunResult(1, via, [], false,
              (if Notifies(env) then [SendMessage(RunFailed(fault))] else []) + [CloseBrowser])
  }

  /** No attempt succeeded: tell the chat, close the browser, exit 1. */
  function AllFailed(env: Env): RunResult
  {
    RunResult(1, None, [], false,
              (if Notifies(env) then [SendMessage(AllLoginsFailed)] else []) + [CloseBrowser])
  }

  /** A successful run: send the report and the screenshot, close the browser, exit 0. */
  function Finished(env: Env, via: LoginMethod, logs: seq<LogLine>, updated: bool): RunResult
  {
    RunResult(0, Some(via), logs, updated,
              (if Notifies(env) then [SendMessage(Report(via, logs)), SendPhoto] else []) + [CloseBrowser])
  }

  /** The rest of `main` after a login succeeded with `via`: first the screenshot. */
  function AfterLogin(env: Env, world: World, via: LoginMethod): RunResult
  {
    Then([Screenshot(via)], AfterScreenshot(env, world, via))
  }

  /** After the screenshot: read the browser's cookies, unless the screenshot raised. */
  function AfterScreenshot(env: Env, world: World, via: LoginMethod): RunResult
  {
    if world.screenshotRaises then Aborted(env, ScreenshotFailed, Some(via))
    else Then([ReadCookies], AfterCookieRead(env, world, via))
  }

  /** After the cookie read: format the jar and decide on rotation, unless the read raised. */
  function AfterCookieRead(env: Env, world: World, via: LoginMethod): RunResult
  {
    if world.jar.None? then Aborted(env, CookieReadFailed, Some(via))
    else Rotation(env, world, via, FormatCookies(world.jar.value))
  }

  /**
   * The rotation of the secret to the new cookie string `jarString` when it
   * is due; a repository that does not split into owner and name raises.
   */
  function Rotation(env: Env, world: World, via: LoginMethod, jarString: string): RunResult
  {
    if !RotationDue(env, jarString) then Finished(env, via, [VisitedDashboard(DASHBOARD_URL)], false)
    else
      var parts := Split(env.repository, '/');
      if |parts| != 2 then Aborted(env, BadRepository, Some(via))
      else Then([UpdateSecret(parts[0], parts[1], SECRET_NAME, jarString)], AfterUpdate(env, world, via, jarString))
  }

  /** After the secret update: report the rotation, unless the update raised. */
  function AfterUpdate(env: Env, world: World, via: LoginMethod, jarString: string): RunResult
  {
    if world.secretUpdateRaises then Aborted(env, SecretUpdateFailed, Some(via))
    else Finished(env, via, [VisitedDashboard(DASHBOARD_URL), NewCookie(Preview(jarString)), CookieSecretUpdated], true)
  }

  /** The magic-link attempt and what it leads to. */
  function Fallback(env: Env, world: World): RunResult
  {
    Then(MagicAttempt(world.magicProbe), AfterMagic(env, world))
  }

  /** What the outcome of the magic-link attempt leads to. */
  function AfterMagic(env: Env, world: World): RunResult
  {
    if world.magicProbe.MagicSetupRaised? then Aborted(env, MagicSetupFailed, None)
    else if MagicLinkWorks(world) then AfterLogin(env, world, ViaMagicLink)
    else AllFailed(env)
  }

  /** What the outcome of the cookie attempt leads to: on failure, close its page and fall back. */
  function AfterCookie(env: Env, world: World): RunResult
  {
    if world.cookieProbe.CookieSetupRaised? then Aborted(env, CookieSetupFailed, None)
    else if CookieLoginWorks(world) then AfterLogin(env, world, ViaCookie)
    else if IsSet(env.magicLink) then Then([ClosePage(ViaCookie)], Fallback(env, world))
    else AllFailed(env)
  }

  /** The whole run, as a function of the environment and of what the outside world does. */
  function Outcome(env: Env, world: World): RunResult
  {
    if !HasCredential(env) then RunResult(1, None, [], false, [])
    else if !IsSet(env.cookieString) then Then([Launch], Fallback(env, world))
    else Then([Launch] + CookieAttempt(env.cookieString.value, world.cookieProbe), AfterCookie(env, world))
  }

  lemma ThenThen(a: seq<Event>, b: seq<Event>, r: RunResult)
    ensures Then(a, Then(b, r)) == Then(a + b, r)
  {
    assert a + (b + r.trace) == (a + b) + r.trace;
  }

  /**
   * `main`, from the credential check to the `finally` that closes the
   * browser: the run `Outcome` describes, and on its trace no two pages
   * are ever open at once and none is left open.
   */
  method Run(env: Env, world: World) returns (r: RunResult)
    ensures r == Outcome(env, world)
    ensures HasCredential(env) ==> PagesNeverOverlap(r.trace) && OpenPages(r.trace) == multiset{}
  {
    hide OpenPages, PagesNeverOverlap, Messages, Parsed, Contains, Then, AfterLogin, Aborted, AllFailed;
    if !HasCredential(env) {
      return RunResult(1, None, [], false, []);
    }
    EmptyTrace();
    Appended([], Launch);
    assert [] + [Launch] == [Launch];
    var trace := [Launch];
    var page: Option<LoginMethod> := None;
    var loginSuccess := false;
    var loginMethod: Option<LoginMethod> := None;
    // what the run does after `trace`
    ghost var rest := Fallback(env, world);

    if IsSet(env.cookieString) {
      var attempt;
      trace, attempt := LoginWithCookie(env.cookieString.value, world.cookieProbe, trace);
      rest := AfterCookie(env, world);
      if attempt.SetupRaised? {
        r := AbortRun(env, CookieSetupFailed, None, trace);
        return;
      }
      page := Some(ViaCookie);
      loginSuccess := attempt.success;
      if loginSuccess {
        loginMethod := Some(ViaCookie);
      }
    }
    assert Outcome(env, world) == Then(trace, rest);

    if !loginSuccess && IsSet(env.magicLink) {
      if page.Some? {
        Appended(trace, ClosePage(page.value));
        ThenThen(trace, [ClosePage(ViaCookie)], Fallback(env, world));
        trace := trace + [ClosePage(page.value)];
        rest := Fallback(env, world);
      }
      ThenThen(trace, MagicAttempt(world.magicProbe), AfterMagic(env, world));
      var attempt;
      trace, attempt := LoginWithMagicLink(world.magicProbe, trace);
      rest := AfterMagic(env, world);
      if attempt.SetupRaised? {
        r := AbortRun(env, MagicSetupFailed, None, trace);
        return;
      }
      page := Some(ViaMagicLink);
      loginSuccess := attempt.success;
      if loginSuccess {
        loginMethod := Some(ViaMagicLink);
      }
    }

    if !loginSuccess {
      r := GiveUp(env, trace);
      return;
    }
    r := Capture(env, world, loginMethod.value, trace);
  }

  /** The branch of `main` where every configured login failed: notify, close, exit 1. */
  method GiveUp(env: Env, trace: seq<Event>) returns (r: RunResult)
    requires PagesNeverOverlap(trace)
    ensures r == Then(trace, AllFailed(env))
    ensures PagesNeverOverlap(r.trace) && OpenPages(r.trace) == multiset{}
  {
    hide OpenPages, PagesNeverOverlap, Messages;
    var t := trace;
    if Notifies(env) {
      Appended(t, SendMessage(AllLoginsFailed));
      t := t + [SendMessage(AllLoginsFailed)];
    }
    Appended(t, CloseBrowser);
    r := RunResult(1, None, [], false, t + [CloseBrowser]);
    assert r.trace == trace + ((if Notifies(env) then [SendMessage(AllLoginsFailed)] else []) + [CloseBrowser]);
  }

  /**
   * The rest of `main` after a login succeeded with `via`: screenshot,
   * cookie read and rotation, the report, and the `finally`.
   */
  method Capture(env: Env, world: World, via: LoginMethod, trace: seq<Event>) returns (r: RunResult)
    requires PagesNeverOverlap(trace) && OpenPages(trace) == multiset{via}
    ensures r == Then(trace, AfterLogin(env, world, via))
    ensures PagesNeverOverlap(r.trace) && OpenPages(r.trace) == multiset{}
  {
    hide OpenPages, PagesNeverOverlap, Messages, FormatCookies, Split, Preview, Then, Aborted, Finished;
    var t := trace;
    Appended(t, Screenshot(via));
    ThenThen(t, [Screenshot(via)], AfterScreenshot(env, world, via));
    t := t + [Screenshot(via)];
    if world.screenshotRaises {
      r := AbortRun(env, ScreenshotFailed, Some(via), t);
      return;
    }
    var logs := [VisitedDashboard(DASHBOARD_URL)];

    Appended(t, ReadCookies);
    ThenThen(t, [ReadCookies], AfterCookieRead(env, world, via));
    t := t + [ReadCookies];
    if world.jar.None? {
      r := AbortRun(env, CookieReadFailed, Some(via), t);
      return;
    }
    var newCookieString := FormatCookies(world.jar.value);
    var cookieUpdated := false;
    if IsSet(env.repoToken) && env.repository != "" && newCookieString != "" {
      if Some(newCookieString) != env.cookieString {
        var parts := Split(env.repository, '/');
        if |parts| != 2 {
          r := AbortRun(env, BadRepository, Some(via), t);
          return;
        }
        var update := UpdateSecret(parts[0], parts[1], SECRET_NAME, newCookieString);
        Appended(t, update);
        ThenThen(t, [update], AfterUpdate(env, world, via, newCookieString));
        t := t + [update];
        if world.secretUpdateRaises {
          r := AbortRun(env, SecretUpdateFailed, Some(via), t);
          return;
        }
        cookieUpdated := true;
        logs := logs + [NewCookie(Preview(newCookieString)), CookieSecretUpdated];
        assert logs == [VisitedDashboard(DASHBOARD_URL), NewCookie(Preview(newCookieString)), CookieSecretUpdated];
      }
    }
    r := Finish(env, via, logs, cookieUpdated, t);
  }

  /** The end of a successful run: the report and the screenshot go to the chat, the browser closes. */
  method Finish(env: Env, via: LoginMethod, logs: seq<LogLine>, updated: bool, trace: seq<Event>)
    returns (r: RunResult)
    requires PagesNeverOverlap(trace)
    ensures r == Then(trace, Finished(env, via, logs, updated))
    ensures PagesNeverOverlap(r.trace) && OpenPages(r.trace) == multiset{}
  {
    hide OpenPages, PagesNeverOverlap, Messages;
    var t := trace;
    if Notifies(env) {
      var message := SendMessage(Report(via, logs));
      Appended(t, message);
      t := t + [message];
      Appended(t, SendPhoto);
      t := t + [SendPhoto];
    }
    Appended(t, CloseBrowser);
    r := RunResult(0, Some(via), logs, updated, t + [CloseBrowser]);
    assert r.trace == trace + ((if Notifies(env) then [SendMessage(Report(via, logs)), SendPhoto] else []) + [CloseBrowser]);
  }

  /**
   * The top-level `except` of `main`: report the error if the chat is
   * configured, close the browser (`finally`), exit 1.
   */
  method AbortRun(env: Env, fault: Fault, via: Option<LoginMethod>, trace: seq<Event>) returns (r: RunResult)
    requires PagesNeverOverlap(trace)
    ensures r == Then(trace, Aborted(env, fault, via))
    ensures PagesNeverOverlap(r.trace) && OpenPages(r.trace) == multiset{}
  {
    hide OpenPages, PagesNeverOverlap, Messages;
    var t := trace;
    if Notifies(env) {
      Appended(t, SendMessage(RunFailed(fault)));
      t := t + [SendMessage(RunFailed(fault))];
    }
    Appended(t, CloseBrowser);
    r := RunResult(1, via, [], false, t + [CloseBrowser]);
    assert r.trace == trace + ((if Notifies(env) then [SendMessage(RunFailed(fault))] else []) + [CloseBrowser]);
  }
}
