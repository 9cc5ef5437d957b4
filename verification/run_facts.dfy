/**
 * What a run of the keep-alive script guarantees, stated about `Outcome`,
 * the function `KeepAlive.Run` is proved to compute: the fail-fast check,
 * the order of the login attempts, the recorded login method, the exit
 * status, the rotation of the cookie secret, the report and the chat
 * messages.
 */
module RunFacts {
  import opened Wrappers
  import opened Text
  import opened Cookies
  import opened KeepAlive

  // ------------------------------------------------------- shared facts

  /** The browser is closed last. */
  predicate ClosesBrowser(t: seq<Event>)
  {
    |t| >= 1 && t[|t| - 1] == CloseBrowser
  }

  /** Events that send nothing to the chat. */
  predicate Quiet(t: seq<Event>)
  {
    forall e :: e in t ==> !e.SendMessage? && !e.SendPhoto?
  }

  /** Events that start no login attempt. */
  predicate NoAttempt(t: seq<Event>)
  {
    forall e :: e in t ==> !e.TryLogin?
  }

  /**
   * What the chat receives: one message when the bot is configured, the
   * report for a successful run, and the screenshot only then.
   */
  predicate Reported(env: Env, r: RunResult)
  {
    |Messages(r.trace)| == (if Notifies(env) then 1 else 0)
    && (r.exitCode == 0 && Notifies(env) ==> r.via.Some? && Messages(r.trace) == [Report(r.via.value, r.logs)])
    && (SendPhoto in r.trace <==> r.exitCode == 0 && Notifies(env))
  }

  /** The exit status, the recorded login method and the capture steps agree. */
  predicate Consistent(r: RunResult)
  {
    (r.exitCode == 0 || r.exitCode == 1)
    && (r.exitCode == 0 ==> r.via.Some?)
    && (r.via == None ==>
          r.exitCode == 1 && !r.cookieUpdated
          && forall e :: e in r.trace ==> !e.Screenshot? && !e.ReadCookies? && !e.UpdateSecret?)
    && (forall e :: e in r.trace && e.Screenshot? ==> r.via == Some(e.page))
  }

  /** After a login: the exit status, the secret update and the logs follow the outside world. */
  predicate Captured(env: Env, world: World, r: RunResult)
  {
    (r.exitCode == 0 <==>
       !world.screenshotRaises && world.jar.Some?
       && (RotationDue(env, FormatCookies(world.jar.value)) ==>
             |Split(env.repository, '/')| == 2 && !world.secretUpdateRaises))
    && ((exists e :: e in r.trace && e.UpdateSecret?) <==>
          !world.screenshotRaises && world.jar.Some?
          && RotationDue(env, FormatCookies(world.jar.value)) && |Split(env.repository, '/')| == 2)
    && (forall e :: e in r.trace && e.UpdateSecret? ==>
          world.jar.Some? && e.value == FormatCookies(world.jar.value) && e.name == SECRET_NAME
          && e.value != "" && env.cookieString != Some(e.value)
          && [e.owner, e.repo] == Split(env.repository, '/'))
    && (r.cookieUpdated <==>
          r.exitCode == 0 && world.jar.Some? && RotationDue(env, FormatCookies(world.jar.value)))
    && (r.exitCode == 0 ==>
          world.jar.Some?
          && r.logs == [VisitedDashboard(DASHBOARD_URL)]
                       + (if r.cookieUpdated
                          then [NewCookie(Preview(FormatCookies(world.jar.value))), CookieSecretUpdated]
                          else []))
  }

  /**
   * The fault that reaches the top-level handler after a login: the
   * screenshot, the cookie read, a repository that does not split into
   * owner and name, or the secret update, in the order `main` meets them.
   */
  function CaptureFault(env: Env, world: World): Option<Fault>
  {
    if world.screenshotRaises then Some(ScreenshotFailed)
    else if world.jar.None? then Some(CookieReadFailed)
    else if !RotationDue(env, FormatCookies(world.jar.value)) then None
    else if |Split(env.repository, '/')| != 2 then Some(BadRepository)
    else if world.secretUpdateRaises then Some(SecretUpdateFailed)
    else None
  }

  /** The fault that reaches the handler once the magic link is tried. */
  function MagicFault(env: Env, world: World): Option<Fault>
  {
    if world.magicProbe.MagicSetupRaised? then Some(MagicSetupFailed)
    else if MagicLinkWorks(world) then CaptureFault(env, world)
    else None
  }

  /** The fault, if any, that reaches the top-level handler of a run. */
  function RunFault(env: Env, world: World): Option<Fault>
  {
    if IsSet(env.cookieString) && world.cookieProbe.CookieSetupRaised? then Some(CookieSetupFailed)
    else if IsSet(env.cookieString) && CookieLoginWorks(world) then CaptureFault(env, world)
    else if MagicLinkTried(env, world) then MagicFault(env, world)
    else None
  }

  /**
   * A fault makes the run exit 1 and is what the chat is told, when the bot
   * is configured; without one the chat is never told of a failure.
   */
  predicate Handled(env: Env, r: RunResult, fault: Option<Fault>)
  {
    (fault.Some? ==> r.exitCode == 1 && (Notifies(env) ==> Messages(r.trace) == [RunFailed(fault.value)]))
    && (fault.None? ==> forall m :: m in Messages(r.trace) ==> !m.RunFailed?)
  }

  /** The facts every way of ending a run shares. */
  predicate Ending(env: Env, r: RunResult)
  {
    ClosesBrowser(r.trace) && NoAttempt(r.trace) && Reported(env, r) && Consistent(r)
  }

  // ----------------------------------------------------- chat messages

  lemma {:induction false} MessagesConcat(a: seq<Event>, b: seq<Event>)
    ensures Messages(a + b) == Messages(a) + Messages(b)
    decreases |b|
  {
    EmptyTrace();
    if b == [] {
      assert a + b == a;
    } else {
      var front := b[..|b| - 1];
      var e := b[|b| - 1];
      assert b == front + [e];
      assert a + b == (a + front) + [e];
      Appended(a + front, e);
      Appended(front, e);
      MessagesConcat(a, front);
    }
  }

  lemma {:induction false} QuietMessages(t: seq<Event>)
    requires Quiet(t)
    ensures Messages(t) == []
    decreases |t|
  {
    EmptyTrace();
    if t != [] {
      var front := t[..|t| - 1];
      assert t == front + [t[|t| - 1]];
      assert forall e :: e in front ==> e in t;
      Appended(front, t[|t| - 1]);
      QuietMessages(front);
    }
  }

  /** The message, if any, of a single event. */
  lemma SingleMessage(e: Event)
    ensures Messages([e]) == if e.SendMessage? then [e.message] else []
  {
    EmptyTrace();
    Appended([], e);
    assert [] + [e] == [e];
  }

  /** Events that send nothing, put in front of a run, change nothing the chat sees. */
  lemma ThenQuiet(env: Env, t: seq<Event>, r: RunResult)
    requires Quiet(t)
    ensures Messages(Then(t, r).trace) == Messages(r.trace)
    ensures Reported(env, r) ==> Reported(env, Then(t, r))
    ensures ClosesBrowser(r.trace) ==> ClosesBrowser(Then(t, r).trace)
  {
    QuietMessages(t);
    MessagesConcat(t, r.trace);
  }

  // ------------------------------------------------------------ endings

  /** The messages of an ending: an optional first event, then the browser closes. */
  lemma EndingMessages(first: seq<Event>)
    requires |first| <= 1
    ensures Messages(first + [CloseBrowser]) == if first != [] && first[0].SendMessage? then [first[0].message] else []
  {
    EmptyTrace();
    if first != [] {
      SingleMessage(first[0]);
      assert [first[0]] == first;
    } else {
      assert first + [CloseBrowser] == [] + [CloseBrowser];
    }
    Appended(first, CloseBrowser);
  }

  lemma AbortedEnding(env: Env, fault: Fault, via: Option<LoginMethod>)
    ensures Ending(env, Aborted(env, fault, via))
    ensures Messages(Aborted(env, fault, via).trace) == if Notifies(env) then [RunFailed(fault)] else []
  {
    hide Messages;
    EndingMessages(if Notifies(env) then [SendMessage(RunFailed(fault))] else []);
  }

  lemma AllFailedEnding(env: Env)
    ensures Ending(env, AllFailed(env))
    ensures Messages(AllFailed(env).trace) == if Notifies(env) then [AllLoginsFailed] else []
  {
    hide Messages;
    EndingMessages(if Notifies(env) then [SendMessage(AllLoginsFailed)] else []);
  }

  lemma FinishedEnding(env: Env, via: LoginMethod, logs: seq<LogLine>, updated: bool)
    ensures Ending(env, Finished(env, via, logs, updated))
  {
    hide Messages;
    var r := Finished(env, via, logs, updated);
    if Notifies(env) {
      var e := SendMessage(Report(via, logs));
      SingleMessage(e);
      Appended([e], SendPhoto);
      Appended([e, SendPhoto], CloseBrowser);
      assert [e] + [SendPhoto] == [e, SendPhoto];
      assert r.trace == [e, SendPhoto] + [CloseBrowser];
      assert Messages(r.trace) == [Report(via, logs)];
    } else {
      EndingMessages([]);
      assert r.trace == [] + [CloseBrowser];
      assert Messages(r.trace) == [];
    }
  }

  // ------------------------------------------------------------- phases

  /** The rotation step, once the jar has been read and formatted. */
  lemma RotationFacts(env: Env, world: World, via: LoginMethod)
    requires !world.screenshotRaises && world.jar.Some?
    ensures var r := Rotation(env, world, via, FormatCookies(world.jar.value));
            Ending(env, r) && r.via == Some(via) && Captured(env, world, r)
            && Handled(env, r, CaptureFault(env, world))
  {
    hide Parsed, FormatCookies, Split, Preview, Contains, Messages;
    var jarString := FormatCookies(world.jar.value);
    var r := Rotation(env, world, via, jarString);
    var logs := [VisitedDashboard(DASHBOARD_URL)];
    if !RotationDue(env, jarString) {
      FinishedEnding(env, via, logs, false);
      assert Ending(env, r) && r.via == Some(via) && Captured(env, world, r);
      assert Handled(env, r, CaptureFault(env, world));
    } else {
      var parts := Split(env.repository, '/');
      if |parts| != 2 {
        AbortedEnding(env, BadRepository, Some(via));
        assert Ending(env, r) && r.via == Some(via) && Captured(env, world, r);
        assert Handled(env, r, CaptureFault(env, world));
      } else {
        var update := UpdateSecret(parts[0], parts[1], SECRET_NAME, jarString);
        assert [update.owner, update.repo] == parts;
        if world.secretUpdateRaises {
          AbortedEnding(env, SecretUpdateFailed, Some(via));
          ThenQuiet(env, [update], Aborted(env, SecretUpdateFailed, Some(via)));
          assert update in r.trace;
          assert Ending(env, r) && r.via == Some(via) && Captured(env, world, r);
          assert Handled(env, r, CaptureFault(env, world));
        } else {
          var logs' := logs + [NewCookie(Preview(jarString)), CookieSecretUpdated];
          assert logs' == [VisitedDashboard(DASHBOARD_URL), NewCookie(Preview(jarString)), CookieSecretUpdated];
          FinishedEnding(env, via, logs', true);
          ThenQuiet(env, [update], Finished(env, via, logs', true));
          assert update in r.trace;
          assert Ending(env, r) && r.via == Some(via) && Captured(env, world, r);
          assert Handled(env, r, CaptureFault(env, world));
        }
      }
    }
  }

  /** Everything after a login that succeeded with `via`. */
  lemma AfterLoginFacts(env: Env, world: World, via: LoginMethod)
    ensures var r := AfterLogin(env, world, via);
            Ending(env, r) && r.via == Some(via) && Captured(env, world, r) && r.trace[0] == Screenshot(via)
            && Handled(env, r, CaptureFault(env, world))
  {
    hide Parsed, FormatCookies, Split, Preview, Contains, Messages, Rotation;
    var r := AfterLogin(env, world, via);
    var rest := AfterScreenshot(env, world, via);
    if world.screenshotRaises {
      AbortedEnding(env, ScreenshotFailed, Some(via));
      ThenQuiet(env, [Screenshot(via)], rest);
      assert Ending(env, r) && r.via == Some(via) && Captured(env, world, r);
      assert Handled(env, r, CaptureFault(env, world));
    } else {
      var read := AfterCookieRead(env, world, via);
      if world.jar.None? {
        AbortedEnding(env, CookieReadFailed, Some(via));
        ThenQuiet(env, [ReadCookies], read);
        ThenQuiet(env, [Screenshot(via)], rest);
        assert Ending(env, r) && r.via == Some(via) && Captured(env, world, r);
        assert Handled(env, r, CaptureFault(env, world));
      } else {
        RotationFacts(env, world, via);
        ThenQuiet(env, [ReadCookies], read);
        ThenQuiet(env, [Screenshot(via)], rest);
        assert Ending(env, r) && r.via == Some(via) && Captured(env, world, r);
        assert Handled(env, r, CaptureFault(env, world));
      }
    }
  }

  /** The magic-link fallback, when it is tried. */
  lemma FallbackFacts(env: Env, world: World)
    requires MagicLinkTried(env, world)
    ensures var r := Fallback(env, world);
            ClosesBrowser(r.trace) && Reported(env, r) && Consistent(r)
            && r.trace[0] == TryLogin(ViaMagicLink) && TryLogin(ViaCookie) !in r.trace
            && r.via == (if MagicLinkWorks(world) then Some(ViaMagicLink) else None)
            && (r.via.Some? ==> Captured(env, world, r))
            && (r.via == None && !SetupFailed(env, world) && Notifies(env) ==> Messages(r.trace) == [AllLoginsFailed])
            && Handled(env, r, MagicFault(env, world))
  {
    hide Parsed, FormatCookies, Split, Preview, Contains, Messages, AfterLogin, CaptureFault;
    var rest := AfterMagic(env, world);
    if world.magicProbe.MagicSetupRaised? {
      AbortedEnding(env, MagicSetupFailed, None);
    } else if MagicLinkWorks(world) {
      AfterLoginFacts(env, world, ViaMagicLink);
    } else {
      AllFailedEnding(env);
    }
    ThenQuiet(env, MagicAttempt(world.magicProbe), rest);
  }

  /** What the cookie attempt leads to, when a cookie string is set. */
  lemma AfterCookieFacts(env: Env, world: World)
    requires IsSet(env.cookieString)
    ensures var r := AfterCookie(env, world);
            ClosesBrowser(r.trace) && Reported(env, r) && Consistent(r)
            && TryLogin(ViaCookie) !in r.trace
            && (TryLogin(ViaMagicLink) in r.trace <==> MagicLinkTried(env, world))
            && (MagicLinkTried(env, world) ==>
                  |r.trace| >= 2 && r.trace[0] == ClosePage(ViaCookie) && r.trace[1] == TryLogin(ViaMagicLink))
            && (r.via == Some(ViaCookie) <==> CookieLoginWorks(world))
            && (r.via == Some(ViaMagicLink) <==> MagicLinkTried(env, world) && MagicLinkWorks(world))
            && (r.via.Some? ==> Captured(env, world, r))
            && (r.via == None && !SetupFailed(env, world) && Notifies(env) ==> Messages(r.trace) == [AllLoginsFailed])
            && Handled(env, r, RunFault(env, world))
  {
    hide Parsed, FormatCookies, Split, Preview, Contains, Messages, AfterLogin, Fallback, CaptureFault, MagicFault;
    if world.cookieProbe.CookieSetupRaised? {
      AbortedEnding(env, CookieSetupFailed, None);
    } else if CookieLoginWorks(world) {
      AfterLoginFacts(env, world, ViaCookie);
    } else if IsSet(env.magicLink) {
      FallbackFacts(env, world);
      ThenQuiet(env, [ClosePage(ViaCookie)], Fallback(env, world));
    } else {
      AllFailedEnding(env);
    }
  }

  // ----------------------------------------------------- the whole run

  /** The first events of a run with a credential: the launch and, if set, the cookie attempt. */
  function Opening(env: Env, world: World): seq<Event>
  {
    [Launch] + (if IsSet(env.cookieString) then CookieAttempt(env.cookieString.value, world.cookieProbe) else [])
  }

  /** What a run with a credential does after `Opening`. */
  function Remainder(env: Env, world: World): RunResult
  {
    if IsSet(env.cookieString) then AfterCookie(env, world) else Fallback(env, world)
  }

  /** A run with a credential is its opening, then the phase facts of what follows. */
  lemma Phases(env: Env, world: World)
    requires HasCredential(env)
    ensures Outcome(env, world) == Then(Opening(env, world), Remainder(env, world))
    ensures Quiet(Opening(env, world))
    ensures var r := Remainder(env, world);
            ClosesBrowser(r.trace) && Reported(env, r) && Consistent(r)
            && (r.via.Some? ==> Captured(env, world, r))
            && TryLogin(ViaCookie) !in r.trace
            && (TryLogin(ViaMagicLink) in r.trace <==> MagicLinkTried(env, world))
            && (r.via == Some(ViaCookie) <==> IsSet(env.cookieString) && CookieLoginWorks(world))
            && (r.via == Some(ViaMagicLink) <==> MagicLinkTried(env, world) && MagicLinkWorks(world))
            && (r.via == None && !SetupFailed(env, world) && Notifies(env) ==> Messages(r.trace) == [AllLoginsFailed])
            && Handled(env, r, RunFault(env, world))
  {
    hide Parsed, FormatCookies, Split, Preview, Contains, Messages, AfterCookie, Fallback, CaptureFault, MagicFault;
    if IsSet(env.cookieString) {
      AfterCookieFacts(env, world);
    } else {
      FallbackFacts(env, world);
      assert [Launch] + [] == [Launch];
    }
  }

  /** Without a magic link or a cookie string the run exits 1 before touching the browser. */
  lemma FailFast(env: Env, world: World)
    requires !HasCredential(env)
    ensures Outcome(env, world).exitCode == 1 && Outcome(env, world).trace == []
    ensures Outcome(env, world).via == None
  {
  }

  /** A run with a credential launches the browser first and closes it last. */
  lemma BrowserFirstAndLast(env: Env, world: World)
    requires HasCredential(env)
    ensures var t := Outcome(env, world).trace;
            |t| >= 2 && t[0] == Launch && t[|t| - 1] == CloseBrowser
  {
    hide Parsed, FormatCookies, Split, Preview, Contains, Messages, AfterCookie, Fallback;
    Phases(env, world);
  }

  /**
   * The order of the attempts: with a cookie string, the cookie attempt
   * comes right after the launch and loads exactly the parsed cookies; the
   * magic link comes after the cookie page is closed, or right after the
   * launch when there is no cookie string.
   */
  lemma CookieBeforeMagicLink(env: Env, world: World)
    requires HasCredential(env)
    ensures var t := Outcome(env, world).trace;
            IsSet(env.cookieString) ==>
              |t| >= 3 && t[1] == TryLogin(ViaCookie) && t[2] == AddCookies(Parsed(env.cookieString.value))
    ensures var t := Outcome(env, world).trace;
            IsSet(env.cookieString) && MagicLinkTried(env, world) ==>
              |t| >= 6 && t[3] == OpenPage(ViaCookie) && t[4] == ClosePage(ViaCookie)
              && t[5] == TryLogin(ViaMagicLink)
    ensures var t := Outcome(env, world).trace;
            !IsSet(env.cookieString) ==> |t| >= 2 && t[1] == TryLogin(ViaMagicLink)
  {
    hide Parsed, FormatCookies, Split, Preview, Contains, Messages, AfterCookie, Fallback;
    var t := Outcome(env, world).trace;
    if IsSet(env.cookieString) {
      AfterCookieFacts(env, world);
      var opening := [Launch] + CookieAttempt(env.cookieString.value, world.cookieProbe);
      assert t == opening + AfterCookie(env, world).trace;
      assert opening[1] == TryLogin(ViaCookie) && opening[2] == AddCookies(Parsed(env.cookieString.value));
      if MagicLinkTried(env, world) {
        assert |opening| == 4 && opening[3] == OpenPage(ViaCookie);
      }
    } else {
      FallbackFacts(env, world);
      assert t == [Launch] + Fallback(env, world).trace;
    }
  }

  /**
   * The cookie attempt is made exactly when a cookie string is set, the
   * magic link exactly when it is set and the cookie was absent or its page
   * loaded without a login.
   */
  lemma AttemptsMade(env: Env, world: World)
    requires HasCredential(env)
    ensures TryLogin(ViaCookie) in Outcome(env, world).trace <==> IsSet(env.cookieString)
    ensures TryLogin(ViaMagicLink) in Outcome(env, world).trace <==> MagicLinkTried(env, world)
  {
    hide Parsed, FormatCookies, Split, Preview, Contains, Messages, AfterCookie, Fallback;
    Phases(env, world);
  }

  /** The login method recorded is the attempt that succeeded. */
  lemma MethodIsWinner(env: Env, world: World)
    ensures Outcome(env, world).via == Some(ViaCookie) <==> IsSet(env.cookieString) && CookieLoginWorks(world)
    ensures Outcome(env, world).via == Some(ViaMagicLink) <==> MagicLinkTried(env, world) && MagicLinkWorks(world)
  {
    hide Parsed, FormatCookies, Split, Preview, Contains, Messages, AfterCookie, Fallback;
    if HasCredential(env) {
      Phases(env, world);
    }
  }

  /**
   * Without a successful login the run exits 1 and never takes a screenshot,
   * reads the browser's cookies or writes the secret; a login function that
   * raised outside its own handler leaves no login recorded.
   */
  lemma NoLoginNoCapture(env: Env, world: World)
    ensures var r := Outcome(env, world);
            r.via == None ==>
              r.exitCode == 1 && !r.cookieUpdated
              && forall e :: e in r.trace ==> !e.Screenshot? && !e.ReadCookies? && !e.UpdateSecret?
    ensures SetupFailed(env, world) ==> Outcome(env, world).via == None
    ensures forall e :: e in Outcome(env, world).trace && e.Screenshot? ==> Outcome(env, world).via == Some(e.page)
  {
    hide Parsed, FormatCookies, Split, Preview, Contains, Messages, AfterCookie, Fallback;
    if HasCredential(env) {
      Phases(env, world);
      var via := Outcome(env, world).via;
      if via.Some? {
        match via.value
        case ViaCookie =>
        case ViaMagicLink =>
      }
    }
  }

  /**
   * The exit status is 0 exactly when a login succeeded, the screenshot and
   * the cookie read worked and, if the secret was due for rotation, the
   * repository named an owner and a repository and the update went through.
   */
  lemma ExitStatus(env: Env, world: World)
    ensures var r := Outcome(env, world);
            (r.exitCode == 0 || r.exitCode == 1)
            && (r.exitCode == 0 <==>
                  r.via.Some? && !world.screenshotRaises && world.jar.Some?
                  && (RotationDue(env, FormatCookies(world.jar.value)) ==>
                        |Split(env.repository, '/')| == 2 && !world.secretUpdateRaises))
  {
    hide Parsed, FormatCookies, Split, Preview, Contains, Messages, AfterCookie, Fallback;
    if HasCredential(env) {
      Phases(env, world);
    }
  }

  /**
   * The secret is written exactly when a login succeeded, the screenshot
   * and the cookie read worked, rotation is due and the repository splits
   * into owner and name; what is written is the new cookie string, under
   * `ZEABUR_COOKIE`, and the run reports an update exactly when it succeeds.
   */
  lemma RotationWhenDue(env: Env, world: World)
    ensures var r := Outcome(env, world);
            (exists e :: e in r.trace && e.UpdateSecret?) <==>
              r.via.Some? && !world.screenshotRaises && world.jar.Some?
              && RotationDue(env, FormatCookies(world.jar.value)) && |Split(env.repository, '/')| == 2
    ensures forall e :: e in Outcome(env, world).trace && e.UpdateSecret? ==>
              world.jar.Some? && e.value == FormatCookies(world.jar.value) && e.name == SECRET_NAME
              && e.value != "" && env.cookieString != Some(e.value)
              && [e.owner, e.repo] == Split(env.repository, '/')
    ensures var r := Outcome(env, world);
            r.cookieUpdated <==> r.exitCode == 0 && world.jar.Some? && RotationDue(env, FormatCookies(world.jar.value))
  {
    hide Parsed, FormatCookies, Split, Preview, Contains, Messages, AfterCookie, Fallback;
    if HasCredential(env) {
      Phases(env, world);
      var r := Outcome(env, world);
      if r.via.Some? && !world.screenshotRaises && world.jar.Some?
         && RotationDue(env, FormatCookies(world.jar.value)) && |Split(env.repository, '/')| == 2 {
        var e :| e in Remainder(env, world).trace && e.UpdateSecret?;
        assert e in r.trace;
      }
    }
  }

  /**
   * The logs of a successful run: the dashboard visit, then, when the
   * secret was rotated, the preview of the new cookie string and the
   * rotation notice.
   */
  lemma ReportLogs(env: Env, world: World)
    ensures var r := Outcome(env, world);
            r.exitCode == 0 ==>
              world.jar.Some?
              && r.logs == [VisitedDashboard(DASHBOARD_URL)]
                           + (if r.cookieUpdated
                              then [NewCookie(Preview(FormatCookies(world.jar.value))), CookieSecretUpdated]
                              else [])
  {
    hide Parsed, FormatCookies, Split, Preview, Contains, Messages, AfterCookie, Fallback;
    if HasCredential(env) {
      Phases(env, world);
    }
  }

  /**
   * A run with a credential sends the chat exactly one message when the bot
   * is configured and none otherwise: the report of a successful run
   * (followed by the screenshot), the notice that every login failed, or
   * the failure that reached the top-level handler.
   */
  lemma OneMessage(env: Env, world: World)
    ensures var r := Outcome(env, world);
            |Messages(r.trace)| == if HasCredential(env) && Notifies(env) then 1 else 0
    ensures var r := Outcome(env, world);
            r.exitCode == 0 && Notifies(env) ==> r.via.Some? && Messages(r.trace) == [Report(r.via.value, r.logs)]
    ensures var r := Outcome(env, world);
            SendPhoto in r.trace <==> r.exitCode == 0 && Notifies(env)
    ensures var r := Outcome(env, world);
            r.via == None && HasCredential(env) && !SetupFailed(env, world) && Notifies(env) ==>
              Messages(r.trace) == [AllLoginsFailed]
    ensures var r := Outcome(env, world);
            var fault := RunFault(env, world);
            fault.Some? ==> r.exitCode == 1 && (Notifies(env) ==> Messages(r.trace) == [RunFailed(fault.value)])
    ensures var r := Outcome(env, world);
            RunFault(env, world).None? ==> forall m :: m in Messages(r.trace) ==> !m.RunFailed?
    ensures var r := Outcome(env, world);
            HasCredential(env) ==>
              (RunFault(env, world).Some? <==> SetupFailed(env, world) || (r.via.Some? && r.exitCode == 1))
  {
    hide Parsed, FormatCookies, Split, Preview, Contains, Messages, AfterCookie, Fallback;
    EmptyTrace();
    if HasCredential(env) {
      Phases(env, world);
      ThenQuiet(env, Opening(env, world), Remainder(env, world));
      var r := Outcome(env, world);
      assert r.via == Remainder(env, world).via;
      if r.via.Some? {
        // the login that succeeded leaves only the capture steps to fail
        match r.via.value
        case ViaCookie =>
          assert IsSet(env.cookieString) && CookieLoginWorks(world);
        case ViaMagicLink =>
          assert MagicLinkTried(env, world) && MagicLinkWorks(world);
          assert MagicFault(env, world) == CaptureFault(env, world);
      }
    }
  }
}
