/**
 * The punch-in automation of src/main/automation.ts for the two attendance
 * portals, Jmotto and Freee. The browser is an oracle: whether each awaited step
 * succeeds, when a closing window reports `'closed'`, the bounds a window has
 * when it closes, and the text of Freee's buttons. Sleeps and selector
 * time-outs are not modelled; a step either succeeds or fails.
 */
module Automation {
  import opened Wrappers
  import opened Models
  import opened ConfigManager

  datatype Portal = Jmotto | Freee

  /** One page operation, as the code awaits it. */
  datatype Action =
    | LoadUrl(url: string)
    | GetPage
    | WaitFor(selector: string)
    | TypeText(selector: string, text: string)
    | Click(selector: string)
    | ReadButtons(selector: string)
    | ClickButton(index: nat)

  /** A step is what one `await` waits for: a single operation or a `Promise.all` group. */
  type Step = seq<Action>

  /** A window the automation opened: its number, position and size. */
  datatype Window = Window(id: nat, x: int, y: int, width: int, height: int)

  const JmottoUrl: string := "https://www1.j-motto.co.jp/fw/dfw/po80/portal/contents/login.html"
  const FreeeUrl: string := "https://accounts.secure.freee.co.jp/login/hr"
  const TimeCardLink: string := "a[href=\"ztcard.cgi?cmd=tcardindex\"]"
  const PunchButtonSelector: string := ".vb-loading button.vb-button--appearancePrimary"
  /** The most `'closed'` polls the close-wait loop makes before it gives up. */
  const MaxPolls: nat := 10

  /** The class of the Jmotto time-card button for start or end. */
  function TargetClass(startOrEnd: StartOrEnd): string {
    if startOrEnd == Start then "jtcard-btn-stime" else "jtcard-btn-etime"
  }

  /** The text of the Freee button for start or end. */
  function TargetText(startOrEnd: StartOrEnd): string {
    if startOrEnd == Start then "出勤する" else "退勤する"
  }

  function ClassSelector(cls: string): string {
    "input[class=\"" + cls + "\"]"
  }

  /** The awaited steps of `punchInJmotto`'s `try` block, in order. */
  function JmottoScript(startOrEnd: StartOrEnd, c: JmottoConfig): seq<Step> {
    [ [LoadUrl(JmottoUrl)],
      [GetPage],
      [WaitFor("#memberID"), WaitFor("#userID"), WaitFor("#password"), WaitFor("label[for=\"A\"]")],
      [TypeText("#memberID", c.memberId)],
      [TypeText("#userID", c.userId)],
      [TypeText("#password", c.password)],
      [Click("label[for=\"A\"]")],
      [WaitFor(TimeCardLink), Click(".loginSubmit > input")],
      [WaitFor(ClassSelector("jtcard-btn-stime")), WaitFor(ClassSelector("jtcard-btn-etime")), Click(TimeCardLink)],
      [Click(ClassSelector(TargetClass(startOrEnd)))] ]
  }

  /** The awaited steps of `punchInFreee`'s `try` block up to reading the buttons. */
  function FreeeScript(c: FreeeConfig): seq<Step> {
    [ [LoadUrl(FreeeUrl)],
      [GetPage],
      [WaitFor("#user_email"), WaitFor("input[name=\"password\"]")],
      [TypeText("#user_email", c.email)],
      [TypeText("input[name=\"password\"]", c.password)],
      [WaitFor(PunchButtonSelector), Click("input[name=\"commit\"]")],
      [ReadButtons(PunchButtonSelector)] ]
  }

  /** The Jmotto time-card button is clicked once, as the last step, and no earlier step clicks either button. */
  lemma JmottoClicksTargetLast(startOrEnd: StartOrEnd, c: JmottoConfig)
    ensures var s := JmottoScript(startOrEnd, c);
      && s[|s| - 1] == [Click(ClassSelector(TargetClass(startOrEnd)))]
      && (forall k, a: Action :: 0 <= k < |s| - 1 && a in s[k] && a.Click? ==>
            a.selector != ClassSelector("jtcard-btn-stime") && a.selector != ClassSelector("jtcard-btn-etime"))
    ensures startOrEnd == Start <==> TargetClass(startOrEnd) == "jtcard-btn-stime"
  {
    var s := JmottoScript(startOrEnd, c);
    forall k, a: Action | 0 <= k < |s| - 1 && a in s[k] && a.Click?
      ensures a.selector != ClassSelector("jtcard-btn-stime") && a.selector != ClassSelector("jtcard-btn-etime")
    {
      assert a.selector == "label[for=\"A\"]" || a.selector == ".loginSubmit > input" || a.selector == TimeCardLink;
      assert ClassSelector("jtcard-btn-stime")[..6] == "input[";
      assert ClassSelector("jtcard-btn-etime")[..6] == "input[";
    }
  }

  /** The Jmotto credentials are typed in the order member id, user id, password, before the login click. */
  lemma JmottoTypesCredentials(startOrEnd: StartOrEnd, c: JmottoConfig)
    ensures var s := JmottoScript(startOrEnd, c);
      s[3] == [TypeText("#memberID", c.memberId)] && s[4] == [TypeText("#userID", c.userId)]
      && s[5] == [TypeText("#password", c.password)] && Click(".loginSubmit > input") in s[7]
  {
  }

  /** All operations of the given steps, in order. */
  function Flatten(steps: seq<Step>): seq<Action> {
    if steps == [] then [] else steps[0] + Flatten(steps[1..])
  }

  lemma {:induction false} FlattenAppend(a: seq<Step>, b: seq<Step>)
    ensures Flatten(a + b) == Flatten(a) + Flatten(b)
    decreases |a|
  {
    if a == [] {
      assert a + b == b;
    } else {
      assert (a + b)[1..] == a[1..] + b;
      FlattenAppend(a[1..], b);
    }
  }

  /** The first of the steps `0 .. n - 1` the oracle fails. */
  function FirstFailure(n: nat, stepOk: nat -> bool): (r: Option<nat>)
    ensures r.Some? ==> r.value < n && !stepOk(r.value) && forall j :: 0 <= j < r.value ==> stepOk(j)
    ensures r.None? ==> forall j :: 0 <= j < n ==> stepOk(j)
  {
    if n == 0 then None
    else match FirstFailure(n - 1, stepOk)
      case Some(k) => Some(k)
      case None => if stepOk(n - 1) then None else Some(n - 1)
  }

  /**
   * Runs the steps one after the other until one fails: every operation of the
   * failing step has been started (a `Promise.all` starts them all), and no
   * later step runs.
   */
  method RunScript(steps: seq<Step>, stepOk: nat -> bool) returns (failedAt: Option<nat>, performed: seq<Action>)
    ensures failedAt == FirstFailure(|steps|, stepOk)
    ensures failedAt.None? ==> performed == Flatten(steps)
    ensures failedAt.Some? ==> performed == Flatten(steps[..failedAt.value + 1])
  {
    performed := [];
    failedAt := None;
    var k := 0;
    while k < |steps|
      invariant 0 <= k <= |steps|
      invariant failedAt.None? ==> FirstFailure(k, stepOk).None? && performed == Flatten(steps[..k])
      invariant failedAt.Some? ==> k == |steps| && failedAt == FirstFailure(|steps|, stepOk)
                                   && performed == Flatten(steps[..failedAt.value + 1])
      decreases |steps| - k
    {
      FlattenAppend(steps[..k], [steps[k]]);
      assert steps[..k + 1] == steps[..k] + [steps[k]];
      assert Flatten([steps[k]]) == steps[k];
      performed := performed + steps[k];
      if !stepOk(k) {
        failedAt := Some(k);
        FirstFailureStays(k + 1, |steps|, stepOk);
        k := |steps|;
      } else {
        k := k + 1;
      }
    }
    assert steps[..|steps|] == steps;
  }

  /** Once a failure is found among the first steps, more steps do not change it. */
  lemma {:induction false} FirstFailureStays(n: nat, m: nat, stepOk: nat -> bool)
    requires n <= m && FirstFailure(n, stepOk).Some?
    ensures FirstFailure(m, stepOk) == FirstFailure(n, stepOk)
    decreases m - n
  {
    if n < m {
      FirstFailureStays(n, m - 1, stepOk);
    }
  }

  /**
   * The close-wait loop: after `close()`, the handle is polled after each sleep,
   * and the tenth poll throws even if the window closed during it.
   * `closedAfter` is the number of sleeps after which `'closed'` has nulled the
   * handle; `nulled` says whether that happened before the loop ended.
   */
  method CloseWait(closedAfter: nat) returns (closed: bool, polls: nat, nulled: bool)
    ensures closed <==> closedAfter < MaxPolls
    ensures closed ==> polls == closedAfter
    ensures !closed ==> polls == MaxPolls
    ensures nulled <==> closedAfter <= MaxPolls
  {
    var open := closedAfter > 0;
    var retryCount := 0;
    while open
      invariant 0 <= retryCount < MaxPolls && retryCount <= closedAfter
      invariant open <==> retryCount < closedAfter
      decreases MaxPolls - retryCount
    {
      retryCount := retryCount + 1;
      open := retryCount < closedAfter;
      if retryCount == MaxPolls {
        return false, retryCount, !open;
      }
    }
    return true, retryCount, true;
  }

  /** The first index whose text is exactly the target, if any. */
  function FirstMatch(texts: seq<string>, target: string): (r: Option<nat>)
    ensures r.Some? ==> r.value < |texts| && texts[r.value] == target
    ensures r.Some? ==> forall j :: 0 <= j < r.value ==> texts[j] != target
    ensures r.None? <==> forall j :: 0 <= j < |texts| ==> texts[j] != target
  {
    if texts == [] then None
    else if texts[0] == target then Some(0)
    else match FirstMatch(texts[1..], target)
      case None => None
      case Some(k) => Some(k + 1)
  }

  /** The Freee button loop, which clicks the first button whose text is exactly the target. */
  method SelectButton(texts: seq<string>, target: string) returns (clicked: Option<nat>)
    ensures clicked == FirstMatch(texts, target)
  {
    clicked := None;
    for i := 0 to |texts|
      invariant clicked.None?
      invariant forall j :: 0 <= j < i ==> texts[j] != target
    {
      if texts[i] == target {
        return Some(i);
      }
    }
  }

  /** The payload of the `'error'` event. */
  function ErrorEventOf(portal: Portal, startOrEnd: StartOrEnd): ErrorDetail {
    match portal
    case Jmotto => ErrorDetail("[Jmotto] 出退勤処理に失敗しました。", "punchInJmotto", Some(startOrEnd))
    case Freee => ErrorDetail("[Freee] 出退勤処理に失敗しました。", "punchInFreee", Some(startOrEnd))
  }

  function WindowKey(portal: Portal): AppWindow {
    if portal == Jmotto then JmottoWindow else FreeeWindow
  }

  /** What the browser does while a punch-in runs. */
  datatype Browser = Browser(
    /** Sleeps after `close()` until `'closed'` arrives. */
    closedAfter: nat,
    /** The bounds the old window has when it closes. */
    closingBounds: Bounds,
    /** Whether writing config.json succeeds when those bounds are saved. */
    writeOk: bool,
    /** Whether the k-th awaited step succeeds. */
    stepOk: nat -> bool,
    /** The text of each button Freee's selector finds. */
    buttonTexts: seq<string>,
    /** Whether clicking the chosen Freee button succeeds. */
    clickOk: bool)

  function ScriptOf(portal: Portal, startOrEnd: StartOrEnd, c: UserConfig): seq<Step> {
    if portal == Jmotto then JmottoScript(startOrEnd, c.jmotto) else FreeeScript(c.freee)
  }

  /** What the `try` block of a punch-in starts and emits. */
  datatype Outcome = Outcome(actions: seq<Action>, errors: seq<ErrorDetail>)

  /**
   * The `try` block: the script up to its first failing step, and for Freee the
   * click on the first button of the target text. Any failure is caught once and
   * becomes one `'error'` event.
   */
  function TryBlock(portal: Portal, startOrEnd: StartOrEnd, c: UserConfig, browser: Browser): Outcome {
    var script := ScriptOf(portal, startOrEnd, c);
    match FirstFailure(|script|, browser.stepOk)
    case Some(k) => Outcome(Flatten(script[..k + 1]), [ErrorEventOf(portal, startOrEnd)])
    case None =>
      if portal == Jmotto then Outcome(Flatten(script), [])
      else match FirstMatch(browser.buttonTexts, TargetText(startOrEnd))
        case None => Outcome(Flatten(script), [])
        case Some(i) => Outcome(Flatten(script) + [ClickButton(i)], if browser.clickOk then [] else [ErrorEventOf(portal, startOrEnd)])
  }

  /** The `try` block run on the browser: the actions it performs and the events it emits. */
  method RunTryBlock(portal: Portal, startOrEnd: StartOrEnd, c: UserConfig, browser: Browser)
    returns (actions: seq<Action>, errors: seq<ErrorDetail>)
    ensures Outcome(actions, errors) == TryBlock(portal, startOrEnd, c, browser)
  {
    var script := ScriptOf(portal, startOrEnd, c);
    var failedAt, done := RunScript(script, browser.stepOk);
    actions, errors := done, [];
    if failedAt.Some? {
      errors := [ErrorEventOf(portal, startOrEnd)];
      return;
    }
    if portal == Freee {
      var clicked := SelectButton(browser.buttonTexts, TargetText(startOrEnd));
      if clicked.Some? {
        actions := actions + [ClickButton(clicked.value)];
        if !browser.clickOk {
          errors := [ErrorEventOf(portal, startOrEnd)];
        }
      }
    }
  }

  /** A punch-in emits at most one event, and only its own portal's failure message for the requested direction. */
  lemma AtMostOneError(portal: Portal, startOrEnd: StartOrEnd, c: UserConfig, browser: Browser)
    ensures var o := TryBlock(portal, startOrEnd, c, browser);
      |o.errors| <= 1 && forall e :: e in o.errors ==> e == ErrorEventOf(portal, startOrEnd)
    ensures ErrorEventOf(portal, startOrEnd).startOrEnd == Some(startOrEnd)
    ensures ErrorEventOf(portal, startOrEnd).functionName == (if portal == Jmotto then "punchInJmotto" else "punchInFreee")
  {
  }

  /** A Jmotto punch-in reports an error exactly when a step fails, and otherwise clicks the target button last. */
  lemma {:induction false} JmottoErrorIffStepFails(startOrEnd: StartOrEnd, c: UserConfig, browser: Browser)
    ensures var o := TryBlock(Jmotto, startOrEnd, c, browser);
      && (o.errors != [] <==> exists k :: 0 <= k < 10 && !browser.stepOk(k))
      && (o.errors == [] ==> o.actions[|o.actions| - 1] == Click(ClassSelector(TargetClass(startOrEnd))))
  {
    var script := JmottoScript(startOrEnd, c.jmotto);
    assert |script| == 10;
    match FirstFailure(|script|, browser.stepOk)
    case Some(k) =>
    case None =>
      FlattenAppend(script[..9], [script[9]]);
      assert script[..9] + [script[9]] == script;
      assert Flatten([script[9]]) == script[9];
  }

  /**
   * A Freee punch-in whose steps all succeed reports an error exactly when there
   * is a button of the target text and clicking it fails; without such a button
   * nothing is clicked and nothing is reported.
   */
  lemma FreeeErrorWhenClickFails(startOrEnd: StartOrEnd, c: UserConfig, browser: Browser)
    requires forall k :: 0 <= k < 7 ==> browser.stepOk(k)
    ensures var o := TryBlock(Freee, startOrEnd, c, browser);
      && (o.errors != [] <==> FirstMatch(browser.buttonTexts, TargetText(startOrEnd)).Some? && !browser.clickOk)
      && (FirstMatch(browser.buttonTexts, TargetText(startOrEnd)).None? ==>
            o.actions == Flatten(FreeeScript(c.freee)))
  {
    assert |FreeeScript(c.freee)| == 7;
  }

  /** The configuration the `'close'` hook leaves: the window's bounds saved, or unchanged when `saveBounds` throws. */
  function ClosedConfig(c: AppConfig, portal: Portal, b: Bounds): AppConfig {
    if WithBounds(c, WindowKey(portal), b).Ok? then WithBounds(c, WindowKey(portal), b).value else c
  }

  /** After the hook, the closed window's key holds its last bounds, every other key keeps its own, and nothing else changes. */
  lemma ClosedConfigBounds(c: AppConfig, portal: Portal, b: Bounds)
    ensures c.bounds.Some? ==> BoundsOf(ClosedConfig(c, portal, b), WindowKey(portal)) == b
    ensures forall w :: w != WindowKey(portal) ==> BoundsOf(ClosedConfig(c, portal, b), w) == BoundsOf(c, w)
    ensures ClosedConfig(c, portal, b).(bounds := c.bounds) == c
  {
    if c.bounds.Some? {
      forall w | w != WindowKey(portal)
        ensures BoundsOf(ClosedConfig(c, portal, b), w) == BoundsOf(c, w)
      {
        BoundsRoundTrip(c, WindowKey(portal), b, w);
      }
      BoundsRoundTrip(c, WindowKey(portal), b, WindowKey(portal));
    }
  }

  /** The module state of automation.ts: the two window handles, and what went out. */
  class AutomationState {
    var jmottoWindow: Option<Window>
    var freeeWindow: Option<Window>
    /** The `'error'` events emitted, in order. */
    var events: seq<ErrorDetail>
    /** The page operations started, in order. */
    var performed: seq<Action>
    var nextWindowId: nat
    const store: ConfigStore

    constructor(store: ConfigStore)
      ensures this.store == store
      ensures jmottoWindow.None? && freeeWindow.None? && events == [] && performed == [] && nextWindowId == 0
    {
      this.store := store;
      jmottoWindow := None;
      freeeWindow := None;
      events := [];
      performed := [];
      nextWindowId := 0;
    }

    function Handle(portal: Portal): Option<Window>
      reads this
    {
      if portal == Jmotto then jmottoWindow else freeeWindow
    }

    /** The `'close'` hook: the window's bounds are saved under its own key. */
    method OnClose(portal: Portal, b: Bounds, writeOk: bool)
      modifies store
      ensures store.config == ClosedConfig(old(store.config), portal, b)
      ensures store.file == if old(store.config).bounds.Some? && writeOk then Some(store.config) else old(store.file)
      ensures WithBounds(old(store.config), WindowKey(portal), b).Ok? ==>
        store.config == WithBounds(old(store.config), WindowKey(portal), b).value && store.GetBounds(WindowKey(portal)) == b
      ensures WithBounds(old(store.config), WindowKey(portal), b).Err? ==> store.config == old(store.config)
    {
      var _ := store.SaveBounds(WindowKey(portal), b, writeOk);
    }

    /** The `'closed'` hook: the handle becomes null. */
    method OnClosed(portal: Portal)
      modifies this
      ensures Handle(portal).None?
      ensures portal == Jmotto ==> freeeWindow == old(freeeWindow)
      ensures portal == Freee ==> jmottoWindow == old(jmottoWindow)
      ensures events == old(events) && performed == old(performed) && nextWindowId == old(nextWindowId)
    {
      if portal == Jmotto {
        jmottoWindow := None;
      } else {
        freeeWindow := None;
      }
    }

    /**
     * The start of a punch-in: an open window is closed and the handle polled.
     * `false` is the throw after the tenth poll; a window that closed during that
     * last sleep has already had its handle nulled by the `'closed'` hook.
     */
    method CloseExisting(portal: Portal, browser: Browser) returns (closed: bool)
      modifies this, store
      ensures closed <==> old(Handle(portal)).None? || browser.closedAfter < MaxPolls
      ensures closed ==> Handle(portal).None?
      ensures Handle(portal) == if old(Handle(portal)).Some? && browser.closedAfter <= MaxPolls then None else old(Handle(portal))
      ensures portal == Jmotto ==> freeeWindow == old(freeeWindow)
      ensures portal == Freee ==> jmottoWindow == old(jmottoWindow)
      ensures events == old(events) && performed == old(performed) && nextWindowId == old(nextWindowId)
      ensures store.config == if old(Handle(portal)).Some? then ClosedConfig(old(store.config), portal, browser.closingBounds) else old(store.config)
      ensures store.file ==
        if old(Handle(portal)).Some? && old(store.config).bounds.Some? && browser.writeOk then Some(store.config) else old(store.file)
    {
      if Handle(portal).None? {
        return true;
      }
      OnClose(portal, browser.closingBounds, browser.writeOk);
      var polls, nulled;
      closed, polls, nulled := CloseWait(browser.closedAfter);
      if nulled {
        OnClosed(portal);
      }
    }

    /** Opens a 1000x800 window at the position saved for the portal and runs the `try` block. */
    method OpenAndRun(portal: Portal, startOrEnd: StartOrEnd, browser: Browser)
      modifies this
      ensures Handle(portal) == Some(Window(old(nextWindowId), store.GetBounds(WindowKey(portal)).x,
                                            store.GetBounds(WindowKey(portal)).y, 1000, 800))
      ensures portal == Jmotto ==> freeeWindow == old(freeeWindow)
      ensures portal == Freee ==> jmottoWindow == old(jmottoWindow)
      ensures nextWindowId == old(nextWindowId) + 1
      ensures var o := TryBlock(portal, startOrEnd, store.config.user, browser);
        performed == old(performed) + o.actions && events == old(events) + o.errors
    {
      var b := store.GetBounds(WindowKey(portal));
      var w := Window(nextWindowId, b.x, b.y, 1000, 800);
      nextWindowId := nextWindowId + 1;
      if portal == Jmotto {
        jmottoWindow := Some(w);
      } else {
        freeeWindow := Some(w);
      }
      var done, errors := RunTryBlock(portal, startOrEnd, store.config.user, browser);
      performed := performed + done;
      events := events + errors;
    }

    /**
     * `punchInJmotto(startOrEnd)` (portal Jmotto) and `punchInFreee(startOrEnd)`
     * (portal Freee). If the old window has not reported `'closed'` within the
     * polls, the call throws before its `try` block: nothing is emitted and no
     * window opens; the handle is null when `'closed'` came during the last
     * sleep, so the next call opens a window at once. Otherwise the new window is in the handle and the `try` block
     * runs on the configuration as the close hook left it.
     */
    method PunchIn(portal: Portal, startOrEnd: StartOrEnd, browser: Browser) returns (r: Result<()>)
      modifies this, store
      ensures r.Err? <==> old(Handle(portal)).Some? && browser.closedAfter >= MaxPolls
      ensures r.Err? ==>
        && r.message == (if portal == Jmotto then "closeJmottoWindow failed" else "closeFreeeWindow failed")
        && events == old(events) && performed == old(performed)
        && Handle(portal) == if browser.closedAfter == MaxPolls then None else old(Handle(portal))
      ensures r.Ok? ==>
        && Handle(portal).Some? && Handle(portal).value.width == 1000 && Handle(portal).value.height == 800
        && Handle(portal).value.x == store.GetBounds(WindowKey(portal)).x
        && Handle(portal).value.y == store.GetBounds(WindowKey(portal)).y
        && var o := TryBlock(portal, startOrEnd, store.config.user, browser);
           performed == old(performed) + o.actions && events == old(events) + o.errors
      ensures portal == Jmotto ==> freeeWindow == old(freeeWindow)
      ensures portal == Freee ==> jmottoWindow == old(jmottoWindow)
      ensures store.config == if old(Handle(portal)).Some? then ClosedConfig(old(store.config), portal, browser.closingBounds) else old(store.config)
      ensures store.file ==
        if old(Handle(portal)).Some? && old(store.config).bounds.Some? && browser.writeOk then Some(store.config) else old(store.file)
      ensures r.Ok? && old(Handle(portal)).Some? && old(store.config).bounds.Some? ==>
        Handle(portal).value.x == browser.closingBounds.x && Handle(portal).value.y == browser.closingBounds.y
    {
      ClosedConfigBounds(store.config, portal, browser.closingBounds);
      var closed := CloseExisting(portal, browser);
      if !closed {
        return Err(if portal == Jmotto then "closeJmottoWindow failed" else "closeFreeeWindow failed");
      }
      OpenAndRun(portal, startOrEnd, browser);
      r := Ok(());
    }
  }
}
