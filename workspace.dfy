/**
 * The workspace state machine: one state record updated step by step by the
 * redesign pipeline (webhooks A to D), the chat-refine pipeline (webhooks E
 * and F), the character-by-character interval timer and the tab guard.
 *
 * Each asynchronous continuation is an event method: a webhook response
 * arriving, a delay timer firing, or one tick of the reveal interval. The
 * two timer refs of the hook are fields: `interval` is the running reveal interval,
 * and a `Pending` value in a `Delay...` state is the armed timeout.
 */
module Workspace {

  datatype Tab = Code | Preview | Chat

  datatype Stage = Initial | WebhookA | WebhookB | WebhookC | WebhookD | Complete | ChatRefine

  datatype Role = User | Assistant

  /** A chat message; its timestamp is not modelled. */
  datatype ChatMessage = ChatMessage(id: string, role: Role, content: string)

  /** The record `WorkspaceState`, as the presentation layer reads it. */
  datatype WorkspaceState = WorkspaceState(
    currentTab: Tab,
    codeProgress: real,
    isPreviewLocked: bool,
    isChatLocked: bool,
    isTyping: bool,
    displayedCode: string,
    fullCode: string,
    chatMessages: seq<ChatMessage>,
    stage: Stage)

  /** The assistant's fixed reply once webhook F has answered. */
  const RefineReply: string := "Design updated! Check the preview to see the changes."

  /** Share of the first document revealed by the slow animation. */
  const SlowPercent: nat := 75

  /** Share of a refined document revealed by the refine animation. */
  const RefinePercent: nat := 100

  // ---------------------------------------------------------------------
  // The webhook gateway
  // ---------------------------------------------------------------------

  /** What `fetch` produced: a response with a status and a body, or an exception. */
  datatype Response = Response(status: int, body: string) | Threw

  /**
   * `callWebhook` never fails: the body of an ok (2xx) response, and the
   * fallback document on any other status or on an exception.
   */
  function CallWebhook(r: Response, fallback: string): (text: string)
    ensures r.Response? && 200 <= r.status <= 299 ==> text == r.body
    ensures r.Threw? || !(200 <= r.status <= 299) ==> text == fallback
  {
    if r.Response? && 200 <= r.status <= 299 then r.body else fallback
  }

  // ---------------------------------------------------------------------
  // Animation arithmetic
  // ---------------------------------------------------------------------

  /**
   * `Math.floor(len * (percent / 100))`: the largest count whose share of
   * `len` does not exceed `percent`. For the two shares used (75 and 100)
   * the floating-point product is exact, so integer division is the same.
   */
  function TargetLength(len: nat, percent: nat): (t: nat)
    ensures t * 100 <= len * percent < t * 100 + 100
    ensures percent <= 100 ==> t <= len
    ensures percent == 100 ==> t == len
  {
    len * percent / 100
  }

  /** `(index / len) * 100`, as an exact real. */
  function Progress(index: nat, len: nat): (p: real)
    requires 0 < len && index <= len
    ensures 0.0 <= p <= 100.0
    ensures p * (len as real) == (index as real) * 100.0
    ensures p == 100.0 <==> index == len
  {
    (index as real) * 100.0 / (len as real)
  }

  /** Each tick strictly raises the progress. */
  lemma ProgressIncreases(i: nat, j: nat, len: nat)
    requires i < j <= len
    ensures Progress(i, len) < Progress(j, len)
  {
    var k := 100.0 / (len as real);
    assert k > 0.0;
    assert Progress(i, len) == (i as real) * k && Progress(j, len) == (j as real) * k;
    assert Progress(j, len) - Progress(i, len) == ((j - i) as real) * k;
  }

  // ---------------------------------------------------------------------
  // Timers and pending continuations
  // ---------------------------------------------------------------------

  /**
   * The reveal interval: `index` is the closure's `currentIndex`, `target`
   * the length at which it stops; a `finishing` interval (from
   * `finishTyping`) completes the run when it stops.
   */
  datatype Interval = Stopped | Running(code: string, index: nat, target: nat, finishing: bool)

  /**
   * Where the single pipeline run is suspended. `captured` is the length of
   * `displayedCode` that the pipeline's callbacks captured when the run
   * started; the typing functions start counting from it.
   * `DelayD` and `DelayF` are the armed 5 to 8 minute timeout.
   */
  datatype Pending =
    | Idle
    | AwaitA(captured: nat)
    | AwaitB(captured: nat)
    | AwaitC(captured: nat)
    | DelayD(captured: nat)
    | AwaitD(captured: nat)
    | AwaitE(captured: nat)
    | DelayF(captured: nat)
    | AwaitF(captured: nat)

  /** What `clearTypingTimers` leaves of a pending run: an armed timeout is cancelled. */
  function ClearTimeout(p: Pending): (r: Pending)
    ensures (p.DelayD? || p.DelayF?) ==> r == Idle
    ensures !(p.DelayD? || p.DelayF?) ==> r == p
  {
    if p.DelayD? || p.DelayF? then Idle else p
  }

  /** The state at the end of `finishTyping`, however it gets there. */
  function Completed(s: WorkspaceState, code: string): WorkspaceState
  {
    s.(displayedCode := code, codeProgress := 100.0, isTyping := false,
       isPreviewLocked := false, isChatLocked := false, currentTab := Preview, stage := Complete)
  }

  class Workspace {
    /** `getMockHtml()`, the document every failed webhook call yields. */
    const fallback: string

    var currentTab: Tab
    var codeProgress: real
    var isPreviewLocked: bool
    var isChatLocked: bool
    var isTyping: bool
    var displayedCode: string
    var fullCode: string
    var chatMessages: seq<ChatMessage>
    var stage: Stage

    /** `typingIntervalRef` */
    var interval: Interval
    /** The suspended pipeline, including `typingTimeoutRef` */
    var pending: Pending
    /** The calls made to `onCodeUpdate(code, isComplete)`, in order. */
    var codeUpdates: seq<(string, bool)>
    /** The calls made to `onNewVersion(code)`, in order. */
    var newVersions: seq<string>

    function State(): WorkspaceState
      reads this
    {
      WorkspaceState(currentTab, codeProgress, isPreviewLocked, isChatLocked, isTyping,
                     displayedCode, fullCode, chatMessages, stage)
    }

    /**
     * The progress stays a percentage, the two locks move together, and a
     * running interval has characters left and keeps `isTyping` set.
     */
    ghost predicate Valid()
      reads this
    {
      && 0.0 <= codeProgress <= 100.0
      && isPreviewLocked == isChatLocked
      && (interval.Running? ==>
            && isTyping
            && interval.index < interval.target <= |interval.code|
            && (interval.finishing ==> interval.target == |interval.code|))
    }

    /** The chat panel's `isProcessing`: input is refused while this holds. */
    predicate IsProcessing()
      reads this
    {
      stage == ChatRefine && isTyping
    }

    /** The hook's initial state. */
    constructor (mock: string)
      ensures Valid()
      ensures State() == WorkspaceState(Code, 0.0, true, true, false, "", "", [], Initial)
      ensures fallback == mock && interval == Stopped && pending == Idle
      ensures codeUpdates == [] && newVersions == []
    {
      fallback := mock;
      currentTab, codeProgress := Code, 0.0;
      isPreviewLocked, isChatLocked, isTyping := true, true, false;
      displayedCode, fullCode, chatMessages, stage := "", "", [], Initial;
      interval, pending := Stopped, Idle;
      codeUpdates, newVersions := [], [];
    }

    /**
     * `setCurrentTab`: a locked preview or chat tab cannot be selected;
     * the code tab always can. Nothing but the tab changes.
     */
    method SetTab(tab: Tab)
      requires Valid()
      modifies this`currentTab
      ensures Valid()
      ensures currentTab == (if (tab == Preview && isPreviewLocked) || (tab == Chat && isChatLocked)
                             then old(currentTab) else tab)
    {
      if tab == Preview && isPreviewLocked { return; }
      if tab == Chat && isChatLocked { return; }
      currentTab := tab;
    }

    /**
     * The first update of `startRedesign`: empty code, zero progress,
     * typing, both panels locked, code tab, stage webhook-a. The chat and
     * the full code are untouched; an interval still running is not stopped.
     */
    method StartRedesign()
      requires Valid() && pending == Idle
      modifies this`stage, this`displayedCode, this`codeProgress, this`isTyping,
               this`isPreviewLocked, this`isChatLocked, this`currentTab, this`pending
      ensures Valid()
      ensures State() == old(State()).(stage := WebhookA, displayedCode := "", codeProgress := 0.0,
                                       isTyping := true, isPreviewLocked := true, isChatLocked := true,
                                       currentTab := Code)
      ensures pending == AwaitA(|old(displayedCode)|)
    {
      pending := AwaitA(|displayedCode|);
      stage, displayedCode, codeProgress, isTyping := WebhookA, "", 0.0, true;
      isPreviewLocked, isChatLocked, currentTab := true, true, Code;
    }

    /**
     * `startTypingAnimation(code, percent)` with the captured displayed
     * length. When the target is already reached, the prefix is shown at
     * once and nothing ticks (`isTyping` is left alone); otherwise an interval
     * starts at the captured length. Both timers are cleared first.
     */
    method StartTyping(code: string, percent: nat, captured: nat)
      requires Valid() && percent <= 100
      modifies this`displayedCode, this`isTyping, this`fullCode, this`interval, this`pending
      ensures Valid()
      ensures pending == ClearTimeout(old(pending))
      ensures var target := TargetLength(|code|, percent);
        if target <= captured then
          displayedCode == code[..target] && interval == Stopped
          && isTyping == old(isTyping) && fullCode == old(fullCode)
        else
          interval == Running(code, captured, target, false)
          && isTyping && fullCode == code && displayedCode == old(displayedCode)
    {
      interval, pending := Stopped, ClearTimeout(pending);
      var target := TargetLength(|code|, percent);
      if target <= captured {
        displayedCode := code[..target];
        return;
      }
      isTyping, fullCode := true, code;
      interval := Running(code, captured, target, false);
    }

    /**
     * `finishTyping(code)` with the captured displayed length: completes at
     * once when nothing is left to type, otherwise starts a finishing
     * interval up to the whole of `code`. Both timers are cleared first.
     */
    method FinishTyping(code: string, captured: nat)
      requires Valid()
      modifies this`displayedCode, this`codeProgress, this`isTyping, this`isPreviewLocked,
               this`isChatLocked, this`currentTab, this`stage, this`interval, this`pending, this`codeUpdates
      ensures Valid()
      ensures pending == ClearTimeout(old(pending))
      ensures if |code| <= captured then
          State() == Completed(old(State()), code) && interval == Stopped
          && codeUpdates == old(codeUpdates) + [(code, true)]
        else
          State() == old(State()).(isTyping := true) && interval == Running(code, captured, |code|, true)
          && codeUpdates == old(codeUpdates)
    {
      interval, pending := Stopped, ClearTimeout(pending);
      if |code| <= captured {
        displayedCode, codeProgress, isTyping := code, 100.0, false;
        isPreviewLocked, isChatLocked, currentTab, stage := false, false, Preview, Complete;
        codeUpdates := codeUpdates + [(code, true)];
        return;
      }
      isTyping := true;
      interval := Running(code, captured, |code|, true);
    }

    /**
     * One tick of the reveal interval, as written: one more character is
     * shown and the progress follows. The tick that reaches the target
     * stops typing (and, for a finishing interval, completes the run) and
     * calls `clearTypingTimers`, which also cancels an armed delay timeout.
     */
    method Tick()
      requires Valid() && interval.Running?
      modifies this`displayedCode, this`codeProgress, this`isTyping, this`isPreviewLocked,
               this`isChatLocked, this`currentTab, this`stage, this`interval, this`pending, this`codeUpdates
      ensures Valid()
      ensures var r := old(interval); var i := r.index + 1;
        && displayedCode == r.code[..i] && codeProgress == Progress(i, |r.code|)
        && (i < r.target ==>
              && State() == old(State()).(displayedCode := r.code[..i], codeProgress := Progress(i, |r.code|))
              && interval == r.(index := i) && pending == old(pending) && codeUpdates == old(codeUpdates))
        && (i == r.target ==> interval == Stopped && pending == ClearTimeout(old(pending)))
        && (i == r.target && !r.finishing ==>
              && State() == old(State()).(displayedCode := r.code[..i], codeProgress := Progress(i, |r.code|),
                                          isTyping := false)
              && codeUpdates == old(codeUpdates))
        && (i == r.target && r.finishing ==>
              State() == Completed(old(State()), r.code) && codeUpdates == old(codeUpdates) + [(r.code, true)])
    {
      var r := interval;
      var i := r.index + 1;
      displayedCode := r.code[..i];
      codeProgress := Progress(i, |r.code|);
      if i >= r.target {
        interval, pending := Stopped, ClearTimeout(pending);
        isTyping := false;
        if r.finishing {
          assert r.code[..i] == r.code;
          isPreviewLocked, isChatLocked, currentTab, stage := false, false, Preview, Complete;
          codeUpdates := codeUpdates + [(r.code, true)];
        }
      } else {
        interval := r.(index := i);
      }
    }

    /**
     * One tick of the reveal interval as evidently intended: the same as
     * `Tick`, except that stopping the interval leaves the pending run and
     * its delay timeout alone.
     */
    method TickKeepingDelay()
      requires Valid() && interval.Running?
      modifies this`displayedCode, this`codeProgress, this`isTyping, this`isPreviewLocked,
               this`isChatLocked, this`currentTab, this`stage, this`interval, this`codeUpdates
      ensures Valid()
      ensures var r := old(interval); var i := r.index + 1;
        && displayedCode == r.code[..i] && codeProgress == Progress(i, |r.code|)
        && (i < r.target ==>
              && State() == old(State()).(displayedCode := r.code[..i], codeProgress := Progress(i, |r.code|))
              && interval == r.(index := i) && codeUpdates == old(codeUpdates))
        && (i == r.target ==> interval == Stopped)
        && (i == r.target && !r.finishing ==>
              && State() == old(State()).(displayedCode := r.code[..i], codeProgress := Progress(i, |r.code|),
                                          isTyping := false)
              && codeUpdates == old(codeUpdates))
        && (i == r.target && r.finishing ==>
              State() == Completed(old(State()), r.code) && codeUpdates == old(codeUpdates) + [(r.code, true)])
    {
      var r := interval;
      var i := r.index + 1;
      displayedCode := r.code[..i];
      codeProgress := Progress(i, |r.code|);
      if i >= r.target {
        interval := Stopped;
        isTyping := false;
        if r.finishing {
          assert r.code[..i] == r.code;
          isPreviewLocked, isChatLocked, currentTab, stage := false, false, Preview, Complete;
          codeUpdates := codeUpdates + [(r.code, true)];
        }
      } else {
        interval := r.(index := i);
      }
    }

    /** Webhook A answered: stage webhook-b, the document becomes the full code, the 75% reveal starts. */
    method OnWebhookA(resp: Response)
      requires Valid() && pending.AwaitA?
      modifies this`stage, this`fullCode, this`displayedCode, this`isTyping, this`interval, this`pending
      ensures Valid()
      ensures var html := CallWebhook(resp, fallback); var c := old(pending).captured;
        var target := TargetLength(|html|, SlowPercent);
        && stage == WebhookB && fullCode == html && pending == AwaitB(c)
        && (target <= c ==> displayedCode == html[..target] && interval == Stopped && isTyping == old(isTyping))
        && (c < target ==> displayedCode == old(displayedCode) && interval == Running(html, c, target, false) && isTyping)
    {
      var html, c := CallWebhook(resp, fallback), pending.captured;
      stage, fullCode := WebhookB, html;
      StartTyping(html, SlowPercent, c);
      pending := AwaitB(c);
    }

    /** Webhook B answered: stage webhook-c; its result only feeds webhook C. */
    method OnWebhookB()
      requires Valid() && pending.AwaitB?
      modifies this`stage, this`pending
      ensures Valid()
      ensures stage == WebhookC && pending == AwaitC(old(pending).captured)
    {
      stage, pending := WebhookC, AwaitC(pending.captured);
    }

    /** Webhook C answered: the delay timeout is armed; nothing visible changes. */
    method OnWebhookC()
      requires Valid() && pending.AwaitC?
      modifies this`pending
      ensures Valid()
      ensures pending == DelayD(old(pending).captured)
    {
      pending := DelayD(pending.captured);
    }

    /** The delay before webhook D elapsed: stage webhook-d. */
    method OnDelayBeforeD()
      requires Valid() && pending.DelayD?
      modifies this`stage, this`pending
      ensures Valid()
      ensures stage == WebhookD && pending == AwaitD(old(pending).captured)
    {
      stage, pending := WebhookD, AwaitD(pending.captured);
    }

    /** Webhook D answered: `finishTyping` on the final document ends the run. */
    method OnWebhookD(resp: Response)
      requires Valid() && pending.AwaitD?
      modifies this`displayedCode, this`codeProgress, this`isTyping, this`isPreviewLocked,
               this`isChatLocked, this`currentTab, this`stage, this`interval, this`pending, this`codeUpdates
      ensures Valid()
      ensures pending == Idle
      ensures var html := CallWebhook(resp, fallback); var c := old(pending).captured;
        if |html| <= c then
          State() == Completed(old(State()), html) && interval == Stopped
          && codeUpdates == old(codeUpdates) + [(html, true)]
        else
          State() == old(State()).(isTyping := true) && interval == Running(html, c, |html|, true)
          && codeUpdates == old(codeUpdates)
    {
      var html, c := CallWebhook(resp, fallback), pending.captured;
      FinishTyping(html, c);
      pending := Idle;
    }

    /**
     * The synchronous half of `sendChatMessage`: exactly one user message
     * is appended, stage chat-refine, code tab, typing. The locks are
     * neither checked nor changed. The chat panel only sends a non-empty
     * message, and not while processing.
     */
    method SendChat(message: string, id: string)
      requires Valid() && pending == Idle
      requires message != [] && !IsProcessing()
      modifies this`chatMessages, this`stage, this`currentTab, this`isTyping, this`pending
      ensures Valid()
      ensures State() == old(State()).(chatMessages := old(chatMessages) + [ChatMessage(id, User, message)],
                                       stage := ChatRefine, currentTab := Code, isTyping := true)
      ensures pending == AwaitE(|displayedCode|)
    {
      chatMessages := chatMessages + [ChatMessage(id, User, message)];
      stage, currentTab, isTyping := ChatRefine, Code, true;
      pending := AwaitE(|displayedCode|);
    }

    /** Webhook E answered: the delay timeout is armed. */
    method OnWebhookE()
      requires Valid() && pending.AwaitE?
      modifies this`pending
      ensures Valid()
      ensures pending == DelayF(old(pending).captured)
    {
      pending := DelayF(pending.captured);
    }

    /** The delay before webhook F elapsed; webhook F is called. */
    method OnDelayBeforeF()
      requires Valid() && pending.DelayF?
      modifies this`pending
      ensures Valid()
      ensures pending == AwaitF(old(pending).captured)
    {
      pending := AwaitF(pending.captured);
    }

    /**
     * Webhook F answered, as written: one assistant message is appended,
     * the code is reset and replaced, a full interval starts from the
     * captured length, and `onNewVersion` is called once. The stage stays
     * chat-refine. When the new document is no longer than the captured
     * length, it is shown at once and `isTyping` stays set.
     */
    method OnWebhookF(resp: Response, id: string)
      requires Valid() && pending.AwaitF?
      modifies this`chatMessages, this`displayedCode, this`fullCode, this`codeProgress,
               this`isTyping, this`interval, this`pending, this`newVersions
      ensures Valid()
      ensures var html := CallWebhook(resp, fallback); var c := old(pending).captured;
        && chatMessages == old(chatMessages) + [ChatMessage(id, Assistant, RefineReply)]
        && fullCode == html && codeProgress == 0.0 && pending == Idle
        && newVersions == old(newVersions) + [html]
        && (|html| <= c ==> displayedCode == html && interval == Stopped && isTyping == old(isTyping))
        && (c < |html| ==> displayedCode == "" && interval == Running(html, c, |html|, false) && isTyping)
    {
      var html, c := CallWebhook(resp, fallback), pending.captured;
      chatMessages := chatMessages + [ChatMessage(id, Assistant, RefineReply)];
      displayedCode, fullCode, codeProgress := "", html, 0.0;
      StartTyping(html, RefinePercent, c);
      assert html[..|html|] == html;
      newVersions := newVersions + [html];
      pending := Idle;
    }

    /**
     * Webhook F answered, as evidently intended: the interval starts from the
     * length just reset (zero), and an empty document ends typing at once.
     * Afterwards typing goes on exactly while the interval runs.
     */
    method OnWebhookFFromReset(resp: Response, id: string)
      requires Valid() && pending.AwaitF?
      modifies this`chatMessages, this`displayedCode, this`fullCode, this`codeProgress,
               this`isTyping, this`interval, this`pending, this`newVersions
      ensures Valid()
      ensures var html := CallWebhook(resp, fallback);
        && chatMessages == old(chatMessages) + [ChatMessage(id, Assistant, RefineReply)]
        && fullCode == html && codeProgress == 0.0 && displayedCode == "" && pending == Idle
        && newVersions == old(newVersions) + [html]
        && isTyping == interval.Running?
        && interval == (if html == [] then Stopped else Running(html, 0, |html|, false))
    {
      var html := CallWebhook(resp, fallback);
      chatMessages := chatMessages + [ChatMessage(id, Assistant, RefineReply)];
      displayedCode, fullCode, codeProgress := "", html, 0.0;
      StartTyping(html, RefinePercent, 0);
      if interval.Stopped? {
        isTyping := false;
      }
      newVersions := newVersions + [html];
      pending := Idle;
    }
  }

  // ---------------------------------------------------------------------
  // Runs of the state machine
  // ---------------------------------------------------------------------

  /**
   * As written: webhook C answers before the 75% reveal ends (the reveal
   * lasts five minutes). The last tick's `clearTypingTimers` cancels the
   * armed delay, so webhook D is never called: the run is left at stage
   * webhook-c with both panels locked and nothing pending.
   */
  method DelayCancelledRun() returns (stage: Stage, pending: Pending, locked: bool, typing: bool)
    ensures stage == WebhookC && pending == Idle && locked && !typing
  {
    var w := new Workspace("ab");
    w.StartRedesign();
    w.OnWebhookA(Threw);
    w.OnWebhookB();
    w.OnWebhookC();
    assert w.interval == Running("ab", 0, 1, false);
    w.Tick();
    stage, pending, locked, typing := w.stage, w.pending, w.isPreviewLocked, w.isTyping;
  }

  /**
   * With the intended tick, a run whose every webhook call fails ends in
   * the complete state on the fallback document, however long that is,
   * even when webhook C answers before the 75% reveal ends.
   */
  method FailingGatewayRun(mock: string) returns (final: WorkspaceState, updates: seq<(string, bool)>)
    ensures final == WorkspaceState(Preview, 100.0, false, false, false, mock, mock, [], Complete)
    ensures updates == [(mock, true)]
  {
    var w := new Workspace(mock);
    w.StartRedesign();
    w.OnWebhookA(Threw);
    w.OnWebhookB();
    w.OnWebhookC();
    while w.interval.Running?
      invariant w.Valid() && w.fallback == mock
      invariant w.pending == DelayD(0) && w.stage == WebhookC && w.fullCode == mock
      invariant w.chatMessages == [] && w.codeUpdates == []
      invariant w.interval.Running? ==> !w.interval.finishing
      decreases if w.interval.Running? then w.interval.target - w.interval.index else 0
    {
      w.TickKeepingDelay();
    }
    w.OnDelayBeforeD();
    w.OnWebhookD(Threw);
    while w.interval.Running?
      invariant w.Valid() && w.fallback == mock && w.fullCode == mock && w.chatMessages == []
      invariant w.interval.Running? ==> w.interval.finishing && w.interval.code == mock && w.codeUpdates == []
      invariant w.interval.Stopped? ==>
        w.State() == WorkspaceState(Preview, 100.0, false, false, false, mock, mock, [], Complete)
        && w.codeUpdates == [(mock, true)]
      decreases if w.interval.Running? then w.interval.target - w.interval.index else 0
    {
      w.TickKeepingDelay();
    }
    final, updates := w.State(), w.codeUpdates;
  }

  /**
   * A first run on a two-character fallback document in which each reveal
   * ends before the next webhook answers, so no delay is ever cancelled.
   */
  method CompletedRun() returns (w: Workspace)
    ensures fresh(w) && w.Valid() && w.fallback == "ab"
    ensures w.State() == WorkspaceState(Preview, 100.0, false, false, false, "ab", "ab", [], Complete)
    ensures w.interval == Stopped && w.pending == Idle
    ensures w.codeUpdates == [("ab", true)] && w.newVersions == []
  {
    w := SlowPhaseRun();
    w.OnWebhookB();
    w.OnWebhookC();
    w.OnDelayBeforeD();
    w.OnWebhookD(Threw);
    assert w.interval == Running("ab", 0, 2, true);
    w.Tick();
    assert w.interval == Running("ab", 1, 2, true) && w.codeUpdates == [];
    w.Tick();
  }

  /** The start of that run: webhook A has answered and the 75% reveal (one character) is over. */
  method SlowPhaseRun() returns (w: Workspace)
    ensures fresh(w) && w.Valid() && w.fallback == "ab"
    ensures w.State() == WorkspaceState(Code, 50.0, true, true, false, "a", "ab", [], WebhookB)
    ensures w.interval == Stopped && w.pending == AwaitB(0)
    ensures w.codeUpdates == [] && w.newVersions == []
  {
    w := new Workspace("ab");
    w.StartRedesign();
    w.OnWebhookA(Threw);
    assert TargetLength(2, SlowPercent) == 1;
    assert w.interval == Running("ab", 0, 1, false);
    w.Tick();
    assert Progress(1, 2) == 50.0;
  }

  /**
   * As written: after a completed run showing a two-character document, a
   * refinement that returns a document of the same length takes the early
   * return of `startTypingAnimation`. Nothing ticks, `isTyping` stays set
   * and the stage stays chat-refine, so the chat stays processing.
   */
  method StaleRefineRun() returns (processing: bool, ticking: bool)
    ensures processing && !ticking
  {
    var w := CompletedRun();
    w.SendChat("make it blue", "m1");
    assert w.pending == AwaitE(2);
    w.OnWebhookE();
    w.OnDelayBeforeF();
    w.OnWebhookF(Threw, "m2");
    processing, ticking := w.IsProcessing(), w.interval.Running?;
  }

  /** One refinement with the intended refine step, on the two-character fallback. */
  method Refine(w: Workspace, message: string, userId: string, replyId: string)
    requires w.Valid() && w.fallback == "ab" && w.pending == Idle && !w.IsProcessing()
    requires w.interval == Stopped && message != []
    modifies w
    ensures w.Valid() && w.fallback == "ab" && w.pending == Idle && !w.IsProcessing()
    ensures w.interval == Stopped
    ensures w.chatMessages == old(w.chatMessages)
      + [ChatMessage(userId, User, message), ChatMessage(replyId, Assistant, RefineReply)]
    ensures w.newVersions == old(w.newVersions) + ["ab"]
  {
    w.SendChat(message, userId);
    w.OnWebhookE();
    w.OnDelayBeforeF();
    w.OnWebhookFFromReset(Threw, replyId);
    assert w.interval == Running("ab", 0, 2, false);
    w.TickKeepingDelay();
    w.TickKeepingDelay();
  }

  /**
   * With the intended refine step, two refinements in a row each end with
   * the chat available again; the chat then holds user, assistant, user,
   * assistant, and two new versions were reported in order.
   */
  method TwoRefinesRun() returns (roles: seq<Role>, versions: seq<string>, processing: bool)
    ensures roles == [User, Assistant, User, Assistant]
    ensures versions == ["ab", "ab"]
    ensures !processing
  {
    var w := CompletedRun();
    Refine(w, "make it blue", "m1", "m2");
    Refine(w, "bigger title", "m3", "m4");
    var msgs := w.chatMessages;
    assert |msgs| == 4;
    roles := [msgs[0].role, msgs[1].role, msgs[2].role, msgs[3].role];
    versions, processing := w.newVersions, w.IsProcessing();
  }
}
