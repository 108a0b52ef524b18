/**
 * The news ticker's rotation and fade engine as functions on a snapshot of
 * its state. Each function specifies a NewsTickerView method: the method's
 * new state is the function of its old state. Most share the method's name;
 * the lifecycle ones are shorter (OnAttached, OnDetached, Restore,
 * SetListener, DeliverRotation, DeliverFade). Rendering, intents and
 * listener calls appear as events.
 */
module TickerModel {
  import opened JavaLang
  import Utils
  import opened Messages
  import News

  /** Milliseconds between two fade ticks. */
  const FadeAnimationRate: int := 33
  /** Seconds a fade lasts. */
  const FadeTime: int := 1
  /** The tick period in seconds. */
  const FadeAnimationRateSecs: real := FadeAnimationRate as real / 1000.0
  /** Alpha change per tick: the tick period over the fade time. */
  const FadeStep: real := FadeAnimationRateSecs / FadeTime as real
  /** Move events after which a touch release is a swipe. */
  const MoveActionThreshold: int := 3

  /** Message codes of the fade handler and of the rotation handler. */
  const FadeOutCode: int := 0
  const FadeInCode: int := 1
  const RotationCode: int := 0

  /** Motion event actions as the platform numbers them; -1 stands for none. */
  const ActionDown: int32 := 0
  const ActionUp: int32 := 1
  const ActionMove: int32 := 2
  const NoMotion: int32 := -1

  /** What the widget does to the outside world. */
  datatype Event =
    | SetText(text: string)
    | SetTextColor(color: bv32)
    | OpenLink(url: string)
    | NewsTap
    | NewsTapFailed
    | NewsFailed

  /** Values fixed when the widget is created from its layout attributes. */
  datatype Config = Config(loadingErrorText: string, noNewsText: string, enableTimeLine: bool)

  datatype TickerState = TickerState(
    config: Config,
    newsList: Option<seq<News.NewsHolder?>>,
    index: int32,
    fadeAlpha: real,
    detached: bool,
    loading: bool,
    loadingError: bool,
    lastMotionEvent: int32,
    numMoveEvent: int32,
    textColor: bv32,
    timeToHandle: int,
    hasListener: bool,
    rotationPending: seq<Message>,
    fadePending: seq<Message>,
    events: seq<Event>)

  /** The result of a handler that may let an exception escape to the platform. */
  datatype Step = Step(state: TickerState, thrown: bool)

  /** What the touch listener returns: handled or not, or an escaping exception. */
  datatype TouchResult = TouchResult(state: TickerState, handled: bool, thrown: bool)

  /** The state right after construction: `init()` clears the text. */
  function Initial(config: Config, textColor: bv32): (r: TickerState)
  {
    TickerState(config, None, -1, 1.0, false, false, false, NoMotion, 0, textColor, 0,
                false, [], [], [SetText("")])
  }

  /**
   * At most one message is pending on each handler, the rotation handler
   * only ever holds code 0 and the fade handler only the two fade codes.
   */
  ghost predicate QueuesValid(s: TickerState)
  {
    |s.rotationPending| <= 1 &&
    (s.rotationPending != [] ==> s.rotationPending[0].what == RotationCode) &&
    |s.fadePending| <= 1 &&
    (s.fadePending != [] ==> s.fadePending[0].what in {FadeOutCode, FadeInCode})
  }

  /** The text a TextView shows for a possibly null string. */
  function TextOf(text: Option<string>): (r: string)
  {
    if text.Some? then text.value else ""
  }

  function Emit(s: TickerState, e: Event): (r: TickerState)
  {
    s.(events := s.events + [e])
  }

  predicate HasNews(s: TickerState)
  {
    s.newsList.Some? && |s.newsList.value| > 0
  }

  predicate ShowTimeLine(s: TickerState)
  {
    s.config.enableTimeLine && HasNews(s)
  }

  /** The three conditions under which `changeNews` acts. */
  predicate CanChangeNews(s: TickerState)
  {
    !s.detached && !s.loading && HasNews(s)
  }

  /** `mIndex++; mIndex = mIndex % size` in Java int arithmetic. */
  function NextIndex(index: int32, size: nat): (r: int32)
    requires size > 0
  {
    JavaRem(Wrap32(index as int + 1), size)
  }

  /** `(mTime - FADE_TIME) * 1000`: how long an item is held at full alpha. */
  function HoldMillis(time: int32): (r: int32)
  {
    Wrap32((time as int - FadeTime) * 1000)
  }

  /** `(mTime + FADE_TIME * 2) * 1000`: the whole time an item is on screen. */
  function TimeToHandle(time: int32): (r: int32)
  {
    Wrap32((time as int + FadeTime * 2) * 1000)
  }

  /** `updateTextAlpha`: the current text colour with the current alpha. */
  function UpdateTextAlpha(s: TickerState): (r: TickerState)
  {
    var c := Utils.CombineColor(s.textColor, s.fadeAlpha);
    s.(textColor := c, events := s.events + [SetTextColor(c)])
  }

  /** Both fade codes removed from the fade handler. */
  function ClearFade(queue: seq<Message>): (r: seq<Message>)
  {
    Without(Without(queue, FadeOutCode), FadeInCode)
  }

  /** `FadeAnimationHandler.startAnimation(code)`. */
  function StartAnimation(s: TickerState, code: int): (r: TickerState)
  {
    s.(fadePending := ClearFade(s.fadePending) + [Message(code, 0)])
  }

  /** `FadeAnimationHandler.sleep(code)`: the next tick. */
  function FadeSleep(s: TickerState, code: int): (r: TickerState)
  {
    s.(fadePending := ClearFade(s.fadePending) + [Message(code, FadeAnimationRate)])
  }

  function StartFadeIn(s: TickerState): (r: TickerState)
  {
    StartAnimation(UpdateTextAlpha(s.(fadeAlpha := 0.0)), FadeInCode)
  }

  function StartFadeOut(s: TickerState): (r: TickerState)
  {
    StartAnimation(UpdateTextAlpha(s.(fadeAlpha := 1.0)), FadeOutCode)
  }

  /** `NewsTickerHandler.sleep(millis)`: the hold timer. */
  function RotationSleep(s: TickerState, millis: int): (r: TickerState)
  {
    s.(rotationPending := Without(s.rotationPending, RotationCode) + [Message(RotationCode, millis)])
  }

  function OnStartLoading(s: TickerState): (r: TickerState)
  {
    s.(loading := true)
  }

  function OnStopLoading(s: TickerState): (r: TickerState)
  {
    s.(loading := false)
  }

  function OnNoNewsFound(s: TickerState): (r: TickerState)
  {
    s.(loadingError := true, loading := false, events := s.events + [SetText(s.config.noNewsText)])
  }

  /** `onNewsLoadingFailed(errorText)`; an empty text selects the configured error text. */
  function OnNewsLoadingFailed(s: TickerState, errorText: string): (r: TickerState)
  {
    var text := if errorText != "" then errorText else s.config.loadingErrorText;
    var s1 := OnStopLoading(s.(loadingError := true, loading := false,
                               events := s.events + [SetText(text)]));
    if s1.hasListener then Emit(s1, NewsFailed) else s1
  }

  /** The rotation step. A failed lookup is caught and reported as a loading failure. */
  function ChangeNews(s: TickerState): (r: TickerState)
  {
    if !CanChangeNews(s) then s
    else
      var list := s.newsList.value;
      var s1 := s.(index := NextIndex(s.index, |list|));
      if !(0 <= s1.index as int < |list|) || list[s1.index as int] == null then
        OnNewsLoadingFailed(s1, "")
      else
        ShowItem(s1, list[s1.index as int])
  }

  /** The item found by the rotation step: its text, a fade-in, and its time line. */
  function ShowItem(s: TickerState, h: News.NewsHolder): (r: TickerState)
  {
    ApplyTimeLine(StartFadeIn(Emit(s, SetText(TextOf(h.news)))), h)
  }

  /** The end of the rotation step: the item's time, when the time line is shown, and loading off. */
  function ApplyTimeLine(s: TickerState, h: News.NewsHolder): (r: TickerState)
  {
    if ShowTimeLine(s) then
      if h.time.None? then OnNewsLoadingFailed(s, "")
      else OnStopLoading(s.(timeToHandle := TimeToHandle(h.time.value) as int))
    else OnStopLoading(s)
  }

  /** Fade-in finished: full alpha, then the hold timer for the current item. */
  function FadedIn(s: TickerState): (r: Step)
  {
    if s.detached then Step(s, false)
    else
      var s1 := UpdateTextAlpha(s.(fadeAlpha := 1.0));
      if !HasNews(s1) then Step(s1, false)
      else
        var list := s1.newsList.value;
        if !(0 <= s1.index as int < |list|) then Step(s1, true)
        else if list[s1.index as int] == null then Step(s1, false)
        else if list[s1.index as int].time.None? then Step(s1, true)
        else Step(RotationSleep(s1, HoldMillis(list[s1.index as int].time.value) as int), false)
  }

  function FadedOut(s: TickerState): (r: TickerState)
  {
    if s.detached then s else ChangeNews(s)
  }

  /** `NewsTickerHandler.handleMessage`: the hold is over, fade out. */
  function HandleRotationMessage(s: TickerState): (r: TickerState)
  {
    if s.detached then s else StartFadeOut(s)
  }

  /** `FadeAnimationHandler.handleMessage`: one fade tick. */
  function HandleFadeMessage(s: TickerState, what: int): (r: Step)
  {
    if s.detached then Step(s, false)
    else
      var direction: real := if what == FadeInCode then 1.0 else -1.0;
      EndTick(UpdateTextAlpha(s.(fadeAlpha := s.fadeAlpha + FadeStep * direction)), what)
  }

  /** The end of a fade tick, once its alpha is shown: the fade is over, or the next tick. */
  function EndTick(s: TickerState, what: int): (r: Step)
  {
    if s.fadeAlpha <= 0.0 && what == FadeOutCode then Step(FadedOut(s), false)
    else if s.fadeAlpha >= 1.0 && what == FadeInCode then FadedIn(s)
    else Step(FadeSleep(s, what), false)
  }

  /** The message loop delivering the pending hold-timer message, if any. */
  function DeliverRotation(s: TickerState): (r: TickerState)
  {
    if s.rotationPending == [] then s
    else HandleRotationMessage(s.(rotationPending := s.rotationPending[1..]))
  }

  /** The message loop delivering the pending fade message, if any. */
  function DeliverFade(s: TickerState): (r: Step)
  {
    if s.fadePending == [] then Step(s, false)
    else HandleFadeMessage(s.(fadePending := s.fadePending[1..]), s.fadePending[0].what)
  }

  /** An empty list is an error; a null one is not, and the index is kept. */
  function SetNews(s: TickerState, list: Option<seq<News.NewsHolder?>>): (r: TickerState)
  {
    var s1 := s.(newsList := list, loading := false, loadingError := false);
    ChangeNews(if list.Some? && |list.value| == 0 then OnNewsLoadingFailed(s1, s1.config.noNewsText) else s1)
  }

  /** A tap: in error mode the tap-failed callback, otherwise open the current link. */
  function Tap(s: TickerState): (r: Step)
  {
    if s.loadingError then
      Step(if s.hasListener then Emit(s, NewsTapFailed) else s, false)
    else if HasNews(s) && 0 <= s.index as int < |s.newsList.value| then
      var h := s.newsList.value[s.index as int];
      if h == null then Step(s, true)
      else if h.link.Some? && |h.link.value| > 0 then
        var s1 := Emit(s, OpenLink(h.link.value));
        Step(if s1.hasListener then Emit(s1, NewsTap) else s1, false)
      else Step(s, false)
    else Step(s, false)
  }

  function ResetMotion(s: TickerState): (r: TickerState)
  {
    s.(lastMotionEvent := NoMotion, numMoveEvent := 0)
  }

  /** The touch listener. */
  function OnTouch(s: TickerState, action: int32): (r: TouchResult)
  {
    if s.loading then TouchResult(s, false, false)
    else if action == ActionDown || action == ActionMove then
      var moves := if action == ActionMove then Wrap32(s.numMoveEvent as int + 1) else s.numMoveEvent;
      TouchResult(s.(lastMotionEvent := action, numMoveEvent := moves), false, false)
    else if action == ActionUp then ReleaseTouch(s)
    else TouchResult(s, false, false)
  }

  /** The touch release case of the touch listener: a tap, a swipe, or neither. */
  function ReleaseTouch(s: TickerState): (r: TouchResult)
  {
    if s.lastMotionEvent == ActionDown || (s.numMoveEvent as int) < MoveActionThreshold then
      var t := Tap(s);
      if t.thrown then TouchResult(t.state, false, true)
      else TouchResult(ResetMotion(t.state), true, false)
    else if s.lastMotionEvent == ActionMove then
      TouchResult(ResetMotion(ChangeNews(s)), true, false)
    else TouchResult(ResetMotion(s), false, false)
  }

  /** Detaching stops both handlers. */
  function OnDetached(s: TickerState): (r: TickerState)
  {
    s.(detached := true,
       rotationPending := Without(s.rotationPending, RotationCode),
       fadePending := Without(Without(s.fadePending, FadeInCode), FadeOutCode))
  }

  function OnAttached(s: TickerState): (r: TickerState)
  {
    ChangeNews(s)
  }

  /**
   * Restoring sets the index one before the saved one; a state that is not
   * the widget's own saved state leaves it alone.
   */
  function Restore(s: TickerState, saved: Option<int32>): (r: TickerState)
  {
    if saved.None? then s else s.(index := Wrap32(saved.value as int - 1))
  }

  function SetListener(s: TickerState, present: bool): (r: TickerState)
  {
    s.(hasListener := present)
  }
}
