/**
 * The news ticker widget as an object: its fields, its two message
 * handlers, and one method per operation. Every method that changes the
 * widget leaves it in the state its TickerModel function gives for the
 * state it started from, and keeps at most one message pending per handler.
 * Most functions share their method's name; the others are OnAttached,
 * OnDetached, Restore, SetListener, DeliverRotation and DeliverFade, and
 * OnNewsLoadingFailedDefault is OnNewsLoadingFailed with the text "".
 * OnSaveInstanceState changes nothing and has no such function.
 */
module NewsTicker {
  import opened JavaLang
  import opened Messages
  import opened Parcels
  import opened TickerModel
  import opened TickerProperties
  import Utils
  import News

  /** The state kept across a reconfiguration: the index of the item shown. */
  class SavedState {
    var newsIndex: int32

    /** `SavedState(superState)`; the super state is not part of this model. */
    constructor ()
      ensures newsIndex == 0
    {
      newsIndex := 0;
    }

    constructor FromParcel(p: Parcel)
      modifies p
      ensures p.values == old(p.values)
      ensures (newsIndex, p.pos) == ReadIntAt(old(p.values), old(p.pos))
    {
      var i := p.ReadInt();
      newsIndex := i;
    }

    method WriteToParcel(out: Parcel, flags: int32)
      modifies out
      ensures out.values == old(out.values) + [IntValue(newsIndex)] && out.pos == old(out.pos)
    {
      out.WriteInt(newsIndex);
    }
  }

  /** A saved state written to a fresh Parcel and created again from it holds the same index. */
  method SavedStateRoundTrip(ss: SavedState) returns (copy: SavedState, p: Parcel)
    ensures fresh(copy) && fresh(p)
    ensures copy.newsIndex == ss.newsIndex && p.pos == |p.values| == 1
  {
    p := new Parcel.Obtain();
    ss.WriteToParcel(p, 0);
    ReadIntAfterWrite([], ss.newsIndex, []);
    assert p.values == [] + [IntValue(ss.newsIndex)] + [];
    copy := new SavedState.FromParcel(p);
  }

  /**
   * The platform saving the widget's state and handing the same object back:
   * the index goes one back, wrapping at the smallest int, and nothing else changes.
   */
  method SaveThenRestore(v: NewsTickerView) returns (ss: SavedState)
    requires v.Valid()
    modifies v
    ensures v.Valid() && fresh(ss) && ss.newsIndex == old(v.index)
    ensures old(v.index) as int > IntMin ==> v.State() == old(v.State()).(index := old(v.index) - 1)
    ensures old(v.index) as int == IntMin ==> v.State() == old(v.State()).(index := IntMax as int32)
  {
    ss := v.OnSaveInstanceState();
    v.OnRestoreInstanceState(ss);
    SaveRestore(old(v.State()));
  }

  class NewsTickerView {
    const config: Config
    var newsList: Option<seq<News.NewsHolder?>>
    var index: int32
    var fadeAlpha: real
    var detached: bool
    var loading: bool
    var loadingError: bool
    var lastMotionEvent: int32
    var numMoveEvent: int32
    var textColor: bv32
    var timeToHandle: int
    var hasListener: bool
    var events: seq<Event>
    /** The rotation hold timer (`NewsTickerHandler`). */
    const tickerHandler: Handler
    /** The fade ticks (`FadeAnimationHandler`). */
    const fadeHandler: Handler

    ghost function State(): (r: TickerState)
      reads this, tickerHandler, fadeHandler
    {
      TickerState(config, newsList, index, fadeAlpha, detached, loading, loadingError,
                  lastMotionEvent, numMoveEvent, textColor, timeToHandle, hasListener,
                  tickerHandler.pending, fadeHandler.pending, events)
    }

    ghost predicate Valid()
      reads this, tickerHandler, fadeHandler
    {
      tickerHandler != fadeHandler && QueuesValid(State())
    }

    /** The layout attributes are parameters; `init()` clears the text. */
    constructor (loadingErrorText: string, noNewsText: string, enableTimeLine: bool, textColor: bv32)
      ensures Valid() && fresh(tickerHandler) && fresh(fadeHandler)
      ensures State() == Initial(Config(loadingErrorText, noNewsText, enableTimeLine), textColor)
    {
      config := Config(loadingErrorText, noNewsText, enableTimeLine);
      newsList := None;
      index := -1;
      fadeAlpha := 1.0;
      detached, loading, loadingError := false, false, false;
      lastMotionEvent, numMoveEvent := NoMotion, 0;
      this.textColor := textColor;
      timeToHandle := 0;
      hasListener := false;
      events := [SetText("")];
      tickerHandler := new Handler();
      fadeHandler := new Handler();
    }

    method SetNewActionListener(present: bool)
      requires Valid()
      modifies this
      ensures Valid() && State() == SetListener(old(State()), present)
    {
      hasListener := present;
    }

    method OnRestoreInstanceState(state: SavedState?)
      requires Valid()
      modifies this
      ensures Valid()
      ensures State() == Restore(old(State()), if state == null then None else Some(state.newsIndex))
    {
      if state != null {
        index := Wrap32(state.newsIndex as int - 1);
      }
    }

    method OnSaveInstanceState() returns (ss: SavedState)
      ensures fresh(ss) && ss.newsIndex == index
    {
      ss := new SavedState();
      ss.newsIndex := index;
    }

    method OnAttachedToWindow()
      requires Valid()
      modifies this, fadeHandler
      ensures Valid() && State() == OnAttached(old(State()))
    {
      ChangeNews();
    }

    method OnDetachedFromWindow()
      requires Valid()
      modifies this, tickerHandler, fadeHandler
      ensures Valid() && State() == OnDetached(old(State()))
    {
      OnDetachedKeepsQueuesValid(State());
      detached := true;
      tickerHandler.RemoveMessages(RotationCode);
      fadeHandler.RemoveMessages(FadeInCode);
      fadeHandler.RemoveMessages(FadeOutCode);
    }

    /** The touch listener for one event with the given action. */
    method OnTouch(action: int32) returns (handled: bool, thrown: bool)
      requires Valid()
      modifies this, fadeHandler
      ensures Valid()
      ensures TouchResult(State(), handled, thrown) == TickerModel.OnTouch(old(State()), action)
    {
      handled, thrown := false, false;
      if !loading {
        if action == ActionDown || action == ActionMove {
          lastMotionEvent := action;
          if action == ActionMove {
            numMoveEvent := Wrap32(numMoveEvent as int + 1);
          }
        } else if action == ActionUp {
          handled, thrown := ReleaseTouch();
        }
      }
    }

    /** The touch release case of the touch listener. */
    method ReleaseTouch() returns (handled: bool, thrown: bool)
      requires Valid()
      modifies this, fadeHandler
      ensures Valid()
      ensures TouchResult(State(), handled, thrown) == TickerModel.ReleaseTouch(old(State()))
    {
      handled, thrown := false, false;
      if lastMotionEvent == ActionDown || (numMoveEvent as int) < MoveActionThreshold {
        thrown := Tap();
        if thrown {
          return;
        }
        handled := true;
      } else if lastMotionEvent == ActionMove {
        ChangeNews();
        handled := true;
      }
      lastMotionEvent, numMoveEvent := NoMotion, 0;
    }

    /** The tap branch of the touch listener. */
    method Tap() returns (thrown: bool)
      requires Valid()
      modifies this
      ensures Valid()
      ensures Step(State(), thrown) == TickerModel.Tap(old(State()))
    {
      thrown := false;
      if loadingError {
        if hasListener {
          events := events + [NewsTapFailed];
        }
      } else if newsList.Some? && |newsList.value| > 0 && 0 <= index as int < |newsList.value| {
        var h := newsList.value[index as int];
        if h == null {
          thrown := true;
        } else if h.link.Some? && |h.link.value| > 0 {
          events := events + [OpenLink(h.link.value)];
          if hasListener {
            events := events + [NewsTap];
          }
        }
      }
    }

    method OnStartLoading()
      requires Valid()
      modifies this
      ensures Valid() && State() == TickerModel.OnStartLoading(old(State()))
    {
      loading := true;
    }

    method OnStopLoading()
      requires Valid()
      modifies this
      ensures Valid() && State() == TickerModel.OnStopLoading(old(State()))
    {
      loading := false;
    }

    method SetNews(list: Option<seq<News.NewsHolder?>>)
      requires Valid()
      modifies this, fadeHandler
      ensures Valid() && State() == TickerModel.SetNews(old(State()), list)
    {
      newsList := list;
      loading, loadingError := false, false;
      if list.Some? && |list.value| == 0 {
        OnNewsLoadingFailed(config.noNewsText);
      }
      ChangeNews();
    }

    method OnNoNewsFound()
      requires Valid()
      modifies this
      ensures Valid() && State() == TickerModel.OnNoNewsFound(old(State()))
    {
      loadingError, loading := true, false;
      events := events + [SetText(config.noNewsText)];
    }

    method OnNewsLoadingFailed(errorText: string)
      requires Valid()
      modifies this
      ensures Valid() && State() == TickerModel.OnNewsLoadingFailed(old(State()), errorText)
    {
      loadingError, loading := true, false;
      events := events + [SetText(if errorText != "" then errorText else config.loadingErrorText)];
      OnStopLoading();
      if hasListener {
        events := events + [NewsFailed];
      }
    }

    /** The overload without an argument. */
    method OnNewsLoadingFailedDefault()
      requires Valid()
      modifies this
      ensures Valid() && State() == TickerModel.OnNewsLoadingFailed(old(State()), "")
    {
      OnNewsLoadingFailed("");
    }

    method ChangeNews()
      requires Valid()
      modifies this, fadeHandler
      ensures Valid() && State() == TickerModel.ChangeNews(old(State()))
    {
      ChangeNewsKeepsQueuesValid(State());
      if !detached && !loading && newsList.Some? && |newsList.value| > 0 {
        var list := newsList.value;
        index := NextIndex(index, |list|);
        if !(0 <= index as int < |list|) || list[index as int] == null {
          OnNewsLoadingFailedDefault();
        } else {
          ShowItem(list[index as int]);
        }
      }
    }

    /** The branch of `changeNews` that found an item. */
    method ShowItem(h: News.NewsHolder)
      requires Valid() && HasNews(State())
      modifies this, fadeHandler
      ensures Valid() && State() == TickerModel.ShowItem(old(State()), h)
    {
      events := events + [SetText(TextOf(h.news))];
      StartFadeIn();
      ApplyTimeLine(h);
    }

    /** The end of the found-item branch of `changeNews`. */
    method ApplyTimeLine(h: News.NewsHolder)
      requires Valid() && HasNews(State())
      modifies this
      ensures Valid() && State() == TickerModel.ApplyTimeLine(old(State()), h)
    {
      if config.enableTimeLine {
        if h.time.None? {
          OnNewsLoadingFailedDefault();
        } else {
          timeToHandle := TimeToHandle(h.time.value) as int;
          OnStopLoading();
        }
      } else {
        OnStopLoading();
      }
    }

    method FadedIn() returns (thrown: bool)
      requires Valid()
      modifies this, tickerHandler
      ensures Valid() && Step(State(), thrown) == TickerModel.FadedIn(old(State()))
    {
      FadedInKeepsQueuesValid(State());
      thrown := false;
      if !detached {
        fadeAlpha := 1.0;
        UpdateTextAlpha();
        if newsList.Some? && |newsList.value| > 0 {
          var list := newsList.value;
          if !(0 <= index as int < |list|) {
            thrown := true;
          } else if list[index as int] != null {
            var h := list[index as int];
            if h.time.None? {
              thrown := true;
            } else {
              RotationSleep(HoldMillis(h.time.value) as int);
            }
          }
        }
      }
    }

    method FadedOut()
      requires Valid()
      modifies this, fadeHandler
      ensures Valid() && State() == TickerModel.FadedOut(old(State()))
    {
      if !detached {
        ChangeNews();
      }
    }

    method UpdateTextAlpha()
      requires Valid()
      modifies this
      ensures Valid() && State() == TickerModel.UpdateTextAlpha(old(State()))
    {
      var c := Utils.CombineColor(textColor, fadeAlpha);
      textColor := c;
      events := events + [SetTextColor(c)];
    }

    // NewsTickerHandler

    method RotationSleep(millis: int)
      requires Valid()
      modifies tickerHandler
      ensures Valid() && State() == TickerModel.RotationSleep(old(State()), millis)
    {
      RotationSleepSingle(State(), millis);
      tickerHandler.RemoveMessages(RotationCode);
      tickerHandler.SendMessageDelayed(RotationCode, millis);
    }

    method HandleRotationMessage()
      requires Valid()
      modifies this, fadeHandler
      ensures Valid() && State() == TickerModel.HandleRotationMessage(old(State()))
    {
      if !detached {
        StartFadeOut();
      }
    }

    // FadeAnimationHandler

    method StartAnimation(code: int)
      requires Valid() && code in {FadeOutCode, FadeInCode}
      modifies fadeHandler
      ensures Valid() && State() == TickerModel.StartAnimation(old(State()), code)
    {
      ClearFadeEmpty(fadeHandler.pending);
      fadeHandler.RemoveMessages(FadeOutCode);
      fadeHandler.RemoveMessages(FadeInCode);
      fadeHandler.SendMessage(code);
    }

    method FadeSleep(code: int)
      requires Valid() && code in {FadeOutCode, FadeInCode}
      modifies fadeHandler
      ensures Valid() && State() == TickerModel.FadeSleep(old(State()), code)
    {
      ClearFadeEmpty(fadeHandler.pending);
      fadeHandler.RemoveMessages(FadeOutCode);
      fadeHandler.RemoveMessages(FadeInCode);
      fadeHandler.SendMessageDelayed(code, FadeAnimationRate);
    }

    method StartFadeIn()
      requires Valid()
      modifies this, fadeHandler
      ensures Valid() && State() == TickerModel.StartFadeIn(old(State()))
    {
      fadeAlpha := 0.0;
      UpdateTextAlpha();
      StartAnimation(FadeInCode);
    }

    method StartFadeOut()
      requires Valid()
      modifies this, fadeHandler
      ensures Valid() && State() == TickerModel.StartFadeOut(old(State()))
    {
      fadeAlpha := 1.0;
      UpdateTextAlpha();
      StartAnimation(FadeOutCode);
    }

    method HandleFadeMessage(what: int) returns (thrown: bool)
      requires Valid() && what in {FadeOutCode, FadeInCode}
      modifies this, tickerHandler, fadeHandler
      ensures Valid() && Step(State(), thrown) == TickerModel.HandleFadeMessage(old(State()), what)
    {
      thrown := false;
      if !detached {
        var direction: real := if what == FadeInCode then 1.0 else -1.0;
        fadeAlpha := fadeAlpha + FadeStep * direction;
        UpdateTextAlpha();
        thrown := EndTick(what);
      }
    }

    /** The end of a fade tick. */
    method EndTick(what: int) returns (thrown: bool)
      requires Valid() && what in {FadeOutCode, FadeInCode}
      modifies this, tickerHandler, fadeHandler
      ensures Valid() && Step(State(), thrown) == TickerModel.EndTick(old(State()), what)
    {
      thrown := false;
      if fadeAlpha <= 0.0 && what == FadeOutCode {
        FadedOut();
      } else if fadeAlpha >= 1.0 && what == FadeInCode {
        thrown := FadedIn();
      } else {
        FadeSleep(what);
      }
    }

    // The message loop

    /** Delivers the pending hold-timer message, if there is one. */
    method DeliverRotationMessage()
      requires Valid()
      modifies this, tickerHandler, fadeHandler
      ensures Valid() && State() == DeliverRotation(old(State()))
    {
      var m := tickerHandler.TakeNext();
      if m.Some? {
        HandleRotationMessage();
      }
    }

    /** Delivers the pending fade message, if there is one. */
    method DeliverFadeMessage() returns (thrown: bool)
      requires Valid()
      modifies this, tickerHandler, fadeHandler
      ensures Valid() && Step(State(), thrown) == DeliverFade(old(State()))
    {
      var m := fadeHandler.TakeNext();
      if m.Some? {
        thrown := HandleFadeMessage(m.value.what);
      } else {
        thrown := false;
      }
    }
  }
}
