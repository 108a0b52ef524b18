/** What the rotation and fade engine promises, proved about its specification. */
module TickerProperties {
  import opened JavaLang
  import opened Messages
  import opened TickerModel
  import News
  import Utils

  // ---------------------------------------------------------------------
  // Index arithmetic

  /**
   * From any index at or above -1 the step lands on a valid list index, the
   * successor modulo size. This includes an index at or past the end, as
   * `setNews` leaves it after a shorter list replaces a longer one.
   */
  lemma NextIndexInRange(index: int32, size: nat)
    requires 0 < size && -1 <= index as int < IntMax
    ensures 0 <= NextIndex(index, size) as int < size
    ensures NextIndex(index, size) as int == (index as int + 1) % size
  {
    var a := Wrap32(index as int + 1);
    assert a as int == index as int + 1;
  }

  /**
   * At the largest int the increment wraps to the smallest one, and the
   * truncating `%` gives an index the list rejects (or 0 when size divides 2^31).
   */
  lemma NextIndexAtIntMax(size: nat)
    requires size > 0
    ensures NextIndex(IntMax as int32, size) as int == -((0x8000_0000) % size)
    ensures NextIndex(IntMax as int32, size) <= 0
  {
    assert Wrap32(IntMax + 1) as int == IntMin;
  }

  /**
   * Java's truncating `%` on a dividend of -1: a list of one item gives 0,
   * a longer one gives -1, which the list rejects.
   */
  lemma NextIndexFromMinusTwo(size: nat)
    requires size > 0
    ensures NextIndex(-2, size) == if size == 1 then 0 else -1
  {
  }

  /** `changeNews` applied k times. */
  ghost function ChangeNewsTimes(s: TickerState, k: nat): (r: TickerState)
  {
    if k == 0 then s else ChangeNews(ChangeNewsTimes(s, k - 1))
  }

  /** Whatever an acting step shows, it keeps the guard true and moves the index by NextIndex. */
  lemma ChangeNewsStep(s: TickerState)
    requires CanChangeNews(s)
    ensures CanChangeNews(ChangeNews(s))
    ensures ChangeNews(s).newsList == s.newsList
    ensures ChangeNews(s).index == NextIndex(s.index, |s.newsList.value|)
  {
    var list := s.newsList.value;
    var s1 := s.(index := NextIndex(s.index, |list|));
    if !(0 <= s1.index as int < |list|) || list[s1.index as int] == null {
      assert ChangeNews(s) == OnNewsLoadingFailed(s1, "");
    } else {
      var s2 := StartFadeIn(Emit(s1, SetText(TextOf(list[s1.index as int].news))));
      assert ChangeNews(s) == ApplyTimeLine(s2, list[s1.index as int]);
      ApplyTimeLineFrame(s2, list[s1.index as int]);
    }
  }

  /** Where the rotation started at -1 stands after k + 1 steps. */
  ghost predicate RotationAt(s: TickerState, t: TickerState, k: nat)
  {
    CanChangeNews(t) && t.newsList == s.newsList && |s.newsList.value| > 0 &&
    t.index as int == k % |s.newsList.value|
  }

  /** One more step of the rotation moves to the next index modulo the list size. */
  lemma RotationStep(s: TickerState, t: TickerState, k: nat)
    requires RotationAt(s, t, k) && |s.newsList.value| <= IntMax
    ensures RotationAt(s, ChangeNews(t), k + 1)
  {
    var n := |s.newsList.value|;
    ChangeNewsStep(t);
    NextIndexInRange(t.index, n);
    ModSuccessor(k, n);
  }

  /** Repeated steps from -1 visit 0, 1, ..., n-1, 0, ...: the (k+1)-th shows index k mod n. */
  lemma {:induction false} RotationIsCyclic(s: TickerState, k: nat)
    requires CanChangeNews(s) && s.index == -1 && |s.newsList.value| <= IntMax
    ensures RotationAt(s, ChangeNewsTimes(s, k + 1), k)
  {
    if k == 0 {
      ChangeNewsStep(s);
      NextIndexInRange(s.index, |s.newsList.value|);
    } else {
      RotationIsCyclic(s, k - 1);
      RotationStep(s, ChangeNewsTimes(s, k), k - 1);
    }
  }

  lemma ModSuccessor(k: nat, n: nat)
    requires n > 0
    ensures ((k % n) + 1) % n == (k + 1) % n
  {
    if k >= n {
      ModSuccessor(k - n, n);
      ModShift(k - n, n);
      ModShift(k + 1 - n, n);
    }
  }

  lemma ModShift(a: nat, n: nat)
    requires n > 0
    ensures (a + n) % n == a % n
  {
    assert a + n == n * (a / n + 1) + a % n;
    ModUnique(a + n, n, a / n + 1, a % n);
  }

  /** The remainder is determined by any decomposition `x == n * q + r` with `0 <= r < n`. */
  lemma ModUnique(x: int, n: int, q: int, r: int)
    requires n > 0 && x == n * q + r && 0 <= r < n
    ensures x % n == r
  {
    var q', r' := x / n, x % n;
    assert x == n * q' + r';
    if q > q' {
      MulAtLeast(n, q - q');
      assert false;
    } else if q < q' {
      MulAtLeast(n, q' - q);
      assert false;
    }
  }

  lemma MulAtLeast(n: int, d: int)
    requires n > 0 && d >= 1
    ensures n * d >= n
    decreases d
  {
    if d > 1 {
      MulAtLeast(n, d - 1);
      assert n * d == n * (d - 1) + n;
    }
  }

  // ---------------------------------------------------------------------
  // The rotation step

  /** Unless not detached, not loading and with news, `changeNews` changes nothing. */
  lemma ChangeNewsGuard(s: TickerState)
    requires !CanChangeNews(s)
    ensures ChangeNews(s) == s
  {
  }

  /**
   * The time-line part of a step: only loading, the error flag, the time to
   * handle and the events change, and the events only grow.
   */
  lemma ApplyTimeLineFrame(s: TickerState, h: News.NewsHolder)
    ensures var r := ApplyTimeLine(s, h);
            r == s.(loading := false, loadingError := r.loadingError, timeToHandle := r.timeToHandle, events := r.events) &&
            |r.events| >= |s.events| && r.events[..|s.events|] == s.events
  {
  }

  /** With the time line on, an item without a time is a loading failure; with a time it sets the time to handle. */
  lemma ApplyTimeLineEffect(s: TickerState, h: News.NewsHolder)
    requires HasNews(s)
    ensures var r := ApplyTimeLine(s, h);
            (!s.config.enableTimeLine || h.time.Some? ==> r.loadingError == s.loadingError) &&
            (s.config.enableTimeLine && h.time.None? ==> r.loadingError) &&
            (s.config.enableTimeLine && h.time.Some? ==> r.timeToHandle == TimeToHandle(h.time.value) as int)
  {
  }

  /** Showing an item: its text, the colour at alpha 0 and one pending fade-in message, then the time line. */
  lemma ShowItemEffect(s: TickerState, h: News.NewsHolder)
    requires QueuesValid(s)
    ensures var r := ShowItem(s, h);
            r.index == s.index && r.newsList == s.newsList && r.detached == s.detached && !r.loading &&
            r.rotationPending == s.rotationPending &&
            r.fadeAlpha == 0.0 && r.fadePending == [Message(FadeInCode, 0)] &&
            |r.events| >= |s.events| + 2 &&
            r.events[..|s.events| + 2] ==
              s.events + [SetText(TextOf(h.news)), SetTextColor(Utils.CombineColor(s.textColor, 0.0))]
  {
    ClearFadeEmpty(s.fadePending);
    var s1 := StartFadeIn(Emit(s, SetText(TextOf(h.news))));
    assert s1.events == s.events + [SetText(TextOf(h.news)), SetTextColor(Utils.CombineColor(s.textColor, 0.0))];
    ApplyTimeLineFrame(s1, h);
  }

  /**
   * An acting step on a non-null item shows its text, starts a fade-in from
   * alpha 0 with one pending fade-in message, leaves the hold timer alone and
   * clears the loading flag.
   */
  lemma ChangeNewsShowsItem(s: TickerState)
    requires CanChangeNews(s) && QueuesValid(s)
    requires var i := NextIndex(s.index, |s.newsList.value|);
             0 <= i as int < |s.newsList.value| && s.newsList.value[i as int] != null
    ensures var i := NextIndex(s.index, |s.newsList.value|);
            var h := s.newsList.value[i as int];
            var r := ChangeNews(s);
            r.index == i && !r.loading &&
            |r.events| >= |s.events| + 2 &&
            r.events[..|s.events| + 2] ==
              s.events + [SetText(TextOf(h.news)), SetTextColor(Utils.CombineColor(s.textColor, 0.0))] &&
            r.fadeAlpha == 0.0 &&
            r.fadePending == [Message(FadeInCode, 0)] &&
            r.rotationPending == s.rotationPending &&
            (!s.config.enableTimeLine || h.time.Some? ==> r.loadingError == s.loadingError) &&
            (s.config.enableTimeLine && h.time.None? ==> r.loadingError) &&
            (s.config.enableTimeLine && h.time.Some? ==> r.timeToHandle == TimeToHandle(h.time.value) as int)
  {
    var i := NextIndex(s.index, |s.newsList.value|);
    var s1 := s.(index := i);
    var h := s.newsList.value[i as int];
    assert ChangeNews(s) == ShowItem(s1, h);
    ShowItemEffect(s1, h);
    ApplyTimeLineEffect(StartFadeIn(Emit(s1, SetText(TextOf(h.news)))), h);
  }

  /**
   * A step whose index the list rejects, or that finds a null item, keeps
   * the stepped index and routes to `onNewsLoadingFailed()` without fading.
   */
  lemma ChangeNewsFailure(s: TickerState)
    requires CanChangeNews(s)
    requires var i := NextIndex(s.index, |s.newsList.value|);
             !(0 <= i as int < |s.newsList.value|) || s.newsList.value[i as int] == null
    ensures var r := ChangeNews(s);
            r == OnNewsLoadingFailed(s.(index := NextIndex(s.index, |s.newsList.value|)), "") &&
            r.loadingError && !r.loading &&
            r.events == s.events + [SetText(s.config.loadingErrorText)] + (if s.hasListener then [NewsFailed] else []) &&
            r.fadePending == s.fadePending && r.rotationPending == s.rotationPending
  {
  }

  /** A step never touches the pending hold-timer message, so a swipe leaves a stale one in place. */
  lemma ChangeNewsKeepsHoldTimer(s: TickerState)
    ensures ChangeNews(s).rotationPending == s.rotationPending
  {
    if CanChangeNews(s) {
      var list := s.newsList.value;
      var s1 := s.(index := NextIndex(s.index, |list|));
      if 0 <= s1.index as int < |list| && list[s1.index as int] != null {
        var s2 := StartFadeIn(Emit(s1, SetText(TextOf(list[s1.index as int].news))));
        assert ChangeNews(s) == ApplyTimeLine(s2, list[s1.index as int]);
        ApplyTimeLineFrame(s2, list[s1.index as int]);
      }
    }
  }

  // ---------------------------------------------------------------------
  // Save and restore

  /** Restoring a saved index of an item and stepping shows that same item again. */
  lemma RestoreReplaysSavedItem(s: TickerState, saved: int32)
    requires CanChangeNews(s) && 0 <= saved as int < |s.newsList.value| <= IntMax
    ensures ChangeNews(Restore(s, Some(saved))).index == saved
  {
    var r := Restore(s, Some(saved));
    ChangeNewsStep(r);
    NextIndexOfPredecessor(saved, |s.newsList.value|);
  }

  /** Stepping from the index before a valid one lands on that one. */
  lemma NextIndexOfPredecessor(i: int32, n: nat)
    requires 0 <= i as int < n <= IntMax
    ensures NextIndex(Wrap32(i as int - 1), n) == i
  {
    var p := Wrap32(i as int - 1);
    assert p as int == i as int - 1;
    NextIndexInRange(p, n);
  }

  /**
   * A state saved before any item was shown holds -1; restored it becomes -2,
   * and with two or more items the next step yields -1 and a loading failure.
   */
  lemma RestoreBeforeFirstItem(s: TickerState)
    requires CanChangeNews(s) && |s.newsList.value| >= 2
    ensures var r := ChangeNews(Restore(s, Some(-1)));
            r.index == -1 && r.loadingError &&
            r.events == s.events + [SetText(s.config.loadingErrorText)] + (if s.hasListener then [NewsFailed] else [])
  {
    NextIndexFromMinusTwo(|s.newsList.value|);
  }

  /**
   * Restoring what was saved puts the index one back and changes nothing
   * else; at the smallest int the decrement wraps to the largest.
   */
  lemma SaveRestore(s: TickerState)
    ensures s.index as int > IntMin ==> Restore(s, Some(s.index)) == s.(index := s.index - 1)
    ensures s.index as int == IntMin ==> Restore(s, Some(s.index)) == s.(index := IntMax as int32)
  {
  }

  /** A state that is not the widget's own leaves the index alone. */
  lemma RestoreForeignState(s: TickerState)
    ensures Restore(s, None) == s
  {
  }

  // ---------------------------------------------------------------------
  // setNews and the error modes

  /** A present but empty list is an error: the no-news text and the failure callback, no rotation. */
  lemma SetNewsEmptyIsError(s: TickerState)
    ensures var r := SetNews(s, Some([]));
            var text := if s.config.noNewsText != "" then s.config.noNewsText else s.config.loadingErrorText;
            r.newsList == Some([]) && r.loadingError && !r.loading && r.index == s.index &&
            r.events == s.events + [SetText(text)] + (if s.hasListener then [NewsFailed] else []) &&
            r.fadePending == s.fadePending && r.rotationPending == s.rotationPending
  {
  }

  /** A null list is no error and rotates nothing: only the list and the two flags change. */
  lemma SetNewsNull(s: TickerState)
    ensures SetNews(s, None) == s.(newsList := None, loading := false, loadingError := false)
  {
  }

  /** A non-empty list replaces the old one, clears both flags and steps; the index is not reset. */
  lemma SetNewsNonEmpty(s: TickerState, list: seq<News.NewsHolder?>)
    requires |list| > 0
    ensures var s1 := s.(newsList := Some(list), loading := false, loadingError := false);
            SetNews(s, Some(list)) == ChangeNews(s1) &&
            SetNews(s, Some(list)).index == (if s.detached then s.index else NextIndex(s.index, |list|))
  {
  }

  /** `onNoNewsFound`: error mode with the no-news text, the index untouched, no callback. */
  lemma NoNewsFoundEffect(s: TickerState)
    ensures var r := OnNoNewsFound(s);
            r.loadingError && !r.loading && r.index == s.index &&
            r.events == s.events + [SetText(s.config.noNewsText)] &&
            r == s.(loadingError := true, loading := false, events := r.events)
  {
  }

  /** `onNewsLoadingFailed`: error mode, the given or the default text, the index untouched, the failure callback. */
  lemma NewsLoadingFailedEffect(s: TickerState, errorText: string)
    ensures var r := OnNewsLoadingFailed(s, errorText);
            var text := if errorText == "" then s.config.loadingErrorText else errorText;
            r.loadingError && !r.loading && r.index == s.index &&
            r.events == s.events + [SetText(text)] + (if s.hasListener then [NewsFailed] else []) &&
            r == s.(loadingError := true, loading := false, events := r.events)
  {
  }

  // ---------------------------------------------------------------------
  // Hold timer

  /** Arming the hold timer leaves exactly one pending rotation message, the new one. */
  lemma RotationSleepSingle(s: TickerState, millis: int)
    requires QueuesValid(s)
    ensures RotationSleep(s, millis).rotationPending == [Message(RotationCode, millis)]
  {
    if s.rotationPending != [] {
      assert s.rotationPending == [s.rotationPending[0]];
    }
  }

  /** Fade-in finished: alpha is exactly 1 and the fade handler is left alone. */
  lemma FadedInFullAlpha(s: TickerState)
    requires !s.detached
    ensures FadedIn(s).state.fadeAlpha == 1.0
    ensures FadedIn(s).state.fadePending == s.fadePending
  {
    var s1 := UpdateTextAlpha(s.(fadeAlpha := 1.0));
    assert s1.fadeAlpha == 1.0 && s1.fadePending == s.fadePending;
  }

  /**
   * Fade-in finished on a current item with a time: the hold timer is armed
   * for (time - 1) * 1000 ms and nothing is thrown.
   */
  lemma FadedInArmsHoldTimer(s: TickerState)
    requires !s.detached && QueuesValid(s)
    requires HasNews(s) && 0 <= s.index as int < |s.newsList.value|
    requires s.newsList.value[s.index as int] != null && s.newsList.value[s.index as int].time.Some?
    ensures var t := s.newsList.value[s.index as int].time.value;
            !FadedIn(s).thrown &&
            FadedIn(s).state.rotationPending == [Message(RotationCode, HoldMillis(t) as int)] &&
            (1 <= t as int <= 2_000_000 ==> HoldMillis(t) as int == (t as int - 1) * 1000)
  {
    var t := s.newsList.value[s.index as int].time.value;
    var s1 := UpdateTextAlpha(s.(fadeAlpha := 1.0));
    assert FadedIn(s) == Step(RotationSleep(s1, HoldMillis(t) as int), false);
    RotationSleepSingle(s1, HoldMillis(t) as int);
  }

  /** Fade-in finished with no news: nothing is thrown and no hold timer is armed. */
  lemma FadedInWithoutNews(s: TickerState)
    requires !s.detached && !HasNews(s)
    ensures !FadedIn(s).thrown && FadedIn(s).state.rotationPending == s.rotationPending
  {
  }

  /** Fade-in finished on a null item: nothing is thrown and no hold timer is armed. */
  lemma FadedInNullItem(s: TickerState)
    requires !s.detached && HasNews(s) && 0 <= s.index as int < |s.newsList.value|
    requires s.newsList.value[s.index as int] == null
    ensures !FadedIn(s).thrown && FadedIn(s).state.rotationPending == s.rotationPending
  {
  }

  /** Fade-in finished with an index the list rejects, or an item without a time: an exception escapes. */
  lemma FadedInThrows(s: TickerState)
    requires !s.detached && HasNews(s)
    requires !(0 <= s.index as int < |s.newsList.value|) ||
             (s.newsList.value[s.index as int] != null && s.newsList.value[s.index as int].time.None?)
    ensures FadedIn(s).thrown && FadedIn(s).state.rotationPending == s.rotationPending
  {
  }

  /** The hold timer firing starts a fade-out from alpha 1 with one pending fade-out message. */
  lemma RotationMessageStartsFadeOut(s: TickerState)
    requires !s.detached && QueuesValid(s)
    ensures HandleRotationMessage(s).fadeAlpha == 1.0
    ensures HandleRotationMessage(s).fadePending == [Message(FadeOutCode, 0)]
    ensures HandleRotationMessage(s).index == s.index
  {
    ClearFadeEmpty(s.fadePending);
  }

  // ---------------------------------------------------------------------
  // Fade ticks

  /** The per-tick step the rate and the fade time give: 33 / 1000. */
  lemma FadeStepValue()
    ensures FadeStep == 0.033
  {
    assert FadeAnimationRateSecs == 0.033;
  }

  lemma ClearFadeEmpty(q: seq<Message>)
    requires |q| <= 1 && (q != [] ==> q[0].what in {FadeOutCode, FadeInCode})
    ensures ClearFade(q) == []
  {
    if q != [] {
      assert q == [q[0]];
    }
  }

  /** The fade handler's message loop run k times. */
  ghost function FadeTicks(s: TickerState, k: nat): (r: TickerState)
  {
    if k == 0 then s else DeliverFade(FadeTicks(s, k - 1)).state
  }

  /** What a fade run does not touch. */
  ghost predicate SameRun(s: TickerState, t: TickerState)
  {
    t.detached == s.detached && t.index == s.index && t.newsList == s.newsList &&
    t.loading == s.loading && t.loadingError == s.loadingError &&
    t.rotationPending == s.rotationPending
  }

  /** Delivering a pending fade message: its alpha step, shown, then the end of the tick. */
  lemma FadeTick(t: TickerState, what: int, delay: int)
    requires !t.detached && t.fadePending == [Message(what, delay)]
    ensures var alpha := t.fadeAlpha + FadeStep * (if what == FadeInCode then 1.0 else -1.0);
            DeliverFade(t) == EndTick(UpdateTextAlpha(t.(fadePending := [], fadeAlpha := alpha)), what)
  {
    DeliverSingleFade(t, what, delay);
    AttachedFadeTick(t.(fadePending := []), what);
  }

  /** The message loop with one pending fade message hands it to the fade handler. */
  lemma DeliverSingleFade(t: TickerState, what: int, delay: int)
    requires t.fadePending == [Message(what, delay)]
    ensures DeliverFade(t) == HandleFadeMessage(t.(fadePending := []), what)
  {
  }

  /** While attached, a fade tick steps alpha by 0.033 in its direction, shows it, and ends the tick. */
  lemma AttachedFadeTick(t: TickerState, what: int)
    requires !t.detached
    ensures var alpha := t.fadeAlpha + FadeStep * (if what == FadeInCode then 1.0 else -1.0);
            HandleFadeMessage(t, what) == EndTick(UpdateTextAlpha(t.(fadeAlpha := alpha)), what)
  {
  }

  /** A tick that leaves alpha strictly between 0 and 1 only re-arms the same code. */
  lemma FadeTickContinues(t: TickerState, what: int, delay: int, alpha: real)
    requires !t.detached && t.fadePending == [Message(what, delay)] && what in {FadeOutCode, FadeInCode}
    requires alpha == t.fadeAlpha + FadeStep * (if what == FadeInCode then 1.0 else -1.0)
    requires 0.0 < alpha < 1.0
    ensures var u := DeliverFade(t);
            !u.thrown && u.state.fadeAlpha == alpha && SameRun(t, u.state) &&
            u.state.fadePending == [Message(what, FadeAnimationRate)]
  {
    FadeTick(t, what, delay);
    var s1 := UpdateTextAlpha(t.(fadePending := [], fadeAlpha := alpha));
    assert EndTick(s1, what) == Step(FadeSleep(s1, what), false);
  }

  /** Where a fade-in run that started at alpha 0 stands after j ticks. */
  ghost predicate FadeInAt(s: TickerState, t: TickerState, j: nat)
  {
    t.fadeAlpha == (33 * j) as real / 1000.0 && SameRun(s, t) &&
    t.fadePending == [Message(FadeInCode, if j == 0 then 0 else FadeAnimationRate)]
  }

  /** One more tick of a fade-in that has not yet reached its 30th tick. */
  lemma FadeInStep(s: TickerState, t: TickerState, j: nat)
    requires !s.detached && j < 30 && FadeInAt(s, t, j)
    ensures FadeInAt(s, DeliverFade(t).state, j + 1)
  {
    FadeTickContinues(t, FadeInCode, t.fadePending[0].delay, (33 * (j + 1)) as real / 1000.0);
  }

  /** The first 30 ticks of a fade-in raise alpha by 0.033 each and re-arm the tick. */
  lemma {:induction false} FadeInProgress(s: TickerState, k: nat)
    requires !s.detached && s.fadeAlpha == 0.0 && s.fadePending == [Message(FadeInCode, 0)]
    requires k <= 30
    ensures FadeInAt(s, FadeTicks(s, k), k)
  {
    if k > 0 {
      FadeInProgress(s, k - 1);
      FadeInStep(s, FadeTicks(s, k - 1), k - 1);
    }
  }

  /** The 31st tick of a fade-in passes 1 and ends the run with `fadedIn`, which sets alpha to exactly 1. */
  lemma FadeInEnds(s: TickerState)
    requires !s.detached && s.fadeAlpha == 0.0 && s.fadePending == [Message(FadeInCode, 0)]
    ensures var t := FadeTicks(s, 30);
            var last := UpdateTextAlpha(t.(fadePending := [], fadeAlpha := (33 * 31) as real / 1000.0));
            DeliverFade(t) == FadedIn(last) &&
            DeliverFade(t).state.fadeAlpha == 1.0 && DeliverFade(t).state.fadePending == []
  {
    FadeInProgress(s, 30);
    FadeStepValue();
    var t := FadeTicks(s, 30);
    FadeTick(t, FadeInCode, FadeAnimationRate);
    var last := UpdateTextAlpha(t.(fadePending := [], fadeAlpha := (33 * 31) as real / 1000.0));
    assert last.fadeAlpha >= 1.0 && !last.detached && last.fadePending == [];
    FadedInFullAlpha(last);
  }

  /** Where a fade-out run that started at alpha 1 stands after j ticks. */
  ghost predicate FadeOutAt(s: TickerState, t: TickerState, j: nat)
  {
    t.fadeAlpha == 1.0 - (33 * j) as real / 1000.0 && SameRun(s, t) &&
    t.fadePending == [Message(FadeOutCode, if j == 0 then 0 else FadeAnimationRate)]
  }

  /** One more tick of a fade-out that has not yet reached its 30th tick. */
  lemma FadeOutStep(s: TickerState, t: TickerState, j: nat)
    requires !s.detached && j < 30 && FadeOutAt(s, t, j)
    ensures FadeOutAt(s, DeliverFade(t).state, j + 1)
  {
    FadeTickContinues(t, FadeOutCode, t.fadePending[0].delay, 1.0 - (33 * (j + 1)) as real / 1000.0);
  }

  /** The first 30 ticks of a fade-out lower alpha by 0.033 each and re-arm the tick. */
  lemma {:induction false} FadeOutProgress(s: TickerState, k: nat)
    requires !s.detached && s.fadeAlpha == 1.0 && s.fadePending == [Message(FadeOutCode, 0)]
    requires k <= 30
    ensures FadeOutAt(s, FadeTicks(s, k), k)
  {
    if k > 0 {
      FadeOutProgress(s, k - 1);
      FadeOutStep(s, FadeTicks(s, k - 1), k - 1);
    }
  }

  /** The 31st tick of a fade-out reaches alpha at or below 0 and ends with `fadedOut`, the next rotation step. */
  lemma FadeOutEnds(s: TickerState)
    requires !s.detached && s.fadeAlpha == 1.0 && s.fadePending == [Message(FadeOutCode, 0)]
    ensures var t := FadeTicks(s, 30);
            var last := UpdateTextAlpha(t.(fadePending := [], fadeAlpha := 1.0 - (33 * 31) as real / 1000.0));
            DeliverFade(t) == Step(ChangeNews(last), false)
  {
    FadeOutProgress(s, 30);
    var t := FadeTicks(s, 30);
    var alpha := 1.0 - (33 * 31) as real / 1000.0;
    FadeStepValue();
    assert t.fadeAlpha + FadeStep * -1.0 == alpha;
    FadeTick(t, FadeOutCode, FadeAnimationRate);
    var last := UpdateTextAlpha(t.(fadePending := [], fadeAlpha := alpha));
    assert DeliverFade(t) == EndTick(last, FadeOutCode);
    FadeOutTickEnds(last);
  }

  /** A fade-out tick that reaches alpha 0 or below hands over to the rotation step. */
  lemma FadeOutTickEnds(s: TickerState)
    requires !s.detached && s.fadeAlpha <= 0.0
    ensures EndTick(s, FadeOutCode) == Step(ChangeNews(s), false)
  {
  }

  /** Fade-in then hold then fade-out: the engine's own start states meet the lemmas above. */
  lemma FadeStartsMeetRuns(s: TickerState)
    requires QueuesValid(s)
    ensures StartFadeIn(s).fadeAlpha == 0.0 && StartFadeIn(s).fadePending == [Message(FadeInCode, 0)]
    ensures StartFadeOut(s).fadeAlpha == 1.0 && StartFadeOut(s).fadePending == [Message(FadeOutCode, 0)]
  {
    ClearFadeEmpty(s.fadePending);
  }

  // ---------------------------------------------------------------------
  // Touch

  /** While loading, every touch event is ignored and not handled. */
  lemma TouchWhileLoading(s: TickerState, action: int32)
    requires s.loading
    ensures OnTouch(s, action) == TouchResult(s, false, false)
  {
  }

  /**
   * An up after a down, or after fewer than 3 moves, is a tap: in error mode
   * it reports the failed tap; otherwise a valid index with a non-empty link
   * opens it and reports the tap. It is handled and resets both counters.
   */
  lemma TapClassification(s: TickerState)
    requires !s.loading
    requires s.lastMotionEvent == ActionDown || (s.numMoveEvent as int) < MoveActionThreshold
    requires !(HasNews(s) && 0 <= s.index as int < |s.newsList.value| && s.newsList.value[s.index as int] == null) ||
             s.loadingError
    ensures var r := OnTouch(s, ActionUp);
            r.handled && !r.thrown &&
            r.state.lastMotionEvent == NoMotion && r.state.numMoveEvent == 0 &&
            r.state.index == s.index && r.state.fadePending == s.fadePending &&
            (s.loadingError ==> r.state.events == s.events + (if s.hasListener then [NewsTapFailed] else [])) &&
            (!s.loadingError && HasNews(s) && 0 <= s.index as int < |s.newsList.value| &&
             s.newsList.value[s.index as int].link.Some? && |s.newsList.value[s.index as int].link.value| > 0 ==>
               r.state.events == s.events + [OpenLink(s.newsList.value[s.index as int].link.value)] +
                                 (if s.hasListener then [NewsTap] else []))
    ensures !s.loadingError &&
            !(HasNews(s) && 0 <= s.index as int < |s.newsList.value| &&
              s.newsList.value[s.index as int].link.Some? && |s.newsList.value[s.index as int].link.value| > 0) ==>
              OnTouch(s, ActionUp) == TouchResult(ResetMotion(s), true, false)
  {
  }

  /** A tap outside error mode on a null item lets the exception escape: unhandled, counters kept. */
  lemma TapOnNullItemThrows(s: TickerState)
    requires !s.loading && !s.loadingError
    requires s.lastMotionEvent == ActionDown || (s.numMoveEvent as int) < MoveActionThreshold
    requires HasNews(s) && 0 <= s.index as int < |s.newsList.value| && s.newsList.value[s.index as int] == null
    ensures OnTouch(s, ActionUp) == TouchResult(s, false, true)
  {
  }

  /** Every up that lets no exception escape resets both motion counters, on each of its three branches. */
  lemma UpResetsCounters(s: TickerState)
    requires !s.loading
    ensures var r := OnTouch(s, ActionUp);
            !r.thrown ==> r.state.lastMotionEvent == NoMotion && r.state.numMoveEvent == 0
    ensures s.lastMotionEvent != ActionDown && s.lastMotionEvent != ActionMove &&
            (s.numMoveEvent as int) >= MoveActionThreshold ==>
              OnTouch(s, ActionUp) == TouchResult(ResetMotion(s), false, false)
  {
  }

  /** An up after 3 or more moves, the last of them a move, is a swipe: a rotation step. */
  lemma SwipeChangesNews(s: TickerState)
    requires !s.loading
    requires s.lastMotionEvent == ActionMove && (s.numMoveEvent as int) >= MoveActionThreshold
    ensures OnTouch(s, ActionUp) == TouchResult(ResetMotion(ChangeNews(s)), true, false)
  {
  }

  /** Down and move events only record the action and count moves. */
  lemma DownAndMoveRecord(s: TickerState)
    requires !s.loading && s.numMoveEvent as int < IntMax
    ensures OnTouch(s, ActionDown) == TouchResult(s.(lastMotionEvent := ActionDown), false, false)
    ensures OnTouch(s, ActionMove) ==
            TouchResult(s.(lastMotionEvent := ActionMove, numMoveEvent := s.numMoveEvent + 1), false, false)
  {
  }

  // ---------------------------------------------------------------------
  // Detach

  /** Detaching removes every pending message of both handlers. */
  lemma DetachClearsQueues(s: TickerState)
    requires QueuesValid(s)
    ensures var r := OnDetached(s);
            r.detached && r.rotationPending == [] && r.fadePending == [] &&
            r == s.(detached := true, rotationPending := [], fadePending := [])
  {
    if s.rotationPending != [] {
      assert s.rotationPending == [s.rotationPending[0]];
    }
    if s.fadePending != [] {
      assert s.fadePending == [s.fadePending[0]];
    }
  }

  /** Once detached, the rotation step, both fade ends and both handlers do nothing. */
  lemma DetachedIsSilent(s: TickerState, what: int)
    requires s.detached
    ensures ChangeNews(s) == s && OnAttached(s) == s && FadedOut(s) == s
    ensures FadedIn(s) == Step(s, false)
    ensures HandleRotationMessage(s) == s
    ensures HandleFadeMessage(s, what) == Step(s, false)
  {
  }

  /** After detaching there is nothing left to deliver. */
  lemma NothingDeliveredAfterDetach(s: TickerState)
    requires QueuesValid(s)
    ensures DeliverRotation(OnDetached(s)) == OnDetached(s)
    ensures DeliverFade(OnDetached(s)) == Step(OnDetached(s), false)
  {
    DetachClearsQueues(s);
  }

  // ---------------------------------------------------------------------
  // At most one pending message per handler

  lemma ChangeNewsKeepsQueuesValid(s: TickerState)
    requires QueuesValid(s)
    ensures QueuesValid(ChangeNews(s))
  {
    if CanChangeNews(s) {
      var list := s.newsList.value;
      var s1 := s.(index := NextIndex(s.index, |list|));
      if 0 <= s1.index as int < |list| && list[s1.index as int] != null {
        assert ChangeNews(s) == ShowItem(s1, list[s1.index as int]);
        ShowItemEffect(s1, list[s1.index as int]);
      } else {
        assert ChangeNews(s) == OnNewsLoadingFailed(s1, "");
      }
    }
  }

  lemma FadedInKeepsQueuesValid(s: TickerState)
    requires QueuesValid(s)
    ensures QueuesValid(FadedIn(s).state)
  {
    if !s.detached {
      FadedInFullAlpha(s);
      if HasNews(s) && 0 <= s.index as int < |s.newsList.value| &&
         s.newsList.value[s.index as int] != null && s.newsList.value[s.index as int].time.Some? {
        FadedInArmsHoldTimer(s);
      }
    }
  }

  lemma HandleRotationMessageKeepsQueuesValid(s: TickerState)
    requires QueuesValid(s)
    ensures QueuesValid(HandleRotationMessage(s))
  {
    ClearFadeEmpty(s.fadePending);
  }

  lemma EndTickKeepsQueuesValid(s: TickerState, what: int)
    requires QueuesValid(s) && what in {FadeOutCode, FadeInCode}
    ensures QueuesValid(EndTick(s, what).state)
  {
    if s.fadeAlpha <= 0.0 && what == FadeOutCode {
      ChangeNewsKeepsQueuesValid(s);
    } else if s.fadeAlpha >= 1.0 && what == FadeInCode {
      FadedInKeepsQueuesValid(s);
    } else {
      ClearFadeEmpty(s.fadePending);
    }
  }

  lemma HandleFadeMessageKeepsQueuesValid(s: TickerState, what: int)
    requires QueuesValid(s) && what in {FadeOutCode, FadeInCode}
    ensures QueuesValid(HandleFadeMessage(s, what).state)
  {
    if !s.detached {
      var direction: real := if what == FadeInCode then 1.0 else -1.0;
      FadeStepValue();
      EndTickKeepsQueuesValid(UpdateTextAlpha(s.(fadeAlpha := s.fadeAlpha + FadeStep * direction)), what);
    }
  }

  lemma DeliveryKeepsQueuesValid(s: TickerState)
    requires QueuesValid(s)
    ensures QueuesValid(DeliverRotation(s))
    ensures QueuesValid(DeliverFade(s).state)
  {
    if s.rotationPending != [] {
      HandleRotationMessageKeepsQueuesValid(s.(rotationPending := s.rotationPending[1..]));
    }
    if s.fadePending != [] {
      HandleFadeMessageKeepsQueuesValid(s.(fadePending := s.fadePending[1..]), s.fadePending[0].what);
    }
  }

  lemma SetNewsKeepsQueuesValid(s: TickerState, list: Option<seq<News.NewsHolder?>>)
    requires QueuesValid(s)
    ensures QueuesValid(SetNews(s, list))
  {
    var s1 := s.(newsList := list, loading := false, loadingError := false);
    ChangeNewsKeepsQueuesValid(if list.Some? && |list.value| == 0 then OnNewsLoadingFailed(s1, s1.config.noNewsText) else s1);
  }

  lemma OnTouchKeepsQueuesValid(s: TickerState, action: int32)
    requires QueuesValid(s)
    ensures QueuesValid(OnTouch(s, action).state)
  {
    if !s.loading && action == ActionUp {
      ReleaseTouchKeepsQueuesValid(s);
    }
  }

  lemma ReleaseTouchKeepsQueuesValid(s: TickerState)
    requires QueuesValid(s)
    ensures QueuesValid(ReleaseTouch(s).state)
  {
    if s.lastMotionEvent == ActionDown || (s.numMoveEvent as int) < MoveActionThreshold {
      var t := Tap(s);
      assert t.state.rotationPending == s.rotationPending && t.state.fadePending == s.fadePending;
    } else if s.lastMotionEvent == ActionMove {
      ChangeNewsKeepsQueuesValid(s);
    }
  }

  lemma OnDetachedKeepsQueuesValid(s: TickerState)
    requires QueuesValid(s)
    ensures QueuesValid(OnDetached(s))
  {
    DetachClearsQueues(s);
  }
}
