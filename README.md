# News ticker: a Dafny model

This project models the core of an Android news ticker widget. The widget
shows one news item at a time. It fades each item in, holds it for the
item's time, fades it out, and moves on to the next one. A tap opens the
item's link and a swipe skips to the next item.

The model has three parts:

- **The rotation and fade engine** of `NewsTickerView`.
  - `ticker_model.dfy` gives one specification function per operation, on a
    snapshot `TickerState` of the widget's fields and of the two handler
    queues.
  - `ticker_view.dfy` holds the class `NewsTickerView`. It has the same
    fields and two `Messages.Handler` objects: the hold timer (code 0) and
    the fade ticks (codes 0 and 1). Each method ends in the state its
    specification function in `TickerModel` gives for the state it started
    from. Most functions share their method's name. The lifecycle ones are
    shorter: `OnAttached`, `OnDetached`, `Restore`, `SetListener`,
    `DeliverRotation` and `DeliverFade`. `OnNewsLoadingFailedDefault` is
    `OnNewsLoadingFailed` with the text "". `OnSaveInstanceState` changes
    nothing and only returns the index. Every method also keeps the invariant
    that each handler has at most one pending message.
  - `ticker_properties.dfy` proves what the engine promises about those
    functions. This covers the rotation cycle, the error rules,
    save/restore, the hold timer, the 31-tick fades, tap versus swipe,
    detach, and the one-message-per-handler invariant.
- **The colour helpers** of `Utils` (`utils.dfy`): `clamp` and
  `combineColor` on `bv32`.
- **The news record and its Parcel format** (`news_holder.dfy`, with the
  Parcel as an append-only value list and a read cursor in `parcels.dfy`).

`java_lang.dfy` holds the Java semantics the arithmetic relies on:

- `int` wrap-around;
- the truncating `%`;
- the saturating `(int)` cast of a floating-point value;
- null, as `Option`.

Rendering, listener calls and intents become an event log in the state:
`SetText`, `SetTextColor`, `OpenLink`, `NewsTap`, `NewsTapFailed`
and `NewsFailed`. An exception that the source lets escape to the platform
is a `thrown` result, or `None` for a result that is never produced. This
happens in four places:

- `fadedIn` with an index the list rejects or an item without a time;
- a tap on a null item;
- `writeToParcel` with a null time;
- `CREATOR.newArray` with a negative size (`News.NewArray` returns `None`).

Alpha is an exact `real`. The step is the tick period of 33 ms over a fade
time of one second, so a fade takes 31 ticks.

Three behaviours of the code are easy to miss, and the model keeps them:

- `changeNews` does not cancel a pending hold timer
  (`TickerProperties.ChangeNewsKeepsHoldTimer`). After a swipe, the old
  timer can still fire.
- `bDetached` is never reset. A detached widget that is attached again
  stays silent (`TickerProperties.DetachedIsSilent`).
- A fade is never clamped to its end value on the last tick. A fade-out
  ends at alpha 1 - 31 * 0.033 = -0.023, and the colour of that tick gets
  alpha byte 0xFB, nearly opaque (`Utils.CombineColorLastFadeOutTick`).
  A fade-in ends at 1.023, which `fadedIn` then sets to 1.

## Model

| member | source | states |
|---|---|---|
| JavaLang.Wrap32 | android-newstickerview/src/com/mystictreegames/ui/newstickerview/NewsTickerView.java:420 | Java `int` arithmetic: the identity inside the int range, and always congruent to the exact value modulo 2^32 |
| JavaLang.Trunc | android-newstickerview/src/com/mystictreegames/ui/newstickerview/Utils.java:22 | rounding toward zero: the floor for non-negative values, the ceiling for negative ones |
| JavaLang.DoubleToInt | android-newstickerview/src/com/mystictreegames/ui/newstickerview/Utils.java:22 | Java's `(int)` cast: truncation inside the int range, `Integer.MAX_VALUE` and `Integer.MIN_VALUE` beyond it |
| JavaLang.JavaRem | android-newstickerview/src/com/mystictreegames/ui/newstickerview/NewsTickerView.java:421 | Java's truncating remainder: for a non-negative dividend it is the Euclidean one, for a negative dividend it lies in (-n, 0] and is minus the remainder of the magnitude |
| Utils.Clamp | android-newstickerview/src/com/mystictreegames/ui/newstickerview/Utils.java:16-18 | `a` when `x < a`; `x` inside `[a, b]`; `b` when `x >= a` and `x > b`; always within `[a, b]` when `a <= b` |
| Utils.AlphaByte | android-newstickerview/src/com/mystictreegames/ui/newstickerview/Utils.java:22 | 255 from alpha 1 up, `floor(alpha * 256)` in [0, 255] for alpha in [0, 1), the truncated (not clamped) cast for negative alpha, `Integer.MIN_VALUE` once `alpha * 256` reaches it |
| Utils.CombineColor | android-newstickerview/src/com/mystictreegames/ui/newstickerview/Utils.java:21-26 | the low 24 bits are those of `rgb`, the top byte is the low byte of the alpha byte |
| Utils.CombineColorIgnoresInputAlpha | android-newstickerview/src/com/mystictreegames/ui/newstickerview/Utils.java:23-24 | colours that differ only in their top byte give the same result |
| Utils.CombineColorOpaque | android-newstickerview/src/com/mystictreegames/ui/newstickerview/Utils.java:22 | alpha >= 1 gives top byte 0xFF |
| Utils.CombineColorPartial | android-newstickerview/src/com/mystictreegames/ui/newstickerview/Utils.java:22 | alpha in [0, 1) gives top byte `floor(alpha * 256)`, which lies in [0, 255] |
| Utils.CombineColorTransparent | android-newstickerview/src/com/mystictreegames/ui/newstickerview/Utils.java:22-24 | alpha 0 gives `rgb` with a zero top byte |
| Utils.CombineColorLastFadeOutTick | android-newstickerview/src/com/mystictreegames/ui/newstickerview/Utils.java:22-24 | the last fade-out tick's alpha, 1 - 31 * 0.033, is not clamped: its top byte is 0xFB |
| News.HolderRoundTrip | android-newstickerview/src/com/mystictreegames/ui/newstickerview/NewsHolder.java:32-48 | the three values written are read back in the same order, after any prefix and before any suffix, leaving the cursor past the third |
| News.NewsHolder.constructor | android-newstickerview/src/com/mystictreegames/ui/newstickerview/NewsHolder.java:25-29 | the fields are the arguments |
| News.NewsHolder.FromParcel | android-newstickerview/src/com/mystictreegames/ui/newstickerview/NewsHolder.java:32-36 | reads string, string, int from the cursor into news, link, time; the Parcel's data is unchanged |
| News.NewsHolder.DescribeContents | android-newstickerview/src/com/mystictreegames/ui/newstickerview/NewsHolder.java:39-41 | always 0 |
| News.NewsHolder.WriteToParcel | android-newstickerview/src/com/mystictreegames/ui/newstickerview/NewsHolder.java:44-48 | appends string news, string link, int time; a null time throws after the two strings |
| News.CreateFromParcel | android-newstickerview/src/com/mystictreegames/ui/newstickerview/NewsHolder.java:51-53 | a fresh holder read from the Parcel, as the private constructor does |
| News.NewArray | android-newstickerview/src/com/mystictreegames/ui/newstickerview/NewsHolder.java:55-57 | an array of `size` nulls; a negative size throws |
| News.RoundTripThroughParcel | android-newstickerview/src/com/mystictreegames/ui/newstickerview/NewsHolder.java:32-53 | a holder with a time, written to a fresh Parcel and created from it, has equal fields; the cursor ends after the third value |
| Messages.Without | android-newstickerview/src/com/mystictreegames/ui/newstickerview/NewsTickerView.java:559-562 | `removeMessages(what)`: exactly the messages with another code remain, and no longer a queue than before |
| Messages.WithoutKeepsCounts | android-newstickerview/src/com/mystictreegames/ui/newstickerview/NewsTickerView.java:559-562 | each message with another code keeps its number of copies, and none with the code is left |
| Messages.WithoutDistributes | android-newstickerview/src/com/mystictreegames/ui/newstickerview/NewsTickerView.java:559-562 | removing from a concatenation is the concatenation of the removals, so the remaining messages keep their order |
| Messages.WithoutSingle | android-newstickerview/src/com/mystictreegames/ui/newstickerview/NewsTickerView.java:559-562 | a single message stays exactly when its code differs from the removed one |
| NewsTicker.SavedState.constructor | android-newstickerview/src/com/mystictreegames/ui/newstickerview/NewsTickerView.java:643-645 | a fresh saved state holding index 0 |
| NewsTicker.SavedState.FromParcel | android-newstickerview/src/com/mystictreegames/ui/newstickerview/NewsTickerView.java:647-650 | reads the index as one int from the cursor |
| NewsTicker.SavedState.WriteToParcel | android-newstickerview/src/com/mystictreegames/ui/newstickerview/NewsTickerView.java:653-656 | appends the index as one int |
| NewsTicker.SavedStateRoundTrip | android-newstickerview/src/com/mystictreegames/ui/newstickerview/NewsTickerView.java:647-656 | a saved state written and read back holds the same index |
| NewsTicker.SaveThenRestore | android-newstickerview/src/com/mystictreegames/ui/newstickerview/NewsTickerView.java:184-203 | saving the widget and restoring that same saved object puts the index one back (wrapping at the smallest int) and changes nothing else |
| NewsTicker.NewsTickerView.constructor | android-newstickerview/src/com/mystictreegames/ui/newstickerview/NewsTickerView.java:164-171 | the initial state: index -1, alpha 1, no list, no motion, both queues empty, the text cleared; the queue invariant holds |
| NewsTicker.NewsTickerView.SetNewActionListener | android-newstickerview/src/com/mystictreegames/ui/newstickerview/NewsTickerView.java:174-176 | only the listener changes |
| NewsTicker.NewsTickerView.OnRestoreInstanceState | android-newstickerview/src/com/mystictreegames/ui/newstickerview/NewsTickerView.java:184-194 | a saved state of the widget sets the index to the saved one minus one (Java int); any other state leaves everything alone |
| NewsTicker.NewsTickerView.OnSaveInstanceState | android-newstickerview/src/com/mystictreegames/ui/newstickerview/NewsTickerView.java:197-203 | a fresh saved state holding the current index |
| NewsTicker.NewsTickerView.OnAttachedToWindow | android-newstickerview/src/com/mystictreegames/ui/newstickerview/NewsTickerView.java:226-231 | one rotation step |
| NewsTicker.NewsTickerView.OnDetachedFromWindow | android-newstickerview/src/com/mystictreegames/ui/newstickerview/NewsTickerView.java:234-252 | detached, with code 0 removed from the hold timer and both fade codes from the fade handler |
| NewsTicker.NewsTickerView.OnTouch | android-newstickerview/src/com/mystictreegames/ui/newstickerview/NewsTickerView.java:273-321 | the touch listener: ignored while loading, down and move recorded, up handled as a tap or a swipe |
| NewsTicker.NewsTickerView.ReleaseTouch | android-newstickerview/src/com/mystictreegames/ui/newstickerview/NewsTickerView.java:285-317 | tap when the last event was down or there were fewer than 3 moves, swipe after a move, counters reset unless an exception escapes |
| NewsTicker.NewsTickerView.Tap | android-newstickerview/src/com/mystictreegames/ui/newstickerview/NewsTickerView.java:290-306 | in error mode the tap-failed callback; otherwise, for a valid index with a non-empty link, the link and the tap callback; a null item throws |
| NewsTicker.NewsTickerView.OnStartLoading | android-newstickerview/src/com/mystictreegames/ui/newstickerview/NewsTickerView.java:334-349 | sets the loading flag |
| NewsTicker.NewsTickerView.OnStopLoading | android-newstickerview/src/com/mystictreegames/ui/newstickerview/NewsTickerView.java:354-363 | clears the loading flag |
| NewsTicker.NewsTickerView.SetNews | android-newstickerview/src/com/mystictreegames/ui/newstickerview/NewsTickerView.java:366-378 | `setNews`, ending in the state `TickerModel.SetNews` gives |
| NewsTicker.NewsTickerView.OnNoNewsFound | android-newstickerview/src/com/mystictreegames/ui/newstickerview/NewsTickerView.java:386-390 | error mode with the no-news text |
| NewsTicker.NewsTickerView.OnNewsLoadingFailed | android-newstickerview/src/com/mystictreegames/ui/newstickerview/NewsTickerView.java:393-400 | error mode with the given or the default error text, and the failure callback |
| NewsTicker.NewsTickerView.OnNewsLoadingFailedDefault | android-newstickerview/src/com/mystictreegames/ui/newstickerview/NewsTickerView.java:403-405 | the same with the default error text |
| NewsTicker.NewsTickerView.ChangeNews | android-newstickerview/src/com/mystictreegames/ui/newstickerview/NewsTickerView.java:415-451 | the rotation step, ending in the state `TickerModel.ChangeNews` gives |
| NewsTicker.NewsTickerView.ShowItem | android-newstickerview/src/com/mystictreegames/ui/newstickerview/NewsTickerView.java:426-438 | the found item's text, a fade-in, then the time line |
| NewsTicker.NewsTickerView.ApplyTimeLine | android-newstickerview/src/com/mystictreegames/ui/newstickerview/NewsTickerView.java:434-438 | with the time line on, the time to handle, or a loading failure for an item without a time; loading off |
| NewsTicker.NewsTickerView.FadedIn | android-newstickerview/src/com/mystictreegames/ui/newstickerview/NewsTickerView.java:454-469 | `fadedIn`, including the exceptions that escape it |
| NewsTicker.NewsTickerView.FadedOut | android-newstickerview/src/com/mystictreegames/ui/newstickerview/NewsTickerView.java:472-478 | a rotation step unless detached |
| NewsTicker.NewsTickerView.UpdateTextAlpha | android-newstickerview/src/com/mystictreegames/ui/newstickerview/NewsTickerView.java:481-483 | the text colour becomes `combineColor` of the current colour and alpha |
| NewsTicker.NewsTickerView.RotationSleep | android-newstickerview/src/com/mystictreegames/ui/newstickerview/NewsTickerView.java:559-562 | the hold timer then holds exactly one message, with the given delay |
| NewsTicker.NewsTickerView.HandleRotationMessage | android-newstickerview/src/com/mystictreegames/ui/newstickerview/NewsTickerView.java:550-557 | a fade-out unless detached |
| NewsTicker.NewsTickerView.StartAnimation | android-newstickerview/src/com/mystictreegames/ui/newstickerview/NewsTickerView.java:620-624 | both fade codes removed, then the code posted with no delay |
| NewsTicker.NewsTickerView.FadeSleep | android-newstickerview/src/com/mystictreegames/ui/newstickerview/NewsTickerView.java:629-633 | both fade codes removed, then the code posted 33 ms ahead |
| NewsTicker.NewsTickerView.StartFadeIn | android-newstickerview/src/com/mystictreegames/ui/newstickerview/NewsTickerView.java:599-606 | alpha 0, shown, then a fade-in message |
| NewsTicker.NewsTickerView.StartFadeOut | android-newstickerview/src/com/mystictreegames/ui/newstickerview/NewsTickerView.java:608-615 | alpha 1, shown, then a fade-out message |
| NewsTicker.NewsTickerView.HandleFadeMessage | android-newstickerview/src/com/mystictreegames/ui/newstickerview/NewsTickerView.java:580-597 | one fade tick unless detached |
| NewsTicker.NewsTickerView.EndTick | android-newstickerview/src/com/mystictreegames/ui/newstickerview/NewsTickerView.java:588-594 | the end of a tick: `fadedOut`, `fadedIn`, or the next tick |
| NewsTicker.NewsTickerView.DeliverRotationMessage | android-newstickerview/src/com/mystictreegames/ui/newstickerview/NewsTickerView.java:550-557 | delivers the pending hold-timer message, if there is one |
| NewsTicker.NewsTickerView.DeliverFadeMessage | android-newstickerview/src/com/mystictreegames/ui/newstickerview/NewsTickerView.java:580-597 | delivers the pending fade message, if there is one |
| TickerProperties.NextIndexInRange | android-newstickerview/src/com/mystictreegames/ui/newstickerview/NewsTickerView.java:420-421 | from any index from -1 up to (not including) the largest int, including one at or past the end of a list that became shorter, the step lands in [0, size) and is the successor modulo size |
| TickerProperties.NextIndexAtIntMax | android-newstickerview/src/com/mystictreegames/ui/newstickerview/NewsTickerView.java:420-421 | from the largest int the increment wraps to the smallest, and the step gives minus (2^31 mod size), never a valid index other than 0 |
| TickerProperties.NextIndexFromMinusTwo | android-newstickerview/src/com/mystictreegames/ui/newstickerview/NewsTickerView.java:420-421 | from -2 the step gives 0 for one item and -1 (rejected by the list) for more |
| TickerProperties.ChangeNewsGuard | android-newstickerview/src/com/mystictreegames/ui/newstickerview/NewsTickerView.java:418 | detached, loading or without news, the step changes nothing |
| TickerProperties.ChangeNewsStep | android-newstickerview/src/com/mystictreegames/ui/newstickerview/NewsTickerView.java:418-421 | an acting step keeps the guard true, keeps the list, and moves the index by the Java step |
| TickerProperties.RotationStep | android-newstickerview/src/com/mystictreegames/ui/newstickerview/NewsTickerView.java:420-421 | one more step from the k-th item of a rotation starting at -1 reaches item (k+1) mod n |
| TickerProperties.RotationIsCyclic | android-newstickerview/src/com/mystictreegames/ui/newstickerview/NewsTickerView.java:415-438 | the (k+1)-th step from -1 shows index k mod n: 0, 1, ..., n-1, 0, ... |
| TickerProperties.ApplyTimeLineFrame | android-newstickerview/src/com/mystictreegames/ui/newstickerview/NewsTickerView.java:434-438 | the time-line part changes only loading, the error flag, the time to handle and appends to the events |
| TickerProperties.ApplyTimeLineEffect | android-newstickerview/src/com/mystictreegames/ui/newstickerview/NewsTickerView.java:434-447 | with the time line on, an item without a time is a loading failure and one with a time sets `(time + 2) * 1000`; otherwise the error flag is kept |
| TickerProperties.ShowItemEffect | android-newstickerview/src/com/mystictreegames/ui/newstickerview/NewsTickerView.java:426-438 | showing an item emits its text then the colour at alpha 0, leaves one fade-in message, keeps the hold timer and index, and clears loading |
| TickerProperties.ChangeNewsShowsItem | android-newstickerview/src/com/mystictreegames/ui/newstickerview/NewsTickerView.java:415-438 | an acting step on a non-null item shows it, starts the fade-in, keeps the hold timer, clears loading, and applies the time line |
| TickerProperties.ChangeNewsFailure | android-newstickerview/src/com/mystictreegames/ui/newstickerview/NewsTickerView.java:439-447 | a rejected index or null item leads to `onNewsLoadingFailed()` with the stepped index: error mode, default text, failure callback, queues untouched |
| TickerProperties.ChangeNewsKeepsHoldTimer | android-newstickerview/src/com/mystictreegames/ui/newstickerview/NewsTickerView.java:415-451 | a step never touches the pending hold-timer message |
| TickerProperties.RestoreReplaysSavedItem | android-newstickerview/src/com/mystictreegames/ui/newstickerview/NewsTickerView.java:184-194 | after restoring a saved index of a valid item, the next step shows that same item |
| TickerProperties.RestoreBeforeFirstItem | android-newstickerview/src/com/mystictreegames/ui/newstickerview/NewsTickerView.java:184-194 | a saved -1 restores as -2; with two or more items the next step gives index -1 and a loading failure |
| TickerProperties.SaveRestore | android-newstickerview/src/com/mystictreegames/ui/newstickerview/NewsTickerView.java:184-203 | restoring the saved index puts it one back, wrapping from the smallest int to the largest, and changes nothing else |
| TickerProperties.RestoreForeignState | android-newstickerview/src/com/mystictreegames/ui/newstickerview/NewsTickerView.java:185-188 | a state that is not the widget's own leaves the widget unchanged |
| TickerProperties.SetNewsEmptyIsError | android-newstickerview/src/com/mystictreegames/ui/newstickerview/NewsTickerView.java:366-378 | a present but empty list: error mode, the no-news text, the failure callback, the index and queues untouched |
| TickerProperties.SetNewsNull | android-newstickerview/src/com/mystictreegames/ui/newstickerview/NewsTickerView.java:366-378 | a null list only replaces the list and clears both flags |
| TickerProperties.SetNewsNonEmpty | android-newstickerview/src/com/mystictreegames/ui/newstickerview/NewsTickerView.java:366-378 | a non-empty list clears both flags and steps; the index is not reset |
| TickerProperties.NoNewsFoundEffect | android-newstickerview/src/com/mystictreegames/ui/newstickerview/NewsTickerView.java:386-390 | error mode with the no-news text, index untouched, no callback, nothing else changed |
| TickerProperties.NewsLoadingFailedEffect | android-newstickerview/src/com/mystictreegames/ui/newstickerview/NewsTickerView.java:393-400 | error mode, the given text or the default for "", the failure callback, nothing else changed |
| TickerProperties.RotationSleepSingle | android-newstickerview/src/com/mystictreegames/ui/newstickerview/NewsTickerView.java:559-562 | arming the hold timer leaves exactly the new message pending |
| TickerProperties.FadedInFullAlpha | android-newstickerview/src/com/mystictreegames/ui/newstickerview/NewsTickerView.java:456-458 | fade-in finished: alpha exactly 1, the fade handler untouched |
| TickerProperties.FadedInArmsHoldTimer | android-newstickerview/src/com/mystictreegames/ui/newstickerview/NewsTickerView.java:460-466 | for a current item with a time, exactly one hold-timer message, due in `(time - 1) * 1000` ms |
| TickerProperties.FadedInWithoutNews | android-newstickerview/src/com/mystictreegames/ui/newstickerview/NewsTickerView.java:460 | with no news, no hold timer and no exception |
| TickerProperties.FadedInNullItem | android-newstickerview/src/com/mystictreegames/ui/newstickerview/NewsTickerView.java:462-463 | a null current item arms nothing and throws nothing |
| TickerProperties.FadedInThrows | android-newstickerview/src/com/mystictreegames/ui/newstickerview/NewsTickerView.java:462-464 | a rejected index or an item without a time lets an exception escape |
| TickerProperties.RotationMessageStartsFadeOut | android-newstickerview/src/com/mystictreegames/ui/newstickerview/NewsTickerView.java:550-557 | the hold timer firing starts a fade-out from alpha 1 with one fade-out message |
| TickerProperties.ClearFadeEmpty | android-newstickerview/src/com/mystictreegames/ui/newstickerview/NewsTickerView.java:620-633 | removing both fade codes empties a valid fade queue |
| TickerProperties.FadeTick | android-newstickerview/src/com/mystictreegames/ui/newstickerview/NewsTickerView.java:580-597 | delivering a fade message steps alpha by 0.033 in its direction, shows it, and ends the tick |
| TickerProperties.AttachedFadeTick | android-newstickerview/src/com/mystictreegames/ui/newstickerview/NewsTickerView.java:583-586 | unfolding step for `FadeTick`: while attached, a tick adds 0.033 for fade-in and subtracts it for fade-out |
| TickerProperties.FadeTickContinues | android-newstickerview/src/com/mystictreegames/ui/newstickerview/NewsTickerView.java:592-594 | a tick that leaves alpha strictly between 0 and 1 re-arms the same code 33 ms ahead |
| TickerProperties.FadeInStep | android-newstickerview/src/com/mystictreegames/ui/newstickerview/NewsTickerView.java:584-594 | one more fade-in tick before the 30th |
| TickerProperties.FadeInProgress | android-newstickerview/src/com/mystictreegames/ui/newstickerview/NewsTickerView.java:580-606 | after k <= 30 ticks of a fade-in, alpha is 33k/1000 and the same code is pending |
| TickerProperties.FadeInEnds | android-newstickerview/src/com/mystictreegames/ui/newstickerview/NewsTickerView.java:590-591 | the 31st fade-in tick ends with `fadedIn`, alpha exactly 1, the fade handler empty |
| TickerProperties.FadeOutStep | android-newstickerview/src/com/mystictreegames/ui/newstickerview/NewsTickerView.java:584-594 | one more fade-out tick before the 30th |
| TickerProperties.FadeOutProgress | android-newstickerview/src/com/mystictreegames/ui/newstickerview/NewsTickerView.java:580-615 | after k <= 30 ticks of a fade-out, alpha is 1 - 33k/1000 and the same code is pending |
| TickerProperties.FadeOutEnds | android-newstickerview/src/com/mystictreegames/ui/newstickerview/NewsTickerView.java:588-589 | the 31st fade-out tick ends with a rotation step |
| TickerProperties.FadeOutTickEnds | android-newstickerview/src/com/mystictreegames/ui/newstickerview/NewsTickerView.java:588-589 | unfolding step for `FadeOutEnds`: a fade-out tick at alpha 0 or below hands over to the rotation step |
| TickerProperties.FadeStartsMeetRuns | android-newstickerview/src/com/mystictreegames/ui/newstickerview/NewsTickerView.java:599-615 | `startFadeIn` and `startFadeOut` produce the start states of the two runs |
| TickerProperties.TouchWhileLoading | android-newstickerview/src/com/mystictreegames/ui/newstickerview/NewsTickerView.java:274-275 | while loading, every event is ignored and not handled |
| TickerProperties.TapClassification | android-newstickerview/src/com/mystictreegames/ui/newstickerview/NewsTickerView.java:286-307 | a tap is handled, resets the counters, and emits the tap-failed callback in error mode; outside it, the link and tap callback for a valid index with a non-empty link, and nothing at all (only the counters reset) without a valid index or link |
| TickerProperties.TapOnNullItemThrows | android-newstickerview/src/com/mystictreegames/ui/newstickerview/NewsTickerView.java:293-294 | a tap outside error mode on a null current item lets the exception escape: not handled, state and counters unchanged |
| TickerProperties.UpResetsCounters | android-newstickerview/src/com/mystictreegames/ui/newstickerview/NewsTickerView.java:285-317 | every up that throws nothing resets both motion counters; an up that is neither tap nor swipe is unhandled and changes only the counters |
| TickerProperties.SwipeChangesNews | android-newstickerview/src/com/mystictreegames/ui/newstickerview/NewsTickerView.java:308-311 | an up after 3 or more moves, the last a move, is a handled rotation step with counters reset |
| TickerProperties.DownAndMoveRecord | android-newstickerview/src/com/mystictreegames/ui/newstickerview/NewsTickerView.java:279-284 | down and move only record the action; a move counts one more move |
| TickerProperties.DetachClearsQueues | android-newstickerview/src/com/mystictreegames/ui/newstickerview/NewsTickerView.java:238-242 | after detaching, both queues are empty and only the flag and the queues changed |
| TickerProperties.DetachedIsSilent | android-newstickerview/src/com/mystictreegames/ui/newstickerview/NewsTickerView.java:418 | once detached, the step, both fade ends and both handlers change nothing |
| TickerProperties.NothingDeliveredAfterDetach | android-newstickerview/src/com/mystictreegames/ui/newstickerview/NewsTickerView.java:238-242 | after detaching, the message loop has nothing to deliver |
| TickerProperties.ChangeNewsKeepsQueuesValid | android-newstickerview/src/com/mystictreegames/ui/newstickerview/NewsTickerView.java:415-451 | the step keeps at most one message per handler |
| TickerProperties.FadedInKeepsQueuesValid | android-newstickerview/src/com/mystictreegames/ui/newstickerview/NewsTickerView.java:454-469 | `fadedIn` keeps at most one message per handler |
| TickerProperties.HandleRotationMessageKeepsQueuesValid | android-newstickerview/src/com/mystictreegames/ui/newstickerview/NewsTickerView.java:550-557 | the hold-timer handler keeps at most one message per handler |
| TickerProperties.EndTickKeepsQueuesValid | android-newstickerview/src/com/mystictreegames/ui/newstickerview/NewsTickerView.java:588-594 | the end of a tick keeps at most one message per handler |
| TickerProperties.HandleFadeMessageKeepsQueuesValid | android-newstickerview/src/com/mystictreegames/ui/newstickerview/NewsTickerView.java:580-597 | a fade tick keeps at most one message per handler |
| TickerProperties.DeliveryKeepsQueuesValid | android-newstickerview/src/com/mystictreegames/ui/newstickerview/NewsTickerView.java:550-597 | delivering either handler's message keeps at most one message per handler |
| TickerProperties.SetNewsKeepsQueuesValid | android-newstickerview/src/com/mystictreegames/ui/newstickerview/NewsTickerView.java:366-378 | `setNews` keeps at most one message per handler |
| TickerProperties.OnTouchKeepsQueuesValid | android-newstickerview/src/com/mystictreegames/ui/newstickerview/NewsTickerView.java:273-321 | the touch listener keeps at most one message per handler |
| TickerProperties.ReleaseTouchKeepsQueuesValid | android-newstickerview/src/com/mystictreegames/ui/newstickerview/NewsTickerView.java:285-317 | a tap or a swipe keeps at most one message per handler |
| TickerProperties.OnDetachedKeepsQueuesValid | android-newstickerview/src/com/mystictreegames/ui/newstickerview/NewsTickerView.java:234-252 | detaching keeps at most one message per handler |

## Left out

- Drawing (`onDraw`, the time-line bar, `Paint`) and the wall-clock start time `mStartTime` are not modelled. They are rendering and clock reads. The time to handle is kept as a field.
- Reading layout attributes in the constructors is not modelled. The loading-error text, the no-news text, the time-line switch and the initial text colour are constructor parameters.
- `cacheLoadingImage`, the loading image view, the focus and visibility overrides and `setHorizontalFadingEdgeEnabled` are platform views and glue.
- NewsTicker.NewsTickerView.OnStartLoading: only the flag is modelled. The text it sets depends on whether a loading image view was found in the parent layout, which is platform state. `mLoadingText` is therefore left out.
- `startActivity` and its `ActivityNotFoundException` are foreign effects, and so is logging. Opening a link is the `OpenLink` event, and the tap callback follows it in either case.
- `synchronized` blocks and the weak references are not modelled. The model is single-threaded and the back-reference is always live. Only `bDetached` guards the handlers.
- IEEE float rounding of alpha and of the step is not modelled. Alpha is an exact rational, so a fade takes exactly 31 ticks.
- NewsTicker.NewsTickerView.OnNewsLoadingFailed: Java's `errorText != ""` compares references. The model compares values, so an empty string that is not the interned literal selects the default text. A null `errorText` cannot be passed either; Java would call `setText(null)` and show empty text.
- Handler delivery timing is not modelled. A message keeps its code and the delay it was posted with, and delivery takes the next queued message. Negative delays are stored as given.
- The Parcel is an append-only list of typed values with a read cursor. A value read as the wrong type gives the type's default; the model does not reinterpret the bytes.
- The super state of `SavedState` (`BaseSavedState`) is library behaviour and is not modelled. `SavedState.CREATOR.newArray` is left out; it behaves like `News.NewArray`.
- The news list and its items are values. In Java, `setNews` keeps the caller's mutable list, and a holder's fields are public and mutable. A host that edits or shrinks the list after `setNews` cannot be expressed as such. The lemmas quantify over every list and index, so the outcomes this leads to are covered: an index past the end (`TickerProperties.NextIndexInRange`, `TickerProperties.FadedInThrows`) and a null item or time (`TickerProperties.ChangeNewsFailure`, `TickerProperties.FadedInNullItem`).
- `hasNews()` tests the list for null and for a positive size. It is the predicate `TickerModel.HasNews`.
- `showTimeLine()` is the configured time-line flag and `hasNews()`. It is the predicate `TickerModel.ShowTimeLine`.
- `HasLoadingError()` returns the error flag. It is the field `loadingError` of the state and of the class, with no member of its own.
- `DEFAULT_UPDATE_RATE`, `MIN_UPDATE_RATE` and the time-line colour and width are never used by the modelled code.
