/** The games page's session flow: rate your mood, play, end the game, rate
    again, save. The page state is a record; every handler is a function from
    the state, the signed-in user and one clock reading (milliseconds) to the
    next state. The store call is an input: `stored` says whether it succeeded. */
module GameFlow {
  import opened Records

  datatype State = State(
    activeTab: GameType,
    startTime: Option<int>,
    preMood: Option<Mood>,
    postMood: Option<Mood>,
    showPreDialog: bool,
    showPostDialog: bool)

  /** The row a save hands to the store. */
  datatype NewSession = NewSession(
    userId: string,
    gameType: GameType,
    durationSeconds: int,
    preMood: Mood,
    postMood: Mood)

  /** The page after mounting: pendulum tab, nothing rated, pre-game dialog open. */
  function Initial(): State {
    State(Pendulum, None, None, None, true, false)
  }

  /** The ratings both dialogs offer, in order. */
  const MoodChoices: seq<int> := [1, 2, 3, 4, 5, 6, 7, 8, 9, 10]

  lemma MoodChoicesAreMoods()
    ensures forall m :: m in MoodChoices <==> 1 <= m <= 10
    ensures forall i :: 0 <= i < |MoodChoices| ==> MoodChoices[i] == i + 1
  {
  }

  /** `Math.round(ms / 1000)`: to the nearest second, halves rounding up. */
  function RoundToSeconds(ms: int): (r: int)
    ensures 1000 * r - 500 <= ms < 1000 * r + 500
  {
    (ms + 500) / 1000
  }

  /** Nearest-second rounding has exactly one answer. */
  lemma RoundToSecondsUnique(ms: int, r: int)
    requires 1000 * r - 500 <= ms < 1000 * r + 500
    ensures RoundToSeconds(ms) == r
  {
  }

  /** Picking a pre-game rating. The effect on the rating then stamps the
      start time; re-picking the current rating changes nothing, since the
      state and thus the effect's dependency stay the same. */
  function ChoosePreMood(s: State, m: Mood, now: int): (r: State)
    ensures r.preMood == Some(m)
    ensures s.preMood != Some(m) ==> r.startTime == Some(now)
    ensures s.preMood == Some(m) ==> r == s
    ensures r.activeTab == s.activeTab && r.postMood == s.postMood
    ensures r.showPreDialog == s.showPreDialog && r.showPostDialog == s.showPostDialog
  {
    if s.preMood == Some(m) then s
    else s.(preMood := Some(m), startTime := Some(now))
  }

  /** "Start Game" is disabled while no pre-game rating is chosen. */
  predicate StartGameEnabled(s: State) {
    s.preMood.Some?
  }

  /** "Start Game" closes the pre-game dialog. */
  function PressStartGame(s: State): (r: State)
    ensures StartGameEnabled(s) ==> r == s.(showPreDialog := false)
    ensures !StartGameEnabled(s) ==> r == s
  {
    if StartGameEnabled(s) then s.(showPreDialog := false) else s
  }

  /** What `handleEndGame` needs before it does anything. */
  predicate EndGameReady(s: State, user: Option<string>) {
    s.startTime.Some? && user.Some? && s.preMood.Some?
  }

  /** `handleEndGame`: when ready, its one effect is to open the post-game
      dialog (the duration it computes is never used); otherwise nothing. */
  function EndGame(s: State, user: Option<string>): (r: State)
    ensures r.showPostDialog == (s.showPostDialog || EndGameReady(s, user))
    ensures r.(showPostDialog := s.showPostDialog) == s
  {
    if !EndGameReady(s, user) then s else s.(showPostDialog := true)
  }

  /** `handleTabChange`: end the running game if a start time exists, then
      switch tabs and restart the clock. */
  function TabChange(s: State, tab: GameType, user: Option<string>, now: int): (r: State)
    ensures r.activeTab == tab && r.startTime == Some(now)
    ensures r.showPostDialog == (s.showPostDialog || (s.startTime.Some? && EndGameReady(s, user)))
    ensures r.preMood == s.preMood && r.postMood == s.postMood && r.showPreDialog == s.showPreDialog
  {
    var ended := if s.startTime.Some? then EndGame(s, user) else s;
    ended.(activeTab := tab, startTime := Some(now))
  }

  /** Picking a post-game rating. */
  function ChoosePostMood(s: State, m: Mood): (r: State)
    ensures r.postMood == Some(m)
    ensures r.(postMood := s.postMood) == s
  {
    s.(postMood := Some(m))
  }

  /** What `saveSession` needs before it does anything. */
  predicate SaveReady(s: State, user: Option<string>) {
    s.startTime.Some? && user.Some? && s.preMood.Some? && s.postMood.Some?
  }

  /** The state after a save attempt and the row sent to the store, if any. */
  datatype SaveOutcome = SaveOutcome(state: State, request: Option<NewSession>)

  /** `saveSession`: when ready, send the row (game type = active tab,
      duration = elapsed time rounded to seconds); on success restart the
      clock and carry the post-game rating over as the next pre-game rating;
      on failure keep everything. When not ready, nothing at all happens. */
  function SaveSession(s: State, user: Option<string>, now: int, stored: bool): (o: SaveOutcome)
    ensures !SaveReady(s, user) ==> o == SaveOutcome(s, None)
    ensures SaveReady(s, user) ==>
              && o.request.Some?
              && o.request.value.userId == user.value
              && o.request.value.gameType == s.activeTab
              && o.request.value.preMood == s.preMood.value
              && o.request.value.postMood == s.postMood.value
              && 1000 * o.request.value.durationSeconds - 500 <= now - s.startTime.value
              && now - s.startTime.value < 1000 * o.request.value.durationSeconds + 500
    ensures SaveReady(s, user) && stored ==>
              && o.state.startTime == Some(now)
              && o.state.preMood == s.postMood
              && o.state.postMood == None
              && o.state.activeTab == s.activeTab
              && o.state.showPreDialog == s.showPreDialog
              && o.state.showPostDialog == s.showPostDialog
    ensures SaveReady(s, user) && !stored ==> o.state == s
  {
    if !SaveReady(s, user) then SaveOutcome(s, None)
    else
      var duration := RoundToSeconds(now - s.startTime.value);
      var row := NewSession(user.value, s.activeTab, duration, s.preMood.value, s.postMood.value);
      if stored then
        // The rating change re-runs the start-time effect, which reads the
        // same clock again.
        SaveOutcome(s.(startTime := Some(now), preMood := s.postMood, postMood := None), Some(row))
      else
        SaveOutcome(s, Some(row))
  }

  /** "Save Results" is disabled while no post-game rating is chosen. */
  predicate SaveResultsEnabled(s: State) {
    s.postMood.Some?
  }

  /** "Save Results": run the save, then close the post-game dialog. */
  function PressSaveResults(s: State, user: Option<string>, now: int, stored: bool): (o: SaveOutcome)
    ensures !SaveResultsEnabled(s) ==> o == SaveOutcome(s, None)
    ensures SaveResultsEnabled(s) ==>
              o == SaveOutcome(SaveSession(s, user, now, stored).state.(showPostDialog := false),
                               SaveSession(s, user, now, stored).request)
  {
    if !SaveResultsEnabled(s) then SaveOutcome(s, None)
    else
      var o := SaveSession(s, user, now, stored);
      SaveOutcome(o.state.(showPostDialog := false), o.request)
  }

  /** What the user can do on the page. The rating controls and the dialog
      buttons exist only while their dialog is open. */
  datatype Event =
    | PickPreMood(m: Mood)
    | StartGame
    | DismissPreDialog
    | EndCurrentGame
    | SelectTab(tab: GameType)
    | PickPostMood(m: Mood)
    | SaveResults(stored: bool)
    | DismissPostDialog

  function Next(s: State, e: Event, user: Option<string>, now: int): State {
    match e
    case PickPreMood(m) => if s.showPreDialog then ChoosePreMood(s, m, now) else s
    case StartGame => if s.showPreDialog then PressStartGame(s) else s
    case DismissPreDialog => s.(showPreDialog := false)
    case EndCurrentGame => EndGame(s, user)
    case SelectTab(tab) => TabChange(s, tab, user, now)
    case PickPostMood(m) => if s.showPostDialog then ChoosePostMood(s, m) else s
    case SaveResults(stored) => if s.showPostDialog then PressSaveResults(s, user, now, stored).state else s
    case DismissPostDialog => s.(showPostDialog := false)
  }

  /** Facts every reachable page state keeps: a rating implies a running
      clock, a post-game rating or open post-game dialog implies a pre-game
      rating. */
  predicate Inv(s: State) {
    && (s.preMood.Some? ==> s.startTime.Some?)
    && (s.postMood.Some? ==> s.preMood.Some?)
    && (s.showPostDialog ==> s.preMood.Some?)
  }

  lemma InitialInv()
    ensures Inv(Initial())
  {
  }

  lemma NextPreservesInv(s: State, e: Event, user: Option<string>, now: int)
    requires Inv(s)
    ensures Inv(Next(s, e, user, now))
  {
  }

  /** States reached from the initial page by a run of events. */
  function Run(s: State, es: seq<Event>, user: Option<string>, clock: seq<int>): State
    requires |clock| == |es|
  {
    if |es| == 0 then s
    else Next(Run(s, es[..|es| - 1], user, clock[..|es| - 1]), es[|es| - 1], user, clock[|es| - 1])
  }

  lemma {:induction false} RunPreservesInv(es: seq<Event>, user: Option<string>, clock: seq<int>)
    requires |clock| == |es|
    ensures Inv(Run(Initial(), es, user, clock))
  {
    if |es| == 0 {
      InitialInv();
    } else {
      RunPreservesInv(es[..|es| - 1], user, clock[..|es| - 1]);
      NextPreservesInv(Run(Initial(), es[..|es| - 1], user, clock[..|es| - 1]), es[|es| - 1], user, clock[|es| - 1]);
    }
  }

  /** On any reachable page a signed-in user's enabled "Save Results" sends a
      row: the save's own guard can then only fail for want of a user. */
  lemma EnabledSaveSendsRow(s: State, user: Option<string>, now: int, stored: bool)
    requires Inv(s)
    requires SaveResultsEnabled(s) && user.Some?
    ensures PressSaveResults(s, user, now, stored).request.Some?
    ensures !PressSaveResults(s, user, now, stored).state.showPostDialog
  {
  }

  /** Once the clock has started it is never cleared again. */
  lemma StartTimeStaysSet(s: State, e: Event, user: Option<string>, now: int)
    requires s.startTime.Some?
    ensures Next(s, e, user, now).startTime.Some?
  {
  }

  /** After a successful save the following game starts from the rating
      just given, and a second save without a new rating sends nothing. */
  lemma SaveChainsRatings(s: State, user: Option<string>, t1: int, t2: int)
    requires SaveReady(s, user)
    ensures var after := SaveSession(s, user, t1, true).state;
            && after.preMood == s.postMood
            && SaveSession(after, user, t2, true) == SaveOutcome(after, None)
  {
  }

  /** Re-picking a rating keeps the clock that the first pick started, and
      any pick enables "Start Game", which then closes the dialog. */
  lemma PickedRatingStartsGame(s: State, m: Mood, t1: int, t2: int)
    ensures var picked := ChoosePreMood(s, m, t1);
            && StartGameEnabled(picked)
            && ChoosePreMood(picked, m, t2) == picked
            && !PressStartGame(picked).showPreDialog
            && (s.preMood != Some(m) ==> PressStartGame(picked).startTime == Some(t1))
  {
  }

  /** On a reachable page with a signed-in user, "End Game" opens the
      post-game dialog exactly when a pre-game rating has been chosen, and
      pressing it twice is pressing it once. */
  lemma EndGameOpensDialogIffRated(s: State, user: Option<string>)
    requires Inv(s) && user.Some?
    ensures EndGame(s, user).showPostDialog <==> s.showPostDialog || s.preMood.Some?
    ensures EndGame(EndGame(s, user), user) == EndGame(s, user)
  {
  }

  /** A post-game rating goes into the saved row unchanged, and after a
      successful save it is the next game's pre-game rating. */
  lemma PostRatingReachesRow(s: State, m: Mood, user: Option<string>, now: int, stored: bool)
    requires Inv(s) && s.preMood.Some? && user.Some?
    ensures var o := PressSaveResults(ChoosePostMood(s, m), user, now, stored);
            && o.request == Some(NewSession(user.value, s.activeTab, RoundToSeconds(now - s.startTime.value),
                                            s.preMood.value, m))
            && (stored ==> o.state.preMood == Some(m) && o.state.postMood.None?)
  {
    var o := PressSaveResults(ChoosePostMood(s, m), user, now, stored);
    var r := o.request.value;
    RoundToSecondsUnique(now - s.startTime.value, r.durationSeconds);
  }

  /** A tab change restarts the clock, so a save after switching tabs
      records the new tab and only the time since the switch, with the
      ratings given before it. */
  lemma TabChangeCreditsNewTab(s: State, tab: GameType, user: Option<string>, t0: int, m: Mood, t1: int)
    requires Inv(s) && s.preMood.Some? && user.Some?
    ensures var switched := TabChange(s, tab, user, t0);
            && switched.showPostDialog
            && PressSaveResults(ChoosePostMood(switched, m), user, t1, true).request
               == Some(NewSession(user.value, tab, RoundToSeconds(t1 - t0), s.preMood.value, m))
  {
    var switched := TabChange(s, tab, user, t0);
    PostRatingReachesRow(switched, m, user, t1, true);
  }
}
