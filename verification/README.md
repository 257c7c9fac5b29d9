# AI mental-health helper: a verified model of its computational core

The application is a Next.js site with three parts that compute something. This
project models those parts in Dafny and proves what they promise:

- **The dashboard's analytics.** It adds up the time played per game for the
  activity pie chart. It builds the "insights" cards: the mean mood, the game
  with the best average mood improvement, and a rough number of sessions per
  week. It also lays out the recent-sessions table.
- **The games page's session flow.** The user rates their mood, plays, ends
  the game, rates again and saves a `game_sessions` row. The model includes
  how that row's duration is rounded and how the post-game rating carries
  over to the next game.
- **The model-training wizard's progress bars.** Each bar is a counter
  stepped by an interval timer. Its completion gates the "Next: Deployment"
  button.
- **Two of the relaxation games.** The particle flow game draws particles at
  random, moves them, bounces them off the walls and links every pair
  closer than 100 pixels. The pendulum game is a damped pendulum integrated
  once per animation frame, together with the pause, reset and slider
  behaviour of its React component.

One Dafny module per source file:

| file | module | models |
|---|---|---|
| `records.dfy` | `Records` | the `GameSession` row, the three game kinds, the 1..10 mood score, `Option` for a missing field |
| `dashboard.dfy` | `Dashboard` | `app/dashboard/page.tsx`: duration totals and pie data, effectiveness tallies and the most effective game, insight cards, recent-sessions rows |
| `game_flow.dfy` | `GameFlow` | `app/games/page.tsx`: page state, mood dialogs, end game, tab change, save |
| `training.dfy` | `Training` | `app/model-training/page.tsx`: upload and training counters, wizard tabs and gates |
| `particles.dfy` | `Particles` | `components/games/particle-game.tsx`: initialisation, movement and bounce, pair connections, the component's events |
| `pendulum.dfy` | `Pendulum` | `components/games/pendulum-game.tsx`: the integration step, the effect's restart, the frame callbacks, reset |

Modelling conventions:

- **Object key order.** A JavaScript object keyed by game type is an
  `OrderedRecord`. It has a key sequence in insertion order, which is the
  order `Object.entries` reports, and a map of the current values.
- **Page state.** Each React page is an immutable state record. Each event
  handler is a function from a state to the next state.
- **Inputs.** The clock (milliseconds), the signed-in user, the success of a
  store call, the `Math.random()` draws, the animation-frame timestamps and
  `Math.sin` are all parameters.
- **Numbers.** Numbers are exact integers or reals. Where JavaScript's
  rounding matters, it is written out:
  - `Math.round(ms / 1000)` is `(ms + 500) / 1000`, Dafny's floor division;
  - `Math.floor(d / 60)` is `d / 60`;
  - `d % 60` truncates toward zero.
- **Sorting.** The sort behind the most effective game is stable. ECMAScript
  requires `Array.prototype.sort` to be stable, so the entry it puts first is
  the earliest entry with the highest average.

## Model

| member | source | states |
|---|---|---|
| Records.TypeNameInjective | lib/game-service.ts:6 | the three game kinds are stored under three different strings, so a stored type string identifies its game |
| Dashboard.KeyOrderIsFirstOccurrenceOrder | app/dashboard/page.tsx:57-66 | assigning keys in turn to an empty object lists every assigned key exactly once, ordered by where it was first assigned |
| Dashboard.DurationTotalsCorrect | app/dashboard/page.tsx:57-64 | the duration reduce has a key for exactly the game types that occur, in first-occurrence order, each holding the total duration of that type's sessions |
| Dashboard.DurationGrandTotal | app/dashboard/page.tsx:57-64 | the per-type totals add up to the total duration of all sessions |
| Dashboard.PieNames | app/dashboard/page.tsx:67 | the slice labels are "Pendulum", "Particles" and "Waves" |
| Dashboard.CapitalizeIdempotent | app/dashboard/page.tsx:67 | capitalising a label twice gives the same label as capitalising it once, and a name that does not start with a lower-case letter is shown unchanged |
| Dashboard.SessionPieChart | app/dashboard/page.tsx:57-69 | the pie chart has one slice per game type that occurs, with pairwise different labels, each valued at the type's total duration; the slices sum to the total time played |
| Dashboard.EffectivenessCorrect | app/dashboard/page.tsx:110-122 | a game type has an effectiveness entry iff one of its sessions has both ratings; the entry counts those sessions and sums their post − pre changes; keys are in first-rated order |
| Dashboard.Tallied | app/dashboard/page.tsx:125 | the filter keeps exactly the entries with a positive count |
| Dashboard.FirstBest | app/dashboard/page.tsx:126 | the entry a stable descending sort by average puts first has the highest average, and every earlier entry has a strictly lower one |
| Dashboard.MostEffectiveIsBest | app/dashboard/page.tsx:124-130 | a most effective game exists iff some session has both ratings; its tallies are that game's sums; no rated game has a higher average, and on a tie it is the game rated first |
| Dashboard.Insights | app/dashboard/page.tsx:83-153 | without sessions the only card is "No Data Yet"; with sessions there are one to three cards and "Session Frequency" is last |
| Dashboard.InsightTitles | app/dashboard/page.tsx:84-150 | with sessions the card titles are "Mood Patterns" iff there is mood data, then "Game Benefits" iff some session is rated, then "Session Frequency" |
| Dashboard.InsightMessages | app/dashboard/page.tsx:96-149 | the mood card has the mean mood and is positive iff it exceeds 6; the benefit card names a game no rated game beats; the advice to play more appears iff there are fewer than three sessions |
| Dashboard.FrequencyAdvice | app/dashboard/page.tsx:141-147 | the advice to play more is given iff there are fewer than three sessions, since from eight sessions on the halved weekly figure is at least 4 |
| Dashboard.BenefitCard | app/dashboard/page.tsx:124-135 | the "Game Benefits" card exists iff some session has both ratings, and then it names a game that no rated game beats, with that game's average improvement |
| Dashboard.DurationCell | app/dashboard/page.tsx:316 | for a non-negative duration the cell shows minutes and seconds with 0 ≤ s < 60 that recombine to the duration; for a negative one the seconds are non-positive and recombine only when zero |
| Dashboard.MoodCellShowsScores | app/dashboard/page.tsx:318-319 | a rating from 1 to 10 is shown as it is; a missing rating and a stored 0 are both shown as a dash |
| Dashboard.ChangeIsAfterMinusBefore | app/dashboard/page.tsx:318-330 | for a session rated with real scores, the Before and After cells show the two ratings and the Change cell is After − Before |
| Dashboard.ZeroRatingHiddenButCounted | app/dashboard/page.tsx:318-330 | a stored 0 pre-game rating shows as a dash, yet the Change cell still subtracts it |
| Dashboard.RecentRowsIgnoreOlder | app/dashboard/page.tsx:311 | once there are five sessions, appending any older sessions leaves the table unchanged |
| Dashboard.ChangeTotalIsImprovement | app/dashboard/page.tsx:311-330 | while the table lists every session, the Change cells of a game's rows add up to that game's total improvement, the figure its effectiveness entry holds |
| Dashboard.ChangeSignMatchesColour | app/dashboard/page.tsx:321-330 | the "+" sign and the green colour always agree, so an unchanged mood is red and unsigned |
| GameFlow.MoodChoicesAreMoods | app/games/page.tsx:173 | the rating controls offer exactly the scores 1 to 10, in order |
| GameFlow.RoundToSeconds | app/games/page.tsx:73 | the saved duration is the whole number of seconds nearest to the elapsed milliseconds, with halves rounding up |
| GameFlow.RoundToSecondsUnique | app/games/page.tsx:73 | that nearest whole second is unique |
| GameFlow.PickedRatingStartsGame | app/games/page.tsx:42-47 | a pre-game rating enables "Start Game", which then closes the dialog; picking the same rating again keeps the clock the first pick started |
| GameFlow.EndGameOpensDialogIffRated | app/games/page.tsx:59-67 | on a reachable page with a signed-in user, "End Game" opens the post-game dialog iff a pre-game rating was chosen, and pressing it twice is pressing it once |
| GameFlow.PostRatingReachesRow | app/games/page.tsx:69-96 | with a pre-game rating and a user, the chosen post-game rating, the active game and the rounded elapsed time all go into the saved row, and after a successful save the post-game rating is the next pre-game rating |
| GameFlow.TabChangeCreditsNewTab | app/games/page.tsx:49-96 | a tab change opens the post-game dialog, and the save that follows records the new tab and only the time since the switch |
| GameFlow.SaveSession | app/games/page.tsx:69-96 | a save sends a row iff clock, user and both ratings exist; the row carries the user, active game, both ratings and the rounded duration; success restarts the clock and makes the post-game rating the next pre-game rating; failure changes nothing |
| GameFlow.RunPreservesInv | app/games/page.tsx:37-96 | on every page reachable from the first render, a rating implies a running clock, and a post-game rating or an open post-game dialog implies a pre-game rating |
| GameFlow.NextPreservesInv | app/games/page.tsx:37-96 | every user action keeps that invariant |
| GameFlow.EnabledSaveSendsRow | app/games/page.tsx:69-70 | on a reachable page an enabled "Save Results" with a signed-in user always sends a row and closes the dialog |
| GameFlow.StartTimeStaysSet | app/games/page.tsx:42-96 | once the clock has started, no action clears it |
| GameFlow.SaveChainsRatings | app/games/page.tsx:84-87 | after a successful save the next game starts from the rating just given, and saving again without a new rating sends nothing |
| Training.TickPreserves | app/model-training/page.tsx:20-47 | a tick keeps a bar within 0..100 at a multiple of its step, and never moves it backwards |
| Training.TicksMonotone | app/model-training/page.tsx:20-47 | over any number of ticks the bar stays valid and never goes backwards |
| Training.TicksFromStart | app/model-training/page.tsx:20-47 | n ticks after a start put the bar at min(step·n, 100), with the timer alive iff step·n ≤ 100 |
| Training.UploadSchedule | app/model-training/page.tsx:20-33 | the upload bar reaches 100 on the 20th tick and its timer stops on the 21st |
| Training.TrainingSchedule | app/model-training/page.tsx:35-48 | the training bar reaches 100 on the 100th tick and its timer stops on the 101st |
| Training.ButtonsGate | app/model-training/page.tsx:89-192 | a start button pressed while its bar runs is ignored; the deployment tab is entered only from the tab strip or from an enabled "Next: Deployment" |
| Training.ProgressStaysShown | app/model-training/page.tsx:96-176 | a progress block is hidden before its bar first starts, and once shown it never disappears |
| Training.NextPreservesValid | app/model-training/page.tsx:20-192 | every wizard event keeps both bars valid, and apart from a restart neither bar moves backwards |
| Training.CompleteIffDeploymentEnabled | app/model-training/page.tsx:183-192 | on a valid page "Training complete!" is shown iff "Next: Deployment" is enabled |
| Training.TabStripBypassesGate | app/model-training/page.tsx:73-77 | the tab strip reaches the deployment tab with no training done, although the deployment button is disabled |
| Particles.PaletteIndex | components/games/particle-game.tsx:46 | the colour draw always indexes one of the five palette colours |
| Particles.InitParticles | components/games/particle-game.tsx:35-51 | initialisation makes exactly `count` particles, each on the canvas, with velocity components in [-1, 1), radius in [2, 7) and a palette colour |
| Particles.MoveReflects | components/games/particle-game.tsx:66-73 | a move keeps the speed along each axis and turns a particle that has crossed a wall heading outwards back inwards |
| Particles.MoveKeepsDrifting | components/games/particle-game.tsx:43-73 | moving keeps velocities within [-1, 1], the radius within [2, 7) and the colour in the palette |
| Particles.FrameLinksMovedParticles | components/games/particle-game.tsx:55-99 | a paused frame draws no lines; a playing frame links a pair i < j iff the two particles are near after this frame's move, and every line joins such a pair |
| Particles.PairsBeforeShape | components/games/particle-game.tsx:83-84 | the first i rounds of the pair loop visit exactly the pairs (a, b) with a < i and a < b < n, in strictly increasing order, i·n − i(i+1)/2 of them |
| Particles.AllPairsExactlyOnce | components/games/particle-game.tsx:83-84 | the pair loop visits every unordered pair of particles exactly once, n(n−1)/2 pairs in all |
| Particles.LinksOfMembership | components/games/particle-game.tsx:85-97 | a line is drawn for a visited pair iff the two particles are nearer than 100, and it records their squared distance |
| Particles.Connections | components/games/particle-game.tsx:83-99 | the nested loops visit every pair exactly once and draw exactly the lines for the near pairs, in visiting order |
| Particles.ConnectionsDrawn | components/games/particle-game.tsx:83-99 | every near pair i < j gets a line, and every line joins such a pair |
| Particles.SquaredThreshold | components/games/particle-game.tsx:88-90 | comparing the squared distance with 100² decides the same as comparing the distance with 100 |
| Particles.Alpha | components/games/particle-game.tsx:94 | a drawn line's opacity lies in (0, 1], and is 1 exactly for coincident particles |
| Particles.AlphaFadesWithDistance | components/games/particle-game.tsx:94 | nearer pairs get more opaque lines |
| Particles.Step | components/games/particle-game.tsx:18-154 | a frame moves every particle while playing and changes nothing while paused; the slider sets the count, and a move to the same count changes nothing; Reset resumes play and Play/Pause flips the flag; after Reset, Play/Pause or a new count there are exactly `count` fresh particles |
| Particles.StepPreservesGameInv | components/games/particle-game.tsx:35-80 | every event keeps as many particles as the slider says, between 10 and 100, each drifting within its velocity, radius and colour ranges |
| Particles.Mount | components/games/particle-game.tsx:18-53 | the first render shows 50 fresh particles and is playing |
| Particles.MountInv | components/games/particle-game.tsx:18-53 | the first render satisfies the game's invariant |
| Particles.RunPreservesGameInv | components/games/particle-game.tsx:18-154 | any sequence of frames and button or slider events keeps the invariant, so 10 to 100 particles are on screen |
| Particles.MountedRunInv | components/games/particle-game.tsx:18-154 | every state reachable from the first render satisfies the invariant |
| Pendulum.AccelerationBound | components/games/pendulum-game.tsx:25-26 | the angular acceleration is at most g/L in size, and so at most 9.8/50 |
| Pendulum.RestoringFromRest | components/games/pendulum-game.tsx:45-48 | from rest, a step of positive length moves a bob on either side back towards the vertical |
| Pendulum.ZeroStepOnlyDamps | components/games/pendulum-game.tsx:42-48 | a frame with no elapsed time keeps the angle and only damps the velocity |
| Pendulum.DampingAtEquilibrium | components/games/pendulum-game.tsx:45-48 | at zero restoring force the velocity shrinks by the damping factor each step, and a bob at rest stays at rest |
| Pendulum.BobOnCircle | components/games/pendulum-game.tsx:54-55 | the bob is drawn exactly `length` pixels from the pivot |
| Pendulum.FirstFramesFromMount | components/games/pendulum-game.tsx:28-48 | after mounting, the first frame leaves the bob at π/4 and the second starts it moving towards the vertical |
| Pendulum.SlideRestarts | components/games/pendulum-game.tsx:123-127 | the slider leaves the state unchanged iff the length is unchanged, and otherwise restarts the swing |
| Pendulum.RunPreservesInv | components/games/pendulum-game.tsx:14-112 | in every reachable state nothing is drawn while paused, reset frames are pending only while playing, and a paused component that stopped asking for frames has no timestamp |
| Pendulum.StepPreservesInv | components/games/pendulum-game.tsx:14-112 | every frame, slider move or button press keeps that invariant |
| Pendulum.ResumeStartsFresh | components/games/pendulum-game.tsx:36-42 | after pausing and resuming, the swing restarts from π/4 at rest and the first frame only takes a timestamp, so the paused time never becomes one huge step |
| Pendulum.ResetWhilePlayingFreezes | components/games/pendulum-game.tsx:95-111 | Reset while playing ends, after its two frames, with a cleared canvas, no pending frame and the flag still "playing", and no later frame changes anything |
| Pendulum.IdleStaysIdle | components/games/pendulum-game.tsx:35-39 | with no frame pending, frames change nothing until a button or the slider is used |
| Pendulum.ResetWhilePausedRestarts | components/games/pendulum-game.tsx:95-96 | Reset while paused resumes play from π/4 at rest with a frame requested |
| Pendulum.PauseFreezes | components/games/pendulum-game.tsx:35-39 | pausing stops the animation after one frame, which forgets the timestamp, and no later frame advances or draws the swing |
| Pendulum.PlayingKeepsAnimating | components/games/pendulum-game.tsx:41-83 | while playing, every frame keeps requesting the next one and records its own timestamp |

## Left out

- The hosted store, authentication and network calls are not modelled. A
  save's outcome is the boolean `stored`. The dashboard receives the
  session list and the mood scores as inputs. Formatting dates and loading
  the mood chart are not modelled.
- Absent ratings are `None`, as the `undefined` in the row type. A store
  that returns `null` for a missing rating would pass the page's
  `!== undefined` tests. Then `post - pre` computes with nulls. That
  behaviour is outside the model.
- The therapy chat, the landing and auth pages and the wave game are not
  part of this model. The canvas drawing calls, text and colours are not
  modelled either. The exceptions are the pendulum's `shown` flag and the
  lines the particle game draws.
- Timers and animation frames become explicit events. The scheduler
  deciding when they fire is not modelled. The save is modelled as one
  atomic step, though the source awaits it. Two interleaved saves are
  therefore not modelled.
- Every handler reads the clock once. The `new Date()` calls that the
  source makes within one handler are taken to read the same instant.
- Floating point is replaced by exact reals and integers. Float rounding in
  the physics, the averages and `toFixed(1)` is not modelled. `Math.sin`
  and `Math.cos` are parameters, and only the properties their lemmas
  require are assumed of them.
- Dashboard.Capitalize: models `toUpperCase` on ASCII letters only. The
  only names it receives are the three lower-case ASCII game names.
- Dashboard.InsightMessages: states the cards' figures and the branch each
  message takes, not the formatted text.
- GameFlow.Next: the pre- and post-game dialogs are modal. The model lets
  page events happen while a dialog is open, so it permits more orders of
  events than a user at the screen can produce.
- GameFlow.EndGame: computes no duration. The one the source computes is
  never used.
- Particles.Step: Reset while paused draws two batches of particles. The
  handler draws one, and the effect re-run it triggers draws another. The
  model takes the surviving batch as the only draw. Reset while playing
  starts the handler's own animation loop. That loop moves and links
  particles exactly as the effect's loop does, so it is modelled as the
  same frame. An event that draws a batch carries at least 100 draws, and a batch
  of n particles uses the first n of them.
- Particles.Frame: does not model the canvas size or the instructions
  text. Width and height are whole numbers of pixels.
- Pendulum.OnFrame: the canvas centre, string, bob and instructions are
  drawn but not modelled. Only whether the swing is on the canvas is kept.
- The pendulum's length slider restarts the swing from π/4 at rest. The
  angle and velocity live inside the animation effect, and the effect
  re-runs when the length changes. The model follows that code rather than
  a reading in which a length change takes effect without any state reset.
