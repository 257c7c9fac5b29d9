/** Shared record shapes: the optional value, the three game kinds, the
    1..10 mood rating and the game-session row as the hosted store returns it. */
module Records {

  /** A value that may be missing (a JavaScript `undefined` field). */
  datatype Option<+T> = None | Some(value: T)

  /** The three relaxation games; the store keeps them as lower-case strings. */
  datatype GameType = Pendulum | Particles | Waves

  /** The string the store and the tabs use for a game kind. */
  function TypeName(t: GameType): (name: string)
    ensures |name| > 0
  {
    match t
    case Pendulum => "pendulum"
    case Particles => "particles"
    case Waves => "waves"
  }

  /** Distinct kinds are stored under distinct names. */
  lemma TypeNameInjective(a: GameType, b: GameType)
    ensures TypeName(a) == TypeName(b) <==> a == b
  {
    if a != b {
      assert TypeName(a)[0] != TypeName(b)[0] || TypeName(a)[1] != TypeName(b)[1];
    }
  }

  /** A self-reported mood score; the rating controls offer exactly 1..10. */
  type Mood = m: int | 1 <= m <= 10 witness 1

  /** One row of the `game_sessions` table. */
  datatype GameSession = GameSession(
    id: string,
    userId: string,
    gameType: GameType,
    durationSeconds: int,
    preMood: Option<int>,
    postMood: Option<int>,
    createdAt: string)

  /** The magnitude of a real. */
  function Abs(r: real): (a: real)
    ensures a >= 0.0 && (a == r || a == -r)
  {
    if r < 0.0 then -r else r
  }

  /** Both mood ratings were recorded for the session. */
  predicate Rated(s: GameSession) {
    s.preMood.Some? && s.postMood.Some?
  }

  /** post − pre for a session with both ratings. */
  function MoodChange(s: GameSession): int
    requires Rated(s)
  {
    s.postMood.value - s.preMood.value
  }
}
