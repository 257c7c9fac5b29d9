/** The dashboard's analytics over a user's game sessions: the per-game
    duration totals behind the activity pie chart, the "insights" cards, and
    the recent-sessions table. Everything here is a pure computation over the
    rows the hosted store returned (newest first). */
module Dashboard {
  import opened Records

  // ---------------------------------------------------------------------
  // Insertion-ordered records (a JavaScript object keyed by game type)
  // ---------------------------------------------------------------------

  /** A plain object keyed by game type. `keys` is the insertion order that
      `Object.entries` reports; `values` holds the current values. */
  datatype OrderedRecord<V> = OrderedRecord(keys: seq<GameType>, values: map<GameType, V>)

  predicate Distinct(ks: seq<GameType>) {
    forall a, b :: 0 <= a < b < |ks| ==> ks[a] != ks[b]
  }

  /** The keys are listed once each, and exactly the stored keys are listed. */
  predicate WellFormed<V>(r: OrderedRecord<V>) {
    Distinct(r.keys) && forall k :: k in r.values <==> k in r.keys
  }

  function Empty<V>(): OrderedRecord<V> {
    OrderedRecord([], map[])
  }

  /** `obj[k] = v`: an existing key keeps its place, a new key goes last. */
  function Upsert<V>(r: OrderedRecord<V>, k: GameType, v: V): OrderedRecord<V> {
    OrderedRecord(if k in r.values then r.keys else r.keys + [k], r.values[k := v])
  }

  /** `Object.entries(obj)`. */
  function Entries<V>(r: OrderedRecord<V>): (es: seq<(GameType, V)>)
    requires WellFormed(r)
    ensures |es| == |r.keys|
    ensures forall i :: 0 <= i < |es| ==> es[i].0 == r.keys[i] && es[i].1 == r.values[r.keys[i]]
  {
    seq(|r.keys|, i requires 0 <= i < |r.keys| => (r.keys[i], r.values[r.keys[i]]))
  }

  /** The key order an object ends with after assigning to the keys `ts`
      in turn, starting from an empty object. */
  function KeyOrder(ts: seq<GameType>): seq<GameType> {
    if |ts| == 0 then []
    else
      var prev := KeyOrder(ts[..|ts| - 1]);
      if ts[|ts| - 1] in prev then prev else prev + [ts[|ts| - 1]]
  }

  /** Position of the first occurrence of `k` in `ts`. */
  function FirstIndex(ts: seq<GameType>, k: GameType): (i: nat)
    requires k in ts
    ensures i < |ts| && ts[i] == k
    ensures forall j :: 0 <= j < i ==> ts[j] != k
  {
    if ts[0] == k then 0 else 1 + FirstIndex(ts[1..], k)
  }

  /** Assigning keys in turn lists every assigned key exactly once, in the
      order of their first assignment. */
  lemma {:induction false} KeyOrderIsFirstOccurrenceOrder(ts: seq<GameType>)
    ensures Distinct(KeyOrder(ts))
    ensures forall k :: k in KeyOrder(ts) <==> k in ts
    ensures forall a, b :: 0 <= a < b < |KeyOrder(ts)| ==>
              FirstIndex(ts, KeyOrder(ts)[a]) < FirstIndex(ts, KeyOrder(ts)[b])
  {
    if |ts| > 0 {
      var p := ts[..|ts| - 1];
      var x := ts[|ts| - 1];
      assert ts == p + [x];
      KeyOrderIsFirstOccurrenceOrder(p);
      var ks := KeyOrder(ts);
      forall k | k in p
        ensures FirstIndex(ts, k) == FirstIndex(p, k)
      {
        var i := FirstIndex(p, k);
        assert ts[i] == k;
      }
      if x !in KeyOrder(p) {
        assert x !in p;
        assert FirstIndex(ts, x) == |ts| - 1;
        forall a, b | 0 <= a < b < |ks|
          ensures FirstIndex(ts, ks[a]) < FirstIndex(ts, ks[b])
        {
          assert ks[a] in KeyOrder(p);
          if b < |ks| - 1 {
            assert ks[b] in KeyOrder(p);
            assert KeyOrder(p)[a] == ks[a] && KeyOrder(p)[b] == ks[b];
          }
        }
      }
    }
  }

  lemma KeyOrderEarlier(ts: seq<GameType>, a: nat, b: nat)
    requires a < b < |KeyOrder(ts)|
    ensures KeyOrder(ts)[a] in ts && KeyOrder(ts)[b] in ts
    ensures FirstIndex(ts, KeyOrder(ts)[a]) < FirstIndex(ts, KeyOrder(ts)[b])
  {
    KeyOrderIsFirstOccurrenceOrder(ts);
  }

  // ---------------------------------------------------------------------
  // Reference sums over the session list
  // ---------------------------------------------------------------------

  /** The game type of every session, in list order. */
  function TypesOf(ss: seq<GameSession>): (ts: seq<GameType>)
    ensures |ts| == |ss|
    ensures forall i :: 0 <= i < |ss| ==> ts[i] == ss[i].gameType
  {
    seq(|ss|, i requires 0 <= i < |ss| => ss[i].gameType)
  }

  /** The game type of every session that has both ratings, in list order. */
  function RatedTypes(ss: seq<GameSession>): seq<GameType> {
    if |ss| == 0 then []
    else RatedTypes(ss[..|ss| - 1]) + (if Rated(ss[|ss| - 1]) then [ss[|ss| - 1].gameType] else [])
  }

  /** Sum of `duration_seconds` over all sessions. */
  function TotalDuration(ss: seq<GameSession>): int {
    if |ss| == 0 then 0 else ss[0].durationSeconds + TotalDuration(ss[1..])
  }

  /** Sum of `duration_seconds` over the sessions of type `t`. */
  function DurationOf(ss: seq<GameSession>, t: GameType): int {
    if |ss| == 0 then 0
    else (if ss[0].gameType == t then ss[0].durationSeconds else 0) + DurationOf(ss[1..], t)
  }

  /** Number of sessions of type `t` with both ratings. */
  function RatedCount(ss: seq<GameSession>, t: GameType): nat {
    if |ss| == 0 then 0
    else (if ss[0].gameType == t && Rated(ss[0]) then 1 else 0) + RatedCount(ss[1..], t)
  }

  /** Sum of post − pre over the sessions of type `t` with both ratings. */
  function Improvement(ss: seq<GameSession>, t: GameType): int {
    if |ss| == 0 then 0
    else (if ss[0].gameType == t && Rated(ss[0]) then MoodChange(ss[0]) else 0) + Improvement(ss[1..], t)
  }

  /** Appending one session adds its own share to every reference sum. */
  lemma {:induction false} SumsAppend(ss: seq<GameSession>, x: GameSession, t: GameType)
    ensures TotalDuration(ss + [x]) == TotalDuration(ss) + x.durationSeconds
    ensures DurationOf(ss + [x], t) == DurationOf(ss, t) + (if x.gameType == t then x.durationSeconds else 0)
    ensures RatedCount(ss + [x], t) == RatedCount(ss, t) + (if x.gameType == t && Rated(x) then 1 else 0)
    ensures Improvement(ss + [x], t) == Improvement(ss, t) + (if x.gameType == t && Rated(x) then MoodChange(x) else 0)
  {
    if |ss| > 0 {
      assert (ss + [x])[1..] == ss[1..] + [x];
      SumsAppend(ss[1..], x, t);
    }
  }

  /** A type that never occurs contributes nothing. */
  lemma {:induction false} AbsentTypeSumsVanish(ss: seq<GameSession>, t: GameType)
    ensures t !in TypesOf(ss) ==> DurationOf(ss, t) == 0
    ensures t !in RatedTypes(ss) <==> RatedCount(ss, t) == 0
    ensures RatedCount(ss, t) == 0 ==> Improvement(ss, t) == 0
  {
    if |ss| > 0 {
      var p := ss[..|ss| - 1];
      var x := ss[|ss| - 1];
      assert ss == p + [x];
      AbsentTypeSumsVanish(p, t);
      SumsAppend(p, x, t);
      assert TypesOf(p) == TypesOf(ss)[..|ss| - 1];
      if t !in TypesOf(ss) {
        assert forall k :: k in TypesOf(p) ==> k in TypesOf(ss);
      }
    }
  }

  // ---------------------------------------------------------------------
  // Activity breakdown (the pie chart)
  // ---------------------------------------------------------------------

  /** One step of the duration reduce: `acc[type] = (acc[type] || 0) + duration`. */
  function AddDuration(acc: OrderedRecord<int>, s: GameSession): OrderedRecord<int> {
    var t := s.gameType;
    Upsert(acc, t, (if t in acc.values then acc.values[t] else 0) + s.durationSeconds)
  }

  /** The reduce over the session list, left to right. */
  function DurationTotals(ss: seq<GameSession>): OrderedRecord<int> {
    if |ss| == 0 then Empty()
    else AddDuration(DurationTotals(ss[..|ss| - 1]), ss[|ss| - 1])
  }

  /** Exactly the occurring types get a key, in the order they first occur,
      and each key holds the duration total of its own sessions. */
  lemma {:induction false} DurationTotalsCorrect(ss: seq<GameSession>)
    ensures WellFormed(DurationTotals(ss))
    ensures DurationTotals(ss).keys == KeyOrder(TypesOf(ss))
    ensures forall t :: t in DurationTotals(ss).values <==> t in TypesOf(ss)
    ensures forall t :: t in DurationTotals(ss).values ==> DurationTotals(ss).values[t] == DurationOf(ss, t)
  {
    if |ss| > 0 {
      var p := ss[..|ss| - 1];
      var x := ss[|ss| - 1];
      assert ss == p + [x];
      DurationTotalsCorrect(p);
      assert TypesOf(ss) == TypesOf(p) + [x.gameType];
      assert TypesOf(ss)[..|ss| - 1] == TypesOf(p);
      KeyOrderIsFirstOccurrenceOrder(TypesOf(p));
      KeyOrderIsFirstOccurrenceOrder(TypesOf(ss));
      forall t | t in DurationTotals(ss).values
        ensures DurationTotals(ss).values[t] == DurationOf(ss, t)
      {
        SumsAppend(p, x, t);
        if t != x.gameType {
          assert t in DurationTotals(p).values;
        } else if t !in DurationTotals(p).values {
          AbsentTypeSumsVanish(p, t);
        }
      }
    }
  }

  /** Sum of the values stored under the keys `ks`. */
  function SumOver(ks: seq<GameType>, m: map<GameType, int>): int
    requires forall k :: k in ks ==> k in m
  {
    if |ks| == 0 then 0 else SumOver(ks[..|ks| - 1], m) + m[ks[|ks| - 1]]
  }

  lemma {:induction false} SumOverUpdate(ks: seq<GameType>, m: map<GameType, int>, k: GameType, v: int)
    requires Distinct(ks)
    requires forall j :: j in ks ==> j in m
    ensures k !in ks ==> SumOver(ks, m[k := v]) == SumOver(ks, m)
    ensures k in ks ==> SumOver(ks, m[k := v]) == SumOver(ks, m) - m[k] + v
  {
    if |ks| > 0 {
      var p := ks[..|ks| - 1];
      assert forall j :: j in p ==> j in ks;
      SumOverUpdate(p, m, k, v);
      if k == ks[|ks| - 1] {
        assert k !in p;
      }
    }
  }

  /** Assigning to a key keeps an object well formed. */
  lemma UpsertWellFormed<V>(r: OrderedRecord<V>, k: GameType, v: V)
    requires WellFormed(r)
    ensures WellFormed(Upsert(r, k, v))
    ensures k !in r.values ==> Upsert(r, k, v).keys[..|r.keys|] == r.keys
  {
    if k !in r.values {
      var ks := r.keys + [k];
      assert ks[..|r.keys|] == r.keys;
      forall a, b | 0 <= a < b < |ks|
        ensures ks[a] != ks[b]
      {
        if b == |r.keys| {
          assert ks[a] == r.keys[a];
        }
      }
    }
  }

  /** One reduce step adds the session's duration to the sum of the entries. */
  lemma AddDurationSum(acc: OrderedRecord<int>, x: GameSession)
    requires WellFormed(acc)
    ensures WellFormed(AddDuration(acc, x))
    ensures SumOver(AddDuration(acc, x).keys, AddDuration(acc, x).values)
            == SumOver(acc.keys, acc.values) + x.durationSeconds
  {
    var t := x.gameType;
    var v := (if t in acc.values then acc.values[t] else 0) + x.durationSeconds;
    var r := AddDuration(acc, x);
    assert r == Upsert(acc, t, v);
    UpsertWellFormed(acc, t, v);
    SumOverUpdate(acc.keys, acc.values, t, v);
    if t in acc.values {
      assert r.keys == acc.keys && r.values == acc.values[t := v];
    } else {
      assert t !in acc.keys;
      assert r.keys[..|r.keys| - 1] == acc.keys && r.keys[|r.keys| - 1] == t;
      assert SumOver(r.keys, r.values) == SumOver(acc.keys, r.values) + v;
    }
  }

  lemma {:induction false} DurationGrandTotal(ss: seq<GameSession>)
    ensures WellFormed(DurationTotals(ss))
    ensures SumOver(DurationTotals(ss).keys, DurationTotals(ss).values) == TotalDuration(ss)
  {
    if |ss| > 0 {
      var p := ss[..|ss| - 1];
      var x := ss[|ss| - 1];
      assert ss == p + [x];
      DurationGrandTotal(p);
      AddDurationSum(DurationTotals(p), x);
      SumsAppend(p, x, x.gameType);
    }
  }

  /** `c.toUpperCase()` on the ASCII letters the game names use. */
  function UpperAscii(c: char): (u: char)
    ensures 'a' <= c <= 'z' ==> 'A' <= u <= 'Z' && u as int == c as int - 32
    ensures !('a' <= c <= 'z') ==> u == c
  {
    if 'a' <= c <= 'z' then (c as int - 32) as char else c
  }

  /** `name.charAt(0).toUpperCase() + name.slice(1)`. */
  function Capitalize(name: string): (r: string)
    ensures |r| == |name|
    ensures |name| > 0 ==> r[0] == UpperAscii(name[0]) && r[1..] == name[1..]
  {
    if |name| == 0 then "" else [UpperAscii(name[0])] + name[1..]
  }

  /** Capitalising twice is capitalising once, and a name that already
      starts with a capital (or with no letter at all) is left alone. */
  lemma CapitalizeIdempotent(name: string)
    ensures Capitalize(Capitalize(name)) == Capitalize(name)
    ensures |name| > 0 && !('a' <= name[0] <= 'z') ==> Capitalize(name) == name
  {
    if |name| > 0 {
      assert Capitalize(name)[1..] == name[1..];
      if !('a' <= name[0] <= 'z') {
        assert name == [name[0]] + name[1..];
      }
    }
  }

  /** One slice of the activity pie chart. */
  datatype PieSlice = PieSlice(name: string, value: int)

  /** `Object.entries(gameTypes).map(...)`. */
  function PieData(r: OrderedRecord<int>): seq<PieSlice>
    requires WellFormed(r)
  {
    seq(|r.keys|, i requires 0 <= i < |r.keys| => PieSlice(Capitalize(TypeName(r.keys[i])), r.values[r.keys[i]]))
  }

  function SumSlices(ps: seq<PieSlice>): int {
    if |ps| == 0 then 0 else SumSlices(ps[..|ps| - 1]) + ps[|ps| - 1].value
  }

  lemma {:induction false} SumSlicesOfPie(r: OrderedRecord<int>, n: nat)
    requires WellFormed(r)
    requires n <= |r.keys|
    ensures SumSlices(PieData(r)[..n]) == SumOver(r.keys[..n], r.values)
  {
    if n > 0 {
      SumSlicesOfPie(r, n - 1);
      var pie, ks := PieData(r), r.keys;
      assert pie[..n][..n - 1] == pie[..n - 1];
      assert ks[..n][..n - 1] == ks[..n - 1];
      assert pie[..n][n - 1].value == r.values[ks[..n][n - 1]];
    }
  }

  /** Different games get different labels. */
  lemma PieNamesDistinct(a: GameType, b: GameType)
    requires a != b
    ensures Capitalize(TypeName(a)) != Capitalize(TypeName(b))
  {
    PieNames();
  }

  /** The pie chart over a session list: one slice per occurring game type,
      in first-occurrence order, named by the capitalised type, valued by the
      type's duration total; names are distinct and the values add up to the
      total duration of all sessions. */
  lemma SessionPieChart(ss: seq<GameSession>)
    ensures WellFormed(DurationTotals(ss))
    ensures |PieData(DurationTotals(ss))| == |DurationTotals(ss).keys|
    ensures forall t :: t in DurationTotals(ss).keys <==> t in TypesOf(ss)
    ensures forall i :: 0 <= i < |PieData(DurationTotals(ss))| ==>
              && PieData(DurationTotals(ss))[i].name == Capitalize(TypeName(DurationTotals(ss).keys[i]))
              && PieData(DurationTotals(ss))[i].value == DurationOf(ss, DurationTotals(ss).keys[i])
    ensures forall a, b :: 0 <= a < b < |PieData(DurationTotals(ss))| ==>
              PieData(DurationTotals(ss))[a].name != PieData(DurationTotals(ss))[b].name
    ensures SumSlices(PieData(DurationTotals(ss))) == TotalDuration(ss)
  {
    DurationTotalsCorrect(ss);
    DurationGrandTotal(ss);
    var r := DurationTotals(ss);
    var pie := PieData(r);
    SumSlicesOfPie(r, |r.keys|);
    assert pie[..|r.keys|] == pie;
    assert r.keys[..|r.keys|] == r.keys;
    forall a, b | 0 <= a < b < |pie|
      ensures pie[a].name != pie[b].name
    {
      PieNamesDistinct(r.keys[a], r.keys[b]);
    }
  }

  /** The slice labels of the three games. */
  lemma PieNames()
    ensures Capitalize(TypeName(Pendulum)) == "Pendulum"
    ensures Capitalize(TypeName(Particles)) == "Particles"
    ensures Capitalize(TypeName(Waves)) == "Waves"
  {
    assert UpperAscii('p') == 'P';
    assert UpperAscii('w') == 'W';
  }

  // ---------------------------------------------------------------------
  // Game effectiveness
  // ---------------------------------------------------------------------

  /** `{ count, improvement }` kept per game type. */
  datatype Effect = Effect(count: int, improvement: int)

  /** One `forEach` step: only sessions with both ratings are tallied. */
  function AddEffect(acc: OrderedRecord<Effect>, s: GameSession): OrderedRecord<Effect> {
    if !Rated(s) then acc
    else
      var t := s.gameType;
      var cur := if t in acc.values then acc.values[t] else Effect(0, 0);
      Upsert(acc, t, Effect(cur.count + 1, cur.improvement + MoodChange(s)))
  }

  function Effectiveness(ss: seq<GameSession>): OrderedRecord<Effect> {
    if |ss| == 0 then Empty()
    else AddEffect(Effectiveness(ss[..|ss| - 1]), ss[|ss| - 1])
  }

  /** A type has an entry iff it has a rated session; the entry counts those
      sessions and sums their mood changes; keys follow the first rated
      session of each type. */
  lemma {:induction false} EffectivenessCorrect(ss: seq<GameSession>)
    ensures WellFormed(Effectiveness(ss))
    ensures Effectiveness(ss).keys == KeyOrder(RatedTypes(ss))
    ensures forall t :: t in Effectiveness(ss).values <==> RatedCount(ss, t) > 0
    ensures forall t :: t in Effectiveness(ss).values ==>
              Effectiveness(ss).values[t] == Effect(RatedCount(ss, t), Improvement(ss, t))
  {
    if |ss| > 0 {
      var p := ss[..|ss| - 1];
      var x := ss[|ss| - 1];
      assert ss == p + [x];
      EffectivenessCorrect(p);
      if Rated(x) {
        assert RatedTypes(ss) == RatedTypes(p) + [x.gameType];
        assert RatedTypes(ss)[..|RatedTypes(ss)| - 1] == RatedTypes(p);
      } else {
        assert RatedTypes(ss) == RatedTypes(p);
      }
      forall t
        ensures t in Effectiveness(ss).values <==> RatedCount(ss, t) > 0
        ensures t in Effectiveness(ss).values ==>
                  Effectiveness(ss).values[t] == Effect(RatedCount(ss, t), Improvement(ss, t))
      {
        SumsAppend(p, x, t);
        AbsentTypeSumsVanish(p, t);
      }
    }
  }

  /** Average mood improvement of an entry, as an exact quotient. */
  function Average(e: Effect): real
    requires e.count > 0
  {
    e.improvement as real / e.count as real
  }

  /** `.filter(([_, data]) => data.count > 0)`. */
  function Tallied(es: seq<(GameType, Effect)>): (r: seq<(GameType, Effect)>)
    ensures forall i :: 0 <= i < |r| ==> r[i].1.count > 0 && r[i] in es
    ensures forall i :: 0 <= i < |es| && es[i].1.count > 0 ==> es[i] in r
  {
    if |es| == 0 then []
    else Tallied(es[..|es| - 1]) + (if es[|es| - 1].1.count > 0 then [es[|es| - 1]] else [])
  }

  /** A filter that drops nothing returns its input. */
  lemma {:induction false} TalliedKeepsAll(es: seq<(GameType, Effect)>)
    requires forall i :: 0 <= i < |es| ==> es[i].1.count > 0
    ensures Tallied(es) == es
  {
    if |es| > 0 {
      TalliedKeepsAll(es[..|es| - 1]);
      assert es == es[..|es| - 1] + [es[|es| - 1]];
    }
  }

  /** Index of the element a stable descending sort by average puts first:
      its average is maximal, and every earlier element's is strictly lower. */
  function FirstBest(es: seq<(GameType, Effect)>): (k: nat)
    requires |es| > 0
    requires forall i :: 0 <= i < |es| ==> es[i].1.count > 0
    ensures k < |es|
    ensures forall i :: 0 <= i < |es| ==> Average(es[i].1) <= Average(es[k].1)
    ensures forall i :: 0 <= i < k ==> Average(es[i].1) < Average(es[k].1)
  {
    if |es| == 1 then 0
    else
      var j := FirstBest(es[1..]) + 1;
      assert es[j] == es[1..][j - 1];
      if Average(es[0].1) >= Average(es[j].1) then 0 else j
  }

  /** `mostEffectiveGame`: the head of the sorted, filtered entries, if any. */
  function MostEffective(r: OrderedRecord<Effect>): Option<(GameType, Effect)>
    requires WellFormed(r)
  {
    var cs := Tallied(Entries(r));
    if |cs| == 0 then None else Some(cs[FirstBest(cs)])
  }

  /** Some session carries both ratings. */
  predicate HasRated(ss: seq<GameSession>) {
    exists i :: 0 <= i < |ss| && Rated(ss[i])
  }

  lemma {:induction false} HasRatedIffRatedTypes(ss: seq<GameSession>)
    ensures HasRated(ss) <==> |RatedTypes(ss)| > 0
  {
    if |ss| > 0 {
      var p := ss[..|ss| - 1];
      HasRatedIffRatedTypes(p);
      if HasRated(p) {
        var i :| 0 <= i < |p| && Rated(p[i]);
        assert Rated(ss[i]);
      }
      if HasRated(ss) && !Rated(ss[|ss| - 1]) {
        var i :| 0 <= i < |ss| && Rated(ss[i]);
        assert Rated(p[i]);
      }
    }
  }

  /** The average of type `t`'s rated sessions, as the reference sums give it. */
  function TypeAverage(ss: seq<GameSession>, t: GameType): real
    requires RatedCount(ss, t) > 0
  {
    Average(Effect(RatedCount(ss, t), Improvement(ss, t)))
  }

  /** `best` beats type `t`: no lower average, and on a tie `best` had its
      first rated session no later than `t`. */
  ghost predicate Beats(ss: seq<GameSession>, best: GameType, t: GameType)
    requires RatedCount(ss, best) > 0 && RatedCount(ss, t) > 0
  {
    AbsentTypeSumsVanish(ss, best);
    AbsentTypeSumsVanish(ss, t);
    && TypeAverage(ss, t) <= TypeAverage(ss, best)
    && (TypeAverage(ss, t) == TypeAverage(ss, best) ==>
          FirstIndex(RatedTypes(ss), best) <= FirstIndex(RatedTypes(ss), t))
  }

  /** The effectiveness entries, all of them tallied at least once. */
  lemma EffectEntries(ss: seq<GameSession>)
    ensures WellFormed(Effectiveness(ss))
    ensures forall i :: 0 <= i < |Entries(Effectiveness(ss))| ==>
              var e := Entries(Effectiveness(ss))[i];
              RatedCount(ss, e.0) > 0 && e.1 == Effect(RatedCount(ss, e.0), Improvement(ss, e.0))
    ensures Tallied(Entries(Effectiveness(ss))) == Entries(Effectiveness(ss))
  {
    EffectivenessCorrect(ss);
    var r := Effectiveness(ss);
    var es := Entries(r);
    forall i | 0 <= i < |es|
      ensures RatedCount(ss, es[i].0) > 0 && es[i].1 == Effect(RatedCount(ss, es[i].0), Improvement(ss, es[i].0))
    {
      assert es[i].0 == r.keys[i] && es[i].0 in r.values;
    }
    assert forall i :: 0 <= i < |es| ==> es[i].1.count > 0;
    TalliedKeepsAll(es);
  }

  /** A type with a rated session has an entry, holding its reference tallies. */
  lemma EntryOf(ss: seq<GameSession>, t: GameType) returns (i: nat)
    requires RatedCount(ss, t) > 0
    ensures WellFormed(Effectiveness(ss))
    ensures i < |Effectiveness(ss).keys| && Effectiveness(ss).keys[i] == t
    ensures Entries(Effectiveness(ss))[i] == (t, Effect(RatedCount(ss, t), Improvement(ss, t)))
  {
    EffectivenessCorrect(ss);
    var r := Effectiveness(ss);
    assert t in r.keys;
    i :| 0 <= i < |r.keys| && r.keys[i] == t;
  }

  /** The chosen game beats every type that has a rated session. */
  lemma BestBeats(ss: seq<GameSession>, t: GameType)
    requires RatedCount(ss, t) > 0
    ensures WellFormed(Effectiveness(ss))
    ensures MostEffective(Effectiveness(ss)).Some?
    ensures RatedCount(ss, MostEffective(Effectiveness(ss)).value.0) > 0
    ensures Beats(ss, MostEffective(Effectiveness(ss)).value.0, t)
  {
    var r := Effectiveness(ss);
    var i := EntryOf(ss, t);
    var es := Entries(r);
    EffectEntries(ss);
    var k := FirstBest(es);
    assert MostEffective(r) == Some(es[k]);
    var g := es[k].0;
    assert RatedCount(ss, g) > 0;
    assert Average(es[i].1) <= Average(es[k].1);
    assert TypeAverage(ss, t) <= TypeAverage(ss, g);
    if TypeAverage(ss, t) == TypeAverage(ss, g) {
      assert k <= i;
      AbsentTypeSumsVanish(ss, t);
      AbsentTypeSumsVanish(ss, g);
      assert FirstIndex(RatedTypes(ss), g) <= FirstIndex(RatedTypes(ss), t) by {
        EffectivenessCorrect(ss);
        if k < i {
          KeyOrderEarlier(RatedTypes(ss), k, i);
        }
      }
    }
  }

  /** The most effective game exists iff some session is rated; it is the
      type with the best average improvement and, among equally good types,
      the one whose first rated session came first. */
  lemma MostEffectiveIsBest(ss: seq<GameSession>)
    ensures WellFormed(Effectiveness(ss))
    ensures MostEffective(Effectiveness(ss)).Some? <==> HasRated(ss)
    ensures MostEffective(Effectiveness(ss)).Some? ==>
              var best := MostEffective(Effectiveness(ss)).value;
              && RatedCount(ss, best.0) > 0
              && best.1 == Effect(RatedCount(ss, best.0), Improvement(ss, best.0))
              && forall t :: RatedCount(ss, t) > 0 ==> Beats(ss, best.0, t)
  {
    EffectivenessCorrect(ss);
    EffectEntries(ss);
    HasRatedIffRatedTypes(ss);
    var r := Effectiveness(ss);
    var ts := RatedTypes(ss);
    KeyOrderIsFirstOccurrenceOrder(ts);
    var es := Entries(r);
    if |es| > 0 {
      assert r.keys[0] in ts;
      var k := FirstBest(es);
      assert MostEffective(r) == Some(es[k]);
      forall t | RatedCount(ss, t) > 0
        ensures Beats(ss, es[k].0, t)
      {
        BestBeats(ss, t);
      }
    }
  }

  // ---------------------------------------------------------------------
  // Insights
  // ---------------------------------------------------------------------

  datatype Insight =
    | NoDataYet
    | MoodPatterns(averageMood: real, positive: bool)
    | GameBenefits(game: GameType, averageImprovement: real)
    | SessionFrequency(perWeek: real, considerIncreasing: bool)

  function Title(i: Insight): string {
    match i
    case NoDataYet => "No Data Yet"
    case MoodPatterns(_, _) => "Mood Patterns"
    case GameBenefits(_, _) => "Game Benefits"
    case SessionFrequency(_, _) => "Session Frequency"
  }

  function Titles(cards: seq<Insight>): (ts: seq<string>)
    ensures |ts| == |cards|
    ensures forall i :: 0 <= i < |cards| ==> ts[i] == Title(cards[i])
  {
    seq(|cards|, i requires 0 <= i < |cards| => Title(cards[i]))
  }

  function SumInts(xs: seq<int>): int {
    if |xs| == 0 then 0 else xs[0] + SumInts(xs[1..])
  }

  /** Mean of the mood scores shown on the chart. */
  function AverageMood(moods: seq<int>): real
    requires |moods| > 0
  {
    SumInts(moods) as real / |moods| as real
  }

  /** The rough sessions-per-week figure: halved once there are more than seven. */
  function SessionsPerWeek(n: nat): (r: real)
    ensures n > 7 ==> r == n as real / 2.0
    ensures n <= 7 ==> r == n as real
  {
    n as real / (if n > 7 then 2.0 else 1.0)
  }

  /** The "Mood Patterns" card: present iff there are mood scores. */
  function MoodCards(moods: seq<int>): seq<Insight> {
    if |moods| > 0 then
      var avg := AverageMood(moods);
      [MoodPatterns(avg, avg > 6.0)]
    else []
  }

  /** The "Game Benefits" card: present iff a most effective game exists. */
  function BenefitCards(ss: seq<GameSession>): seq<Insight> {
    EffectivenessCorrect(ss);
    match MostEffective(Effectiveness(ss))
    case None => []
    case Some(best) => [GameBenefits(best.0, Average(best.1))]
  }

  /** The "Session Frequency" card for `n` sessions. */
  function FrequencyCard(n: nat): Insight {
    var perWeek := SessionsPerWeek(n);
    SessionFrequency(perWeek, perWeek < 3.0)
  }

  /** `getInsights()` over the mood scores and the game sessions. */
  function Insights(moods: seq<int>, ss: seq<GameSession>): (r: seq<Insight>)
    ensures |ss| == 0 ==> r == [NoDataYet]
    ensures |ss| > 0 ==> 1 <= |r| <= 3 && r[|r| - 1].SessionFrequency?
  {
    if |ss| == 0 then [NoDataYet]
    else MoodCards(moods) + BenefitCards(ss) + [FrequencyCard(|ss|)]
  }

  /** With sessions present the cards come in a fixed order: "Mood Patterns"
      iff there is mood data, "Game Benefits" iff some session is rated, and
      always "Session Frequency" last. */
  lemma InsightTitles(moods: seq<int>, ss: seq<GameSession>)
    requires |ss| > 0
    ensures Titles(Insights(moods, ss)) ==
              (if |moods| > 0 then ["Mood Patterns"] else [])
              + (if HasRated(ss) then ["Game Benefits"] else [])
              + ["Session Frequency"]
  {
    var mood, benefit := MoodCards(moods), BenefitCards(ss);
    MoodTitles(moods);
    BenefitTitles(ss);
    TitlesConcat(mood, benefit);
    TitlesConcat(mood + benefit, [FrequencyCard(|ss|)]);
    assert Titles([FrequencyCard(|ss|)]) == ["Session Frequency"];
  }

  lemma MoodTitles(moods: seq<int>)
    ensures Titles(MoodCards(moods)) == (if |moods| > 0 then ["Mood Patterns"] else [])
  {
  }

  lemma BenefitTitles(ss: seq<GameSession>)
    ensures Titles(BenefitCards(ss)) == (if HasRated(ss) then ["Game Benefits"] else [])
  {
    BenefitCard([], ss);
  }

  lemma TitlesConcat(a: seq<Insight>, b: seq<Insight>)
    ensures Titles(a + b) == Titles(a) + Titles(b)
  {
    assert forall i :: 0 <= i < |a + b| ==> Titles(a + b)[i] == (Titles(a) + Titles(b))[i];
  }

  /** What a card's figures and wording mean in terms of the inputs. */
  ghost predicate CardMeaning(moods: seq<int>, ss: seq<GameSession>, card: Insight) {
    match card
    case MoodPatterns(avg, positive) =>
      |moods| > 0 && avg == AverageMood(moods) && (positive <==> avg > 6.0)
    case SessionFrequency(perWeek, advice) =>
      perWeek == SessionsPerWeek(|ss|) && (advice <==> |ss| < 3)
    case GameBenefits(game, avg) =>
      && RatedCount(ss, game) > 0
      && avg == Average(Effect(RatedCount(ss, game), Improvement(ss, game)))
      && forall t :: RatedCount(ss, t) > 0 ==> Average(Effect(RatedCount(ss, t), Improvement(ss, t))) <= avg
    case NoDataYet => false
  }

  /** The wording choices inside the cards: the positive-mood message iff
      the mean mood exceeds 6; the "consider increasing" advice iff the
      weekly figure is below 3, which happens iff there are fewer than three
      sessions; the benefit card names the best game. */
  lemma InsightMessages(moods: seq<int>, ss: seq<GameSession>)
    requires |ss| > 0
    ensures forall i :: 0 <= i < |Insights(moods, ss)| ==> CardMeaning(moods, ss, Insights(moods, ss)[i])
  {
    FrequencyAdvice(|ss|);
    BenefitCard(moods, ss);
    var r := Insights(moods, ss);
    var mood, benefit, freq := MoodCards(moods), BenefitCards(ss), FrequencyCard(|ss|);
    forall i | 0 <= i < |r|
      ensures CardMeaning(moods, ss, r[i])
    {
      if i < |mood| {
        assert r[i] == mood[i];
      } else if i < |mood| + |benefit| {
        assert r[i] == benefit[i - |mood|];
      } else {
        assert r[i] == freq;
      }
    }
  }

  /** The weekly figure is below 3 exactly when there are fewer than three
      sessions: from eight sessions on it is at least 4. */
  lemma FrequencyAdvice(n: nat)
    ensures SessionsPerWeek(n) < 3.0 <==> n < 3
  {
    if n > 7 {
      assert SessionsPerWeek(n) >= 4.0;
    }
  }

  /** The benefit card exists iff some session is rated, and then means
      what it says. */
  lemma BenefitCard(moods: seq<int>, ss: seq<GameSession>)
    ensures WellFormed(Effectiveness(ss))
    ensures MostEffective(Effectiveness(ss)).Some? <==> HasRated(ss)
    ensures MostEffective(Effectiveness(ss)).Some? ==>
              var best := MostEffective(Effectiveness(ss)).value;
              CardMeaning(moods, ss, GameBenefits(best.0, Average(best.1)))
  {
    MostEffectiveIsBest(ss);
  }

  // ---------------------------------------------------------------------
  // Recent-sessions table
  // ---------------------------------------------------------------------

  /** The table shows at most this many of the newest sessions. */
  const RecentLimit: nat := 5

  /** JavaScript `d % 60`: the remainder takes the sign of the dividend. */
  function TruncRem60(d: int): (r: int)
    ensures d >= 0 ==> r == d % 60
    ensures d < 0 ==> r == -((-d) % 60)
  {
    if d >= 0 then d % 60 else -((-d) % 60)
  }

  /** The "Xm Ys" duration cell: `Math.floor(d / 60)` and `d % 60`. */
  function DurationCell(d: int): (ms: (int, int))
    ensures d >= 0 ==> ms.0 * 60 + ms.1 == d && 0 <= ms.1 < 60 && ms.0 >= 0
    ensures d < 0 ==> -60 < ms.1 <= 0 && ms.0 < 0 && (ms.0 * 60 + ms.1 == d <==> ms.1 == 0)
  {
    (d / 60, TruncRem60(d))
  }

  /** `mood || "-"`: a missing or zero rating shows as a dash (None). */
  function MoodCell(m: Option<int>): (c: Option<int>)
    ensures c.Some? <==> m.Some? && m.value != 0
    ensures c.Some? ==> c == m
  {
    if m.Some? && m.value != 0 then m else None
  }

  /** The change cell: the signed difference, a "+" prefix, and its colour. */
  datatype Change = Change(delta: int, plusSign: bool, green: bool)

  datatype Row = Row(
    gameType: GameType,
    minutes: int,
    seconds: int,
    before: Option<int>,
    after: Option<int>,
    change: Option<Change>)

  function RecentRow(s: GameSession): (row: Row)
    ensures row.gameType == s.gameType
    ensures (row.minutes, row.seconds) == DurationCell(s.durationSeconds)
    ensures row.change.Some? <==> Rated(s)
    ensures row.change.Some? ==>
              && row.change.value.delta == s.postMood.value - s.preMood.value
              && (row.change.value.plusSign <==> s.postMood.value - s.preMood.value > 0)
              && (row.change.value.green <==> s.postMood.value > s.preMood.value)
  {
    var (m, sec) := DurationCell(s.durationSeconds);
    var change :=
      if Rated(s) then
        var delta := MoodChange(s);
        Some(Change(delta, delta > 0, s.postMood.value > s.preMood.value))
      else None;
    Row(s.gameType, m, sec, MoodCell(s.preMood), MoodCell(s.postMood), change)
  }

  /** `gameSessions.slice(0, 5).map(...)`. */
  function RecentRows(ss: seq<GameSession>): (rows: seq<Row>)
    ensures |rows| == if |ss| < RecentLimit then |ss| else RecentLimit
    ensures forall i :: 0 <= i < |rows| ==> rows[i] == RecentRow(ss[i])
  {
    var n := if |ss| < RecentLimit then |ss| else RecentLimit;
    seq(n, i requires 0 <= i < n => RecentRow(ss[i]))
  }

  /** The "+" prefix and the green colour always agree, so an unchanged
      mood is shown red without a sign. */
  lemma ChangeSignMatchesColour(s: GameSession)
    requires Rated(s)
    ensures RecentRow(s).change.Some?
    ensures RecentRow(s).change.value.plusSign == RecentRow(s).change.value.green
    ensures s.postMood == s.preMood ==> !RecentRow(s).change.value.green && !RecentRow(s).change.value.plusSign
  {
  }

  /** A real score (1 to 10) shows in its cell unchanged; a missing rating
      shows as a dash. A stored 0 also shows as a dash, the one value the
      cell hides although the change cell still counts it. */
  lemma MoodCellShowsScores(m: Option<int>)
    ensures m.Some? && 1 <= m.value <= 10 ==> MoodCell(m) == m
    ensures m.None? || m == Some(0) ==> MoodCell(m).None?
  {
  }

  /** For a session whose ratings are real scores, the change cell is the
      After cell minus the Before cell, as the user reads the row. */
  lemma ChangeIsAfterMinusBefore(s: GameSession)
    requires Rated(s) && 1 <= s.preMood.value <= 10 && 1 <= s.postMood.value <= 10
    ensures RecentRow(s).before == s.preMood && RecentRow(s).after == s.postMood
    ensures RecentRow(s).change.Some?
    ensures RecentRow(s).change.value.delta == RecentRow(s).after.value - RecentRow(s).before.value
  {
    MoodCellShowsScores(s.preMood);
    MoodCellShowsScores(s.postMood);
  }

  /** A zero rating is hidden in its cell but still enters the change. */
  lemma ZeroRatingHiddenButCounted(s: GameSession)
    requires s.preMood == Some(0) && s.postMood.Some?
    ensures RecentRow(s).before.None?
    ensures RecentRow(s).change.Some? && RecentRow(s).change.value.delta == s.postMood.value
  {
  }

  /** Sessions after the fifth never reach the table. */
  lemma RecentRowsIgnoreOlder(ss: seq<GameSession>, older: seq<GameSession>)
    requires |ss| >= RecentLimit
    ensures RecentRows(ss + older) == RecentRows(ss)
  {
    assert forall i :: 0 <= i < RecentLimit ==> (ss + older)[i] == ss[i];
  }

  /** The sum of the change cells of the rows showing game `t`. */
  function ChangeTotal(rows: seq<Row>, t: GameType): int {
    if |rows| == 0 then 0
    else (if rows[0].gameType == t && rows[0].change.Some? then rows[0].change.value.delta else 0)
         + ChangeTotal(rows[1..], t)
  }

  /** While the table shows every session (five or fewer), the change cells
      of a game's rows add up to that game's total improvement, the figure
      behind its effectiveness entry. */
  lemma {:induction false} ChangeTotalIsImprovement(ss: seq<GameSession>, t: GameType)
    requires |ss| <= RecentLimit
    ensures ChangeTotal(RecentRows(ss), t) == Improvement(ss, t)
  {
    if |ss| > 0 {
      var rows := RecentRows(ss);
      assert rows[1..] == RecentRows(ss[1..]);
      ChangeTotalIsImprovement(ss[1..], t);
    }
  }
}
