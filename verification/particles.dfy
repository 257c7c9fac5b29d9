/** The particle-flow game: a batch of particles drawn at random, moved by
    their velocity each frame and reflected at the canvas edges, with a line
    between every pair closer than 100 pixels. Positions and velocities are
    exact reals; the random draws are inputs. */
module Particles {
  import opened Records

  /** The five particle colours, in the order the colour draw indexes them. */
  const Palette: seq<string> := ["#0d9488", "#0891b2", "#0284c7", "#4f46e5", "#7c3aed"]

  /** The particle-count slider's range and starting value. */
  const MinCount: int := 10
  const MaxCount: int := 100
  const DefaultCount: int := 50

  /** Pairs closer than this many pixels are connected. */
  const LinkDistance: real := 100.0

  type SliderCount = n: int | MinCount <= n <= MaxCount witness DefaultCount

  datatype Particle = Particle(x: real, y: real, vx: real, vy: real, radius: real, color: string)

  // ---------------------------------------------------------------------
  // Initialisation
  // ---------------------------------------------------------------------

  /** The six uniform draws one particle consumes, in drawing order:
      x, y, vx, vy, radius, colour. */
  datatype Draw = Draw(rx: real, ry: real, rvx: real, rvy: real, rr: real, rc: real)

  /** A value `Math.random()` can return. */
  predicate Unit(r: real) {
    0.0 <= r < 1.0
  }

  predicate ValidDraw(d: Draw) {
    Unit(d.rx) && Unit(d.ry) && Unit(d.rvx) && Unit(d.rvy) && Unit(d.rr) && Unit(d.rc)
  }

  /** `Math.floor(r * colors.length)`. */
  function PaletteIndex(rc: real): (i: int)
    requires Unit(rc)
    ensures 0 <= i < |Palette|
  {
    (rc * 5.0).Floor
  }

  function NewParticle(d: Draw, width: nat, height: nat): Particle
    requires ValidDraw(d)
  {
    Particle(
      d.rx * width as real,
      d.ry * height as real,
      (d.rvx - 0.5) * 2.0,
      (d.rvy - 0.5) * 2.0,
      d.rr * 5.0 + 2.0,
      Palette[PaletteIndex(d.rc)])
  }

  /** Where a freshly drawn particle can be: on the canvas, with each
      velocity component in [-1, 1), radius in [2, 7) and a palette colour. */
  predicate Fresh(p: Particle, width: nat, height: nat) {
    && 0.0 <= p.x && (width > 0 ==> p.x < width as real) && (width == 0 ==> p.x == 0.0)
    && 0.0 <= p.y && (height > 0 ==> p.y < height as real) && (height == 0 ==> p.y == 0.0)
    && -1.0 <= p.vx < 1.0 && -1.0 <= p.vy < 1.0
    && 2.0 <= p.radius < 7.0
    && p.color in Palette
  }

  lemma ScaledDrawBelow(r: real, extent: nat)
    requires Unit(r)
    ensures 0.0 <= r * extent as real
    ensures extent > 0 ==> r * extent as real < extent as real
    ensures extent == 0 ==> r * extent as real == 0.0
  {
    if extent > 0 {
      assert r * extent as real < 1.0 * extent as real;
    }
  }

  lemma NewParticleFresh(d: Draw, width: nat, height: nat)
    requires ValidDraw(d)
    ensures Fresh(NewParticle(d, width, height), width, height)
  {
    var p := NewParticle(d, width, height);
    ScaledDrawBelow(d.rx, width);
    ScaledDrawBelow(d.ry, height);
    UnitSpeed(d.rvx);
    UnitSpeed(d.rvy);
    UnitRadius(d.rr);
    assert p.color == Palette[PaletteIndex(d.rc)];
  }

  lemma UnitSpeed(r: real)
    requires Unit(r)
    ensures -1.0 <= (r - 0.5) * 2.0 < 1.0
  {
  }

  lemma UnitRadius(r: real)
    requires Unit(r)
    ensures 2.0 <= r * 5.0 + 2.0 < 7.0
  {
  }

  /** `initParticles`: exactly `count` particles, each within the fresh ranges. */
  function InitParticles(count: nat, width: nat, height: nat, draws: seq<Draw>): (ps: seq<Particle>)
    requires |draws| == count
    requires forall i :: 0 <= i < |draws| ==> ValidDraw(draws[i])
    ensures |ps| == count
    ensures forall i :: 0 <= i < count ==> ps[i] == NewParticle(draws[i], width, height)
    ensures forall i :: 0 <= i < count ==> Fresh(ps[i], width, height)
  {
    var ps := seq(count, i requires 0 <= i < count => NewParticle(draws[i], width, height));
    assert forall i :: 0 <= i < count ==> Fresh(ps[i], width, height) by {
      forall i | 0 <= i < count
        ensures Fresh(ps[i], width, height)
      {
        NewParticleFresh(draws[i], width, height);
      }
    }
    ps
  }

  // ---------------------------------------------------------------------
  // Moving and bouncing
  // ---------------------------------------------------------------------

  /** The wall test: the moved coordinate is less than one radius from a wall, or past it. */
  predicate OutsideMargin(c: real, radius: real, extent: nat) {
    c < radius || c > extent as real - radius
  }

  /** One particle's update: move by the velocity (pixels per frame, no
      time step), then negate each velocity component whose moved
      coordinate lies outside the margin. */
  function Move(p: Particle, width: nat, height: nat): (q: Particle)
    ensures q.x == p.x + p.vx && q.y == p.y + p.vy
    ensures q.vx == (if OutsideMargin(q.x, p.radius, width) then -p.vx else p.vx)
    ensures q.vy == (if OutsideMargin(q.y, p.radius, height) then -p.vy else p.vy)
    ensures q.radius == p.radius && q.color == p.color
  {
    var x := p.x + p.vx;
    var y := p.y + p.vy;
    Particle(
      x, y,
      if OutsideMargin(x, p.radius, width) then -p.vx else p.vx,
      if OutsideMargin(y, p.radius, height) then -p.vy else p.vy,
      p.radius, p.color)
  }

  /** A move keeps the speed along each axis, and turns a particle that has
      crossed a wall heading outwards back towards the inside. */
  lemma MoveReflects(p: Particle, width: nat, height: nat)
    ensures Abs(Move(p, width, height).vx) == Abs(p.vx)
    ensures Abs(Move(p, width, height).vy) == Abs(p.vy)
    ensures Move(p, width, height).x < p.radius && p.vx < 0.0 ==> Move(p, width, height).vx > 0.0
    ensures Move(p, width, height).x > width as real - p.radius && p.vx > 0.0 ==> Move(p, width, height).vx < 0.0
    ensures Move(p, width, height).y < p.radius && p.vy < 0.0 ==> Move(p, width, height).vy > 0.0
    ensures Move(p, width, height).y > height as real - p.radius && p.vy > 0.0 ==> Move(p, width, height).vy < 0.0
  {
  }

  /** A fresh particle keeps its radius range, colour and velocity range
      forever: a move only flips signs, and [-1, 1) flipped is (-1, 1]. */
  predicate Drifting(p: Particle) {
    -1.0 <= p.vx <= 1.0 && -1.0 <= p.vy <= 1.0 && 2.0 <= p.radius < 7.0 && p.color in Palette
  }

  lemma MoveKeepsDrifting(p: Particle, width: nat, height: nat)
    requires Drifting(p)
    ensures Drifting(Move(p, width, height))
  {
  }

  // ---------------------------------------------------------------------
  // Connections
  // ---------------------------------------------------------------------

  /** The pairs (i, lo), (i, lo+1), ..., (i, hi-1). */
  function RowPairs(i: nat, lo: nat, hi: nat): seq<(nat, nat)>
    requires lo <= hi
    decreases hi - lo
  {
    if lo == hi then [] else RowPairs(i, lo, hi - 1) + [(i, hi - 1)]
  }

  /** The pairs the connection pass visits for the first `i` particles of `n`. */
  function PairsBefore(i: nat, n: nat): seq<(nat, nat)>
    requires i <= n
  {
    if i == 0 then [] else PairsBefore(i - 1, n) + RowPairs(i - 1, i, n)
  }

  /** Every pair the pass visits over `n` particles, in visiting order. */
  function AllPairs(n: nat): seq<(nat, nat)> {
    PairsBefore(n, n)
  }

  predicate LexLess(p: (nat, nat), q: (nat, nat)) {
    p.0 < q.0 || (p.0 == q.0 && p.1 < q.1)
  }

  lemma {:induction false} RowPairsShape(i: nat, lo: nat, hi: nat)
    requires lo <= hi
    ensures |RowPairs(i, lo, hi)| == hi - lo
    ensures forall k :: 0 <= k < hi - lo ==> RowPairs(i, lo, hi)[k] == (i, lo + k)
    decreases hi - lo
  {
    if lo < hi {
      RowPairsShape(i, lo, hi - 1);
    }
  }

  /** Every visited pair (a, b) has a below `i` and a < b < n. */
  predicate PairsRange(pairs: seq<(nat, nat)>, i: nat, n: nat) {
    forall k :: 0 <= k < |pairs| ==> pairs[k].0 < i && pairs[k].0 < pairs[k].1 < n
  }

  predicate StrictlySorted(pairs: seq<(nat, nat)>) {
    forall k, l :: 0 <= k < l < |pairs| ==> LexLess(pairs[k], pairs[l])
  }

  lemma {:induction false} PairsBeforeCount(i: nat, n: nat)
    requires i <= n
    ensures 2 * |PairsBefore(i, n)| == 2 * i * n - i * (i + 1)
  {
    if i > 0 {
      PairsBeforeCount(i - 1, n);
      RowPairsShape(i - 1, i, n);
      CountStep(i, n, |PairsBefore(i - 1, n)|);
    }
  }

  /** The arithmetic of one more row of n − i pairs. */
  lemma CountStep(i: int, n: int, c: int)
    requires 2 * c == 2 * (i - 1) * n - (i - 1) * (i - 1 + 1)
    ensures 2 * (c + (n - i)) == 2 * i * n - i * (i + 1)
  {
    assert 2 * (i - 1) * n == 2 * i * n - 2 * n;
    assert (i - 1) * i == i * i - i;
    assert i * (i + 1) == i * i + i;
  }

  lemma {:induction false} PairsBeforeRange(i: nat, n: nat)
    requires i <= n
    ensures PairsRange(PairsBefore(i, n), i, n)
  {
    if i > 0 {
      PairsBeforeRange(i - 1, n);
      RowPairsShape(i - 1, i, n);
      var prev := PairsBefore(i - 1, n);
      var row := RowPairs(i - 1, i, n);
      var all: seq<(nat, nat)> := prev + row;
      assert PairsBefore(i, n) == all;
      forall k | 0 <= k < |all|
        ensures all[k].0 < i && all[k].0 < all[k].1 < n
      {
        if k >= |prev| {
          assert all[k] == row[k - |prev|];
        }
      }
    }
  }

  lemma {:induction false} PairsBeforeCover(i: nat, n: nat)
    requires i <= n
    ensures forall a: nat, b: nat :: a < i && a < b < n ==> (a, b) in PairsBefore(i, n)
  {
    if i > 0 {
      PairsBeforeCover(i - 1, n);
      RowPairsShape(i - 1, i, n);
      var prev := PairsBefore(i - 1, n);
      var row := RowPairs(i - 1, i, n);
      var all: seq<(nat, nat)> := prev + row;
      assert PairsBefore(i, n) == all;
      forall a: nat, b: nat | a < i && a < b < n
        ensures (a, b) in all
      {
        if a == i - 1 {
          assert row[b - i] == (a, b);
          assert all[|prev| + b - i] == (a, b);
        } else {
          assert (a, b) in prev;
        }
      }
    }
  }

  lemma {:induction false} PairsBeforeSorted(i: nat, n: nat)
    requires i <= n
    ensures StrictlySorted(PairsBefore(i, n))
  {
    if i > 0 {
      PairsBeforeSorted(i - 1, n);
      PairsBeforeRange(i - 1, n);
      RowPairsShape(i - 1, i, n);
      var prev := PairsBefore(i - 1, n);
      var row := RowPairs(i - 1, i, n);
      var all: seq<(nat, nat)> := prev + row;
      assert PairsBefore(i, n) == all;
      forall k, l | 0 <= k < l < |all|
        ensures LexLess(all[k], all[l])
      {
        if l < |prev| {
          assert LexLess(prev[k], prev[l]);
        } else if k < |prev| {
          assert prev[k].0 < i - 1;
          assert all[l] == row[l - |prev|];
        } else {
          assert all[k] == row[k - |prev|];
          assert all[l] == row[l - |prev|];
        }
      }
    }
  }

  /** The pass over the first `i` particles visits exactly the pairs
      (a, b) with a < i and a < b < n, each once, in lexicographic order,
      and there are i·n − i·(i+1)/2 of them. */
  lemma PairsBeforeShape(i: nat, n: nat)
    requires i <= n
    ensures 2 * |PairsBefore(i, n)| == 2 * i * n - i * (i + 1)
    ensures PairsRange(PairsBefore(i, n), i, n)
    ensures forall a: nat, b: nat :: a < i && a < b < n ==> (a, b) in PairsBefore(i, n)
    ensures StrictlySorted(PairsBefore(i, n))
  {
    PairsBeforeCount(i, n);
    PairsBeforeRange(i, n);
    PairsBeforeCover(i, n);
    PairsBeforeSorted(i, n);
  }

  /** The connection pass visits every unordered pair of particles exactly
      once, as (i, j) with i < j, and there are n·(n−1)/2 of them. */
  lemma AllPairsExactlyOnce(n: nat)
    ensures 2 * |AllPairs(n)| == n * (n - 1)
    ensures forall a: nat, b: nat :: (a, b) in AllPairs(n) <==> a < b < n
    ensures forall k, l :: 0 <= k < l < |AllPairs(n)| ==> AllPairs(n)[k] != AllPairs(n)[l]
  {
    PairsBeforeShape(n, n);
    forall k, l | 0 <= k < l < |AllPairs(n)|
      ensures AllPairs(n)[k] != AllPairs(n)[l]
    {
      assert LexLess(AllPairs(n)[k], AllPairs(n)[l]);
    }
  }

  /** A line between two particles. `distSq` is dx² + dy²; the source
      compares the square root with 100, which is the same test. */
  datatype Link = Link(i: nat, j: nat, distSq: real)

  function DistSq(p: Particle, q: Particle): real {
    (p.x - q.x) * (p.x - q.x) + (p.y - q.y) * (p.y - q.y)
  }

  predicate Near(p: Particle, q: Particle) {
    DistSq(p, q) < LinkDistance * LinkDistance
  }

  predicate PairsIn(pairs: seq<(nat, nat)>, n: nat) {
    forall k :: 0 <= k < |pairs| ==> pairs[k].0 < n && pairs[k].1 < n
  }

  /** The lines drawn for the visited pairs, in visiting order. */
  function LinksOf(ps: seq<Particle>, pairs: seq<(nat, nat)>): seq<Link>
    requires PairsIn(pairs, |ps|)
  {
    if |pairs| == 0 then []
    else
      var (i, j) := pairs[|pairs| - 1];
      LinksOf(ps, pairs[..|pairs| - 1])
      + (if Near(ps[i], ps[j]) then [Link(i, j, DistSq(ps[i], ps[j]))] else [])
  }

  lemma {:induction false} LinksOfMembership(ps: seq<Particle>, pairs: seq<(nat, nat)>, l: Link)
    requires PairsIn(pairs, |ps|)
    ensures l in LinksOf(ps, pairs) <==>
              (l.i, l.j) in pairs && l.i < |ps| && l.j < |ps| && Near(ps[l.i], ps[l.j])
              && l.distSq == DistSq(ps[l.i], ps[l.j])
  {
    if |pairs| > 0 {
      var prefix := pairs[..|pairs| - 1];
      LinksOfMembership(ps, prefix, l);
      assert pairs == prefix + [pairs[|pairs| - 1]];
    }
  }

  /** Visiting one more pair adds its line, if any, at the end. */
  lemma LinksOfSnoc(ps: seq<Particle>, pairs: seq<(nat, nat)>, i: nat, j: nat)
    requires PairsIn(pairs, |ps|) && i < |ps| && j < |ps|
    ensures PairsIn(pairs + [(i, j)], |ps|)
    ensures LinksOf(ps, pairs + [(i, j)]) ==
              LinksOf(ps, pairs) + (if Near(ps[i], ps[j]) then [Link(i, j, DistSq(ps[i], ps[j]))] else [])
  {
    assert (pairs + [(i, j)])[..|pairs|] == pairs;
  }

  /** The inner loop for particle `i`: visit (i, j) for every j > i. */
  method ConnectRow(ps: seq<Particle>, i: nat, visited0: seq<(nat, nat)>, links0: seq<Link>)
    returns (visited: seq<(nat, nat)>, links: seq<Link>)
    requires i < |ps| && PairsIn(visited0, |ps|) && links0 == LinksOf(ps, visited0)
    ensures visited == visited0 + RowPairs(i, i + 1, |ps|)
    ensures PairsIn(visited, |ps|)
    ensures links == LinksOf(ps, visited)
  {
    var n := |ps|;
    visited, links := visited0, links0;
    var j := i + 1;
    assert RowPairs(i, i + 1, j) == [];
    while j < n
      invariant i + 1 <= j <= n
      invariant visited == visited0 + RowPairs(i, i + 1, j)
      invariant PairsIn(visited, n)
      invariant links == LinksOf(ps, visited)
    {
      LinksOfSnoc(ps, visited, i, j);
      if Near(ps[i], ps[j]) {
        links := links + [Link(i, j, DistSq(ps[i], ps[j]))];
      }
      assert RowPairs(i, i + 1, j + 1) == RowPairs(i, i + 1, j) + [(i, j)];
      visited := visited + [(i, j)];
      j := j + 1;
    }
  }

  /** The nested connection loops: for each i, for each j > i, draw a line
      when the two particles are near. */
  method Connections(ps: seq<Particle>) returns (visited: seq<(nat, nat)>, links: seq<Link>)
    ensures visited == AllPairs(|ps|)
    ensures PairsIn(visited, |ps|)
    ensures links == LinksOf(ps, visited)
  {
    var n := |ps|;
    visited := [];
    links := [];
    var i := 0;
    while i < n
      invariant 0 <= i <= n
      invariant visited == PairsBefore(i, n)
      invariant PairsIn(visited, n)
      invariant links == LinksOf(ps, visited)
    {
      visited, links := ConnectRow(ps, i, visited, links);
      i := i + 1;
    }
  }

  /** A line is drawn for the pair (i, j) exactly when i < j and the two
      particles are near, and never twice for one pair. */
  lemma ConnectionsDrawn(ps: seq<Particle>, i: nat, j: nat)
    ensures PairsIn(AllPairs(|ps|), |ps|)
    ensures i < j < |ps| && Near(ps[i], ps[j]) ==>
              Link(i, j, DistSq(ps[i], ps[j])) in LinksOf(ps, AllPairs(|ps|))
    ensures forall l :: l in LinksOf(ps, AllPairs(|ps|)) ==>
              l.i < l.j < |ps| && Near(ps[l.i], ps[l.j]) && l.distSq == DistSq(ps[l.i], ps[l.j])
  {
    AllPairsExactlyOnce(|ps|);
    PairsBeforeShape(|ps|, |ps|);
    LinksOfMembership(ps, AllPairs(|ps|), Link(i, j, if i < |ps| && j < |ps| then DistSq(ps[i], ps[j]) else 0.0));
    forall l | l in LinksOf(ps, AllPairs(|ps|))
      ensures l.i < l.j < |ps| && Near(ps[l.i], ps[l.j]) && l.distSq == DistSq(ps[l.i], ps[l.j])
    {
      LinksOfMembership(ps, AllPairs(|ps|), l);
    }
  }

  /** Comparing squared distances decides the same as comparing distances:
      for the true distance d, d² < 100² iff d < 100. */
  lemma ProductBelow(a: real, b: real, c: real)
    requires 0.0 <= a < c && 0.0 <= b < c
    ensures a * b < c * c
  {
    MulNonneg(a, c - b);
    MulPos(c - a, c);
  }

  /** One nonlinear fact each, so the solver never searches for them. */
  lemma MulNonneg(x: real, y: real)
    requires 0.0 <= x && 0.0 <= y
    ensures 0.0 <= x * y
  {
  }

  lemma MulPos(x: real, y: real)
    requires 0.0 < x && 0.0 < y
    ensures 0.0 < x * y
  {
  }

  lemma SquaredThreshold(d: real, distSq: real)
    requires 0.0 <= d && d * d == distSq
    ensures distSq < LinkDistance * LinkDistance <==> d < LinkDistance
  {
    if d >= LinkDistance {
      assert d * d >= LinkDistance * d >= LinkDistance * LinkDistance;
    } else {
      ProductBelow(d, d, LinkDistance);
    }
  }

  /** The line's opacity, `1 - distance / 100`, for a drawn line. */
  function Alpha(d: real): (a: real)
    requires 0.0 <= d < LinkDistance
    ensures 0.0 < a <= 1.0
    ensures d == 0.0 <==> a == 1.0
  {
    1.0 - d / LinkDistance
  }

  /** Nearer pairs get more opaque lines. */
  lemma AlphaFadesWithDistance(d1: real, d2: real)
    requires 0.0 <= d1 < d2 < LinkDistance
    ensures Alpha(d1) > Alpha(d2)
  {
  }

  // ---------------------------------------------------------------------
  // One frame
  // ---------------------------------------------------------------------

  datatype FrameResult = FrameResult(particles: seq<Particle>, links: seq<Link>, rescheduled: bool)

  /** One animation frame: paused, nothing moves, nothing is drawn and no
      next frame is requested; playing, every particle moves, the lines are
      drawn between the moved particles, and the next frame is requested. */
  function Frame(ps: seq<Particle>, width: nat, height: nat, playing: bool): (r: FrameResult)
    ensures PairsIn(AllPairs(|ps|), |ps|)
    ensures !playing ==> r == FrameResult(ps, [], false)
    ensures playing ==> r.rescheduled && |r.particles| == |ps|
    ensures playing ==> forall i :: 0 <= i < |ps| ==> r.particles[i] == Move(ps[i], width, height)
    ensures playing ==> r.links == LinksOf(r.particles, AllPairs(|ps|))
  {
    PairsBeforeRange(|ps|, |ps|);
    if !playing then FrameResult(ps, [], false)
    else
      var moved := seq(|ps|, i requires 0 <= i < |ps| => Move(ps[i], width, height));
      FrameResult(moved, LinksOf(moved, AllPairs(|ps|)), true)
  }

  /** A playing frame links particles by where they are after this frame's
      move: the pair (i, j), i < j, gets a line iff the two moved particles
      are near, and every line joins such a pair. A paused frame draws none. */
  lemma FrameLinksMovedParticles(ps: seq<Particle>, width: nat, height: nat, playing: bool, i: nat, j: nat)
    ensures var r := Frame(ps, width, height, playing);
      && (!playing ==> r.links == [])
      && (playing && i < j < |ps| ==>
            (Link(i, j, DistSq(Move(ps[i], width, height), Move(ps[j], width, height))) in r.links
             <==> Near(Move(ps[i], width, height), Move(ps[j], width, height))))
      && (playing ==> forall l :: l in r.links ==>
            l.i < l.j < |ps| && Near(Move(ps[l.i], width, height), Move(ps[l.j], width, height)))
  {
    var r := Frame(ps, width, height, playing);
    if playing {
      ConnectionsDrawn(r.particles, i, j);
      if i < j < |ps| {
        LinksOfMembership(r.particles, AllPairs(|ps|),
          Link(i, j, DistSq(Move(ps[i], width, height), Move(ps[j], width, height))));
      }
    }
  }

  // ---------------------------------------------------------------------
  // The game component
  // ---------------------------------------------------------------------

  datatype Game = Game(particles: seq<Particle>, count: SliderCount, playing: bool)

  /** Anything that re-runs the setup effect draws a fresh batch. Each such
      event carries enough draws for the largest batch; a batch of `n`
      particles consumes the first `n` of them. */
  datatype Event =
    | Tick
    | SetCount(n: SliderCount, draws: seq<Draw>)
    | TogglePlay(draws: seq<Draw>)
    | Reset(draws: seq<Draw>)

  /** Enough `Math.random()` results for any batch the slider allows. */
  predicate DrawsFor(draws: seq<Draw>) {
    |draws| >= MaxCount && forall i :: 0 <= i < |draws| ==> ValidDraw(draws[i])
  }

  predicate Supplied(e: Event) {
    match e
    case Tick => true
    case SetCount(_, draws) => DrawsFor(draws)
    case TogglePlay(draws) => DrawsFor(draws)
    case Reset(draws) => DrawsFor(draws)
  }

  /** `initParticles` for a batch of `count`, from the first `count` draws. */
  function Batch(count: SliderCount, width: nat, height: nat, draws: seq<Draw>): (ps: seq<Particle>)
    requires DrawsFor(draws)
    ensures |ps| == count
    ensures forall i :: 0 <= i < count ==> ps[i] == NewParticle(draws[i], width, height)
    ensures forall i :: 0 <= i < count ==> Fresh(ps[i], width, height)
  {
    InitParticles(count, width, height, draws[..count])
  }

  /** The events after which the component shows a fresh batch: Reset, a
      Play/Pause press, and a slider move to a different count. */
  predicate Reinitialises(g: Game, e: Event) {
    e.Reset? || e.TogglePlay? || (e.SetCount? && e.n != g.count)
  }

  /** The first render: 50 particles, playing. */
  function Mount(draws: seq<Draw>, width: nat, height: nat): (g: Game)
    requires DrawsFor(draws)
    ensures g.count == DefaultCount && g.playing
    ensures |g.particles| == DefaultCount
    ensures forall i :: 0 <= i < |g.particles| ==> Fresh(g.particles[i], width, height)
  {
    Game(Batch(DefaultCount, width, height, draws), DefaultCount, true)
  }

  /** The component's response to one event on a canvas of the given size.
      A count or play-state change re-runs the setup effect, which draws a
      new batch; Reset draws a new batch and resumes play. */
  function Step(g: Game, e: Event, width: nat, height: nat): (r: Game)
    requires Supplied(e)
    ensures e.Tick? ==> r.count == g.count && r.playing == g.playing && |r.particles| == |g.particles|
    ensures e.Tick? && !g.playing ==> r == g
    ensures e.Tick? && g.playing ==>
      forall i :: 0 <= i < |g.particles| ==> r.particles[i] == Move(g.particles[i], width, height)
    ensures e.SetCount? ==> r.count == e.n && r.playing == g.playing
    ensures e.SetCount? && e.n == g.count ==> r == g
    ensures e.Reset? ==> r.playing && r.count == g.count
    ensures e.TogglePlay? ==> r.playing == !g.playing && r.count == g.count
    ensures Reinitialises(g, e) ==>
      |r.particles| == r.count && forall i :: 0 <= i < r.count ==> Fresh(r.particles[i], width, height)
  {
    match e
    case Tick => g.(particles := Frame(g.particles, width, height, g.playing).particles)
    case SetCount(n, draws) =>
      if n == g.count then g else Game(Batch(n, width, height, draws), n, g.playing)
    case TogglePlay(draws) => Game(Batch(g.count, width, height, draws), g.count, !g.playing)
    case Reset(draws) => Game(Batch(g.count, width, height, draws), g.count, true)
  }

  /** On screen there are always between 10 and 100 particles, as many as
      the slider says, all with a palette colour, a radius in [2, 7) and
      speeds of at most 1 along each axis. */
  predicate GameInv(g: Game) {
    |g.particles| == g.count && forall i :: 0 <= i < |g.particles| ==> Drifting(g.particles[i])
  }

  lemma FreshDrifts(p: Particle, width: nat, height: nat)
    requires Fresh(p, width, height)
    ensures Drifting(p)
  {
  }

  lemma MountInv(draws: seq<Draw>, width: nat, height: nat)
    requires DrawsFor(draws)
    ensures GameInv(Mount(draws, width, height))
  {
    var g := Mount(draws, width, height);
    forall i | 0 <= i < |g.particles|
      ensures Drifting(g.particles[i])
    {
      FreshDrifts(g.particles[i], width, height);
    }
  }

  lemma StepPreservesGameInv(g: Game, e: Event, width: nat, height: nat)
    requires GameInv(g) && Supplied(e)
    ensures GameInv(Step(g, e, width, height))
    ensures MinCount <= |Step(g, e, width, height).particles| <= MaxCount
  {
    var r := Step(g, e, width, height);
    forall i | 0 <= i < |r.particles|
      ensures Drifting(r.particles[i])
    {
      if e.Tick? && g.playing {
        MoveKeepsDrifting(g.particles[i], width, height);
      } else if Reinitialises(g, e) {
        FreshDrifts(r.particles[i], width, height);
      }
    }
  }

  /** The game after a sequence of events, on a canvas of a fixed size. */
  function Run(g: Game, es: seq<Event>, width: nat, height: nat): (r: Game)
    requires forall k :: 0 <= k < |es| ==> Supplied(es[k])
    ensures es == [] ==> r == g
    decreases |es|
  {
    if es == [] then g else Run(Step(g, es[0], width, height), es[1..], width, height)
  }

  /** From the first render on, whatever the user does and however many
      frames pass, the invariant holds. */
  lemma {:induction false} RunPreservesGameInv(g: Game, es: seq<Event>, width: nat, height: nat)
    requires GameInv(g)
    requires forall k :: 0 <= k < |es| ==> Supplied(es[k])
    ensures GameInv(Run(g, es, width, height))
    ensures MinCount <= |Run(g, es, width, height).particles| <= MaxCount
    decreases |es|
  {
    if es != [] {
      StepPreservesGameInv(g, es[0], width, height);
      RunPreservesGameInv(Step(g, es[0], width, height), es[1..], width, height);
    }
  }

  lemma MountedRunInv(draws: seq<Draw>, es: seq<Event>, width: nat, height: nat)
    requires DrawsFor(draws)
    requires forall k :: 0 <= k < |es| ==> Supplied(es[k])
    ensures GameInv(Run(Mount(draws, width, height), es, width, height))
  {
    MountInv(draws, width, height);
    RunPreservesGameInv(Mount(draws, width, height), es, width, height);
  }
}
