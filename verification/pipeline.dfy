/**
 * What one sub-step of the solver does to the whole set of balls, phase by
 * phase, as functions on the ordered sequence of VerletObjects. The Solver
 * class is proved to compute exactly these.
 */
module Pipeline {
  import opened Vectors
  import opened Particles

  /** The solver's configuration: the serialized fields it reads. */
  datatype Config = Config(gravity: Vector3, container: Vector3, containerRadius: real, subSteps: int)

  /** Both sequences have the same length, and each ball keeps its radius at its index. */
  ghost predicate SameBalls(s: seq<VerletObject>, r: seq<VerletObject>) {
    |r| == |s| && forall k :: 0 <= k < |s| ==> r[k].radius == s[k].radius
  }

  // ---------------------------------------------------------------- gravity

  /** ApplyGravity: every ball is accelerated once by `gravity`. */
  function GravityPhase(s: seq<VerletObject>, gravity: Vector3): (r: seq<VerletObject>)
    ensures |r| == |s|
    ensures forall k :: 0 <= k < |s| ==>
      r[k].acceleration == Add(s[k].acceleration, gravity) &&
      r[k].positionCurrent == s[k].positionCurrent &&
      r[k].positionPrevious == s[k].positionPrevious &&
      r[k].radius == s[k].radius
  {
    seq(|s|, k requires 0 <= k < |s| => s[k].Accelerate(gravity))
  }

  // -------------------------------------------------------------- container

  /** The centre of the container sphere: the container's position raised by its radius. */
  function ContainerCentre(container: Vector3, containerRadius: real): Vector3 {
    Add(container, Up(containerRadius))
  }

  /** The clamp of one ball against the inside wall of the container sphere. */
  function Constrain(o: VerletObject, centre: Vector3, containerRadius: real, lib: VectorLib): (r: VerletObject)
    ensures r.positionPrevious == o.positionPrevious && r.acceleration == o.acceleration
    ensures r.radius == o.radius
    ensures lib.magnitude(Sub(o.positionCurrent, centre)) <= containerRadius - o.radius ==> r == o
    ensures lib.magnitude(Sub(o.positionCurrent, centre)) > containerRadius - o.radius ==>
      r.positionCurrent
        == Add(centre, Scale(containerRadius - o.radius, lib.normalized(Sub(o.positionCurrent, centre))))
  {
    var toObj := Sub(o.positionCurrent, centre);
    var distance := lib.magnitude(toObj);
    if distance <= containerRadius - o.radius then o
    else o.SetPositionCurrent(Add(centre, Scale(containerRadius - o.radius, lib.normalized(toObj))))
  }

  /** ApplyConstraint: every ball is clamped independently. */
  function ConstraintPhase(s: seq<VerletObject>, centre: Vector3, containerRadius: real, lib: VectorLib)
    : (r: seq<VerletObject>)
    ensures |r| == |s|
    ensures forall k :: 0 <= k < |s| ==> r[k] == Constrain(s[k], centre, containerRadius, lib)
  {
    seq(|s|, k requires 0 <= k < |s| => Constrain(s[k], centre, containerRadius, lib))
  }

  /**
   * A ball larger than the container is always clamped, and since `R − r` is
   * then negative it moves to `centre − (r − R)·normalized(offset)`: on the
   * side of the centre opposite to `normalized(offset)`.
   */
  lemma OversizedBallIsAlwaysClamped(o: VerletObject, centre: Vector3, containerRadius: real, lib: VectorLib)
    requires MagnitudeNonNegative(lib)
    requires o.radius > containerRadius
    ensures Constrain(o, centre, containerRadius, lib).positionCurrent
         == Sub(centre, Scale(o.radius - containerRadius, lib.normalized(Sub(o.positionCurrent, centre))))
  {
    assert lib.magnitude(Sub(o.positionCurrent, centre)) >= 0.0;
  }

  /** The constraint phase changes current positions only. */
  lemma ConstraintPhaseMovesOnlyPositions(s: seq<VerletObject>, centre: Vector3, containerRadius: real, lib: VectorLib)
    ensures SameBalls(s, ConstraintPhase(s, centre, containerRadius, lib))
    ensures forall k :: 0 <= k < |s| ==>
      ConstraintPhase(s, centre, containerRadius, lib)[k].positionPrevious == s[k].positionPrevious &&
      ConstraintPhase(s, centre, containerRadius, lib)[k].acceleration == s[k].acceleration
  {
  }

  // ------------------------------------------------------------- collisions

  /** A pair of array indices visited by the collision loop. */
  datatype Pair = Pair(first: nat, second: nat)

  /** Every pair names two distinct balls of a set of `n`, the lower index first. */
  ghost predicate ValidPairs(ps: seq<Pair>, n: nat) {
    forall k :: 0 <= k < |ps| ==> ps[k].first < ps[k].second < n
  }

  /** Lexicographic order on pairs: the order the nested loop visits them in. */
  predicate Before(p: Pair, q: Pair) {
    p.first < q.first || (p.first == q.first && p.second < q.second)
  }

  /**
   * The pairs the nested loop of SolveCollisions visits over `n` balls from
   * row `i`, column `j` on: the rest of row `i`, then every later row in full.
   */
  function PairsFrom(i: nat, j: nat, n: nat): seq<Pair>
    requires i < j
    decreases n + 1 - i, n + 1 - j
  {
    if i >= n then []
    else if j >= n then PairsFrom(i + 1, i + 2, n)
    else [Pair(i, j)] + PairsFrom(i, j + 1, n)
  }

  /** The order in which SolveCollisions visits the pairs of `n` balls. */
  function PairOrder(n: nat): seq<Pair> {
    PairsFrom(0, 1, n)
  }

  /** The number of unordered pairs of `m` balls, counted row by row. */
  function Triangle(m: nat): nat {
    if m == 0 then 0 else Triangle(m - 1) + (m - 1)
  }

  lemma {:induction false} TriangleClosedForm(m: nat)
    ensures 2 * Triangle(m) == m * (m - 1)
  {
    if m > 0 {
      TriangleClosedForm(m - 1);
    }
  }

  /** From (i, j) on the loop visits the rest of row `i`, then every pair of the later balls. */
  lemma {:induction false} PairsFromLength(i: nat, j: nat, n: nat)
    requires i < j <= n
    ensures |PairsFrom(i, j, n)| == (n - j) + Triangle(n - i - 1)
    decreases n + 1 - i, n + 1 - j
  {
    if j < n {
      PairsFromLength(i, j + 1, n);
    } else if i + 2 <= n {
      PairsFromLength(i + 1, i + 2, n);
    } else {
      assert PairsFrom(i + 1, i + 2, n) == [];
    }
  }

  /** SolveCollisions tests n·(n−1)/2 pairs of `n` balls. */
  lemma PairCount(n: nat)
    ensures |PairOrder(n)| == Triangle(n)
    ensures 2 * |PairOrder(n)| == n * (n - 1)
  {
    if n > 0 {
      PairsFromLength(0, 1, n);
    }
    TriangleClosedForm(n);
  }

  /** Every pair visited from (i, j) on names two distinct balls and lies at or after (i, j). */
  lemma {:induction false} PairsFromBounds(i: nat, j: nat, n: nat)
    requires i < j
    ensures forall k :: 0 <= k < |PairsFrom(i, j, n)| ==>
      PairsFrom(i, j, n)[k].first < PairsFrom(i, j, n)[k].second < n &&
      i <= PairsFrom(i, j, n)[k].first &&
      (PairsFrom(i, j, n)[k].first == i ==> j <= PairsFrom(i, j, n)[k].second)
    decreases n + 1 - i, n + 1 - j
  {
    if i < n {
      if j >= n {
        PairsFromBounds(i + 1, i + 2, n);
      } else {
        PairsFromBounds(i, j + 1, n);
      }
    }
  }

  /** The pairs visited from (i, j) on come in strictly increasing lexicographic order. */
  lemma {:induction false} PairsFromSorted(i: nat, j: nat, n: nat)
    requires i < j
    ensures forall a, b :: 0 <= a < b < |PairsFrom(i, j, n)| ==>
      Before(PairsFrom(i, j, n)[a], PairsFrom(i, j, n)[b])
    decreases n + 1 - i, n + 1 - j
  {
    if i < n {
      if j >= n {
        PairsFromSorted(i + 1, i + 2, n);
      } else {
        var all, rest := PairsFrom(i, j, n), PairsFrom(i, j + 1, n);
        PairsFromSorted(i, j + 1, n);
        PairsFromBounds(i, j + 1, n);
        assert all == [Pair(i, j)] + rest;
        forall a, b | 0 <= a < b < |all| ensures Before(all[a], all[b]) {
          if a == 0 {
            assert all[b] == rest[b - 1];
          } else {
            assert all[a] == rest[a - 1] && all[b] == rest[b - 1];
          }
        }
      }
    }
  }

  /** Every pair at or after (i, j) is visited from (i, j) on. */
  lemma {:induction false} PairsFromComplete(i: nat, j: nat, n: nat)
    requires i < j
    ensures forall f: nat, m: nat :: f < m < n && (i < f || (i == f && j <= m)) ==> Pair(f, m) in PairsFrom(i, j, n)
    decreases n + 1 - i, n + 1 - j
  {
    if i < n {
      if j >= n {
        PairsFromComplete(i + 1, i + 2, n);
      } else {
        PairsFromComplete(i, j + 1, n);
      }
    }
  }

  /**
   * SolveCollisions visits every unordered pair i < j of the `n` balls
   * exactly once, in lexicographic order, and never pairs a ball with itself.
   */
  lemma VisitsEveryPairOnce(n: nat)
    ensures ValidPairs(PairOrder(n), n)
    ensures forall i: nat, j: nat :: i < j < n ==> Pair(i, j) in PairOrder(n)
    ensures forall a, b :: 0 <= a < b < |PairOrder(n)| ==> Before(PairOrder(n)[a], PairOrder(n)[b])
    ensures forall a, b :: 0 <= a < b < |PairOrder(n)| ==> PairOrder(n)[a] != PairOrder(n)[b]
  {
    PairsFromBounds(0, 1, n);
    PairsFromSorted(0, 1, n);
    PairsFromComplete(0, 1, n);
  }

  /** One iteration of the inner collision loop, for balls `i` < `j`. */
  function ResolvePair(s: seq<VerletObject>, i: nat, j: nat, lib: VectorLib): (r: seq<VerletObject>)
    requires i < j < |s|
    ensures |r| == |s|
  {
    var obj1, obj2 := s[i], s[j];
    var collisionAxis := Sub(obj1.positionCurrent, obj2.positionCurrent);
    var distance := lib.magnitude(collisionAxis);
    if distance > obj1.radius + obj2.radius then s
    else
      var direction := lib.normalized(collisionAxis);
      var delta := obj1.radius + obj2.radius - distance;
      var s1 := s[i := obj1.SetPositionCurrent(Add(obj1.positionCurrent, Scale(0.5 * delta, direction)))];
      s1[j := obj2.SetPositionCurrent(Sub(obj2.positionCurrent, Scale(0.5 * delta, direction)))]
  }

  /** An overlapping pair is resolved by rewriting the two balls' current positions. */
  lemma ResolvePairOverlap(s: seq<VerletObject>, i: nat, j: nat, lib: VectorLib)
    requires i < j < |s|
    requires lib.magnitude(Sub(s[i].positionCurrent, s[j].positionCurrent)) <= s[i].radius + s[j].radius
    ensures var axis := Sub(s[i].positionCurrent, s[j].positionCurrent);
      var push := Scale(0.5 * (s[i].radius + s[j].radius - lib.magnitude(axis)), lib.normalized(axis));
      ResolvePair(s, i, j, lib)
        == s[i := s[i].SetPositionCurrent(Add(s[i].positionCurrent, push))]
            [j := s[j].SetPositionCurrent(Sub(s[j].positionCurrent, push))]
  {
  }

  /**
   * What resolving one pair does: a separated pair is left alone; an
   * overlapping pair is pushed apart along the library's direction of their
   * axis by half the overlap each, equally and oppositely, so the sum of the
   * two positions is kept; no other ball and no other field changes.
   */
  lemma ResolvePairEffect(s: seq<VerletObject>, i: nat, j: nat, lib: VectorLib)
    requires i < j < |s|
    ensures var r := ResolvePair(s, i, j, lib);
      SameBalls(s, r) &&
      (forall k :: 0 <= k < |s| && k != i && k != j ==> r[k] == s[k]) &&
      (forall k :: 0 <= k < |s| ==>
        r[k].positionPrevious == s[k].positionPrevious && r[k].acceleration == s[k].acceleration)
    ensures var r := ResolvePair(s, i, j, lib);
      Sub(r[i].positionCurrent, s[i].positionCurrent) == Sub(s[j].positionCurrent, r[j].positionCurrent) &&
      Add(r[i].positionCurrent, r[j].positionCurrent) == Add(s[i].positionCurrent, s[j].positionCurrent)
    ensures var axis := Sub(s[i].positionCurrent, s[j].positionCurrent);
      lib.magnitude(axis) > s[i].radius + s[j].radius ==> ResolvePair(s, i, j, lib) == s
    ensures var axis := Sub(s[i].positionCurrent, s[j].positionCurrent);
      lib.magnitude(axis) <= s[i].radius + s[j].radius ==>
        Sub(ResolvePair(s, i, j, lib)[i].positionCurrent, s[i].positionCurrent)
          == Scale(0.5 * (s[i].radius + s[j].radius - lib.magnitude(axis)), lib.normalized(axis))
  {
  }

  /**
   * The pairs `ps` resolved one after the other, in order. A pair that does
   * not name two distinct balls, the lower index first, resolves nothing;
   * the loop's own order has no such pair (VisitsEveryPairOnce).
   */
  function ApplyPairs(s: seq<VerletObject>, ps: seq<Pair>, lib: VectorLib): (r: seq<VerletObject>)
    ensures |r| == |s|
    decreases |ps|
  {
    if ps == [] then s
    else
      var t := ApplyPairs(s, ps[..|ps| - 1], lib);
      var p := ps[|ps| - 1];
      if p.first < p.second < |t| then ResolvePair(t, p.first, p.second, lib) else t
  }

  /** Resolving one more pair after `ps`. */
  lemma ApplyPairsSnoc(s: seq<VerletObject>, ps: seq<Pair>, p: Pair, lib: VectorLib)
    requires p.first < p.second < |s|
    ensures ApplyPairs(s, ps + [p], lib) == ResolvePair(ApplyPairs(s, ps, lib), p.first, p.second, lib)
  {
    assert (ps + [p])[..|ps|] == ps;
  }

  /** Resolving pairs changes current positions only. */
  lemma {:induction false} ApplyPairsMovesOnlyPositions(s: seq<VerletObject>, ps: seq<Pair>, lib: VectorLib)
    ensures var r := ApplyPairs(s, ps, lib);
      SameBalls(s, r) &&
      forall k :: 0 <= k < |s| ==>
        r[k].positionPrevious == s[k].positionPrevious && r[k].acceleration == s[k].acceleration
    decreases |ps|
  {
    if ps != [] {
      var t := ApplyPairs(s, ps[..|ps| - 1], lib);
      var p := ps[|ps| - 1];
      ApplyPairsMovesOnlyPositions(s, ps[..|ps| - 1], lib);
      if p.first < p.second < |t| {
        ResolvePairEffect(t, p.first, p.second, lib);
      }
    }
  }

  /** SolveCollisions: every pair resolved once, in loop order. */
  function CollisionPhase(s: seq<VerletObject>, lib: VectorLib): (r: seq<VerletObject>)
    ensures |r| == |s|
  {
    ApplyPairs(s, PairOrder(|s|), lib)
  }

  /**
   * What is left of the nested loop when it stands at row `i`, column `j`:
   * the rest of row `i`, then every later row.
   */
  function Sweep(s: seq<VerletObject>, i: nat, j: nat, lib: VectorLib): (r: seq<VerletObject>)
    requires i < j
    ensures |r| == |s|
    decreases |s| + 1 - i, |s| + 1 - j
  {
    if i >= |s| then s
    else if j >= |s| then Sweep(s, i + 1, i + 2, lib)
    else Sweep(ResolvePair(s, i, j, lib), i, j + 1, lib)
  }

  /**
   * Row `i` of the nested loop from column `j` to its end: the inner loop of
   * SolveCollisions on its own.
   */
  function Row(s: seq<VerletObject>, i: nat, j: nat, lib: VectorLib): (r: seq<VerletObject>)
    requires i < j
    ensures |r| == |s|
    decreases |s| - j
  {
    if j >= |s| then s else Row(ResolvePair(s, i, j, lib), i, j + 1, lib)
  }

  /** One pass of the inner loop's body, as the sweep sees it. */
  lemma SweepStep(s: seq<VerletObject>, i: nat, j: nat, lib: VectorLib)
    requires i < j < |s|
    ensures Sweep(s, i, j, lib) == Sweep(ResolvePair(s, i, j, lib), i, j + 1, lib)
  {
  }

  /** The end of a row: the outer loop moves on to row i + 1, starting at column i + 2. */
  lemma SweepRowEnd(s: seq<VerletObject>, i: nat, j: nat, lib: VectorLib)
    requires i < |s| <= j
    ensures Sweep(s, i, j, lib) == Sweep(s, i + 1, i + 2, lib)
  {
  }

  /** One pass of the inner loop's body: pair (i, j) resolved, then on to column j + 1. */
  lemma RowStep(s: seq<VerletObject>, i: nat, j: nat, lib: VectorLib)
    requires i < j < |s|
    ensures Row(s, i, j, lib) == Row(ResolvePair(s, i, j, lib), i, j + 1, lib)
  {
  }

  /** The inner loop run to its end from column `j` leaves the outer loop at row i + 1. */
  lemma {:induction false} SweepByRows(s: seq<VerletObject>, i: nat, j: nat, lib: VectorLib)
    requires i < j && i < |s|
    ensures Sweep(s, i, j, lib) == Sweep(Row(s, i, j, lib), i + 1, i + 2, lib)
    decreases |s| - j
  {
    if j < |s| {
      var t := ResolvePair(s, i, j, lib);
      SweepByRows(t, i, j + 1, lib);
      SweepStep(s, i, j, lib);
      RowStep(s, i, j, lib);
    } else {
      assert Row(s, i, j, lib) == s;
      SweepRowEnd(s, i, j, lib);
    }
  }

  /**
   * Finishing the nested loop from row `i`, column `j` resolves the pairs
   * PairsFrom(i, j) one after the other, after whatever was resolved before.
   */
  lemma {:induction false} SweepResolvesPairsFrom(s0: seq<VerletObject>, done: seq<Pair>, i: nat, j: nat, lib: VectorLib)
    requires i < j
    ensures Sweep(ApplyPairs(s0, done, lib), i, j, lib) == ApplyPairs(s0, done + PairsFrom(i, j, |s0|), lib)
    decreases |s0| + 1 - i, |s0| + 1 - j
  {
    var n := |s0|;
    var s := ApplyPairs(s0, done, lib);
    if i >= n {
      assert done + PairsFrom(i, j, n) == done;
      assert Sweep(s, i, j, lib) == s;
    } else if j >= n {
      SweepResolvesPairsFrom(s0, done, i + 1, i + 2, lib);
      assert Sweep(s, i, j, lib) == Sweep(s, i + 1, i + 2, lib);
    } else {
      var p := Pair(i, j);
      assert done + PairsFrom(i, j, n) == (done + [p]) + PairsFrom(i, j + 1, n);
      ApplyPairsSnoc(s0, done, p, lib);
      SweepResolvesPairsFrom(s0, done + [p], i, j + 1, lib);
      assert Sweep(s, i, j, lib) == Sweep(ResolvePair(s, i, j, lib), i, j + 1, lib);
    }
  }

  /** Running the whole nested loop resolves the pairs of PairOrder in order. */
  lemma SweepIsCollisionPhase(s: seq<VerletObject>, lib: VectorLib)
    ensures Sweep(s, 0, 1, lib) == CollisionPhase(s, lib)
  {
    SweepResolvesPairsFrom(s, [], 0, 1, lib);
    assert [] + PairOrder(|s|) == PairOrder(|s|);
  }

  /** The sum of all current positions: their plain (unweighted) mean times their number. */
  function SumPositions(s: seq<VerletObject>): Vector3 {
    if s == [] then Zero else Add(SumPositions(s[..|s| - 1]), s[|s| - 1].positionCurrent)
  }

  lemma {:induction false} SumPositionsUpdate(s: seq<VerletObject>, k: nat, o: VerletObject)
    requires k < |s|
    ensures SumPositions(s[k := o]) == Add(Sub(SumPositions(s), s[k].positionCurrent), o.positionCurrent)
  {
    var n := |s| - 1;
    if k == n {
      assert s[k := o][..n] == s[..n];
    } else {
      assert s[k := o][..n] == s[..n][k := o];
      SumPositionsUpdate(s[..n], k, o);
    }
  }

  /** Resolving a pair rewrites slots `i` and `j` only, and keeps the sum of their positions. */
  lemma ResolvePairShape(s: seq<VerletObject>, i: nat, j: nat, lib: VectorLib)
    requires i < j < |s|
    ensures var r := ResolvePair(s, i, j, lib);
      r == s[i := r[i]][j := r[j]] &&
      Add(r[i].positionCurrent, r[j].positionCurrent) == Add(s[i].positionCurrent, s[j].positionCurrent)
  {
  }

  /** Swapping two summands for two others with the same sum keeps a total. */
  lemma ExchangeSummands(total: Vector3, a: Vector3, b: Vector3, a': Vector3, b': Vector3)
    requires Add(a', b') == Add(a, b)
    ensures Add(Sub(Add(Sub(total, a), a'), b), b') == total
  {
  }

  /** An equal and opposite push leaves the sum of positions where it was. */
  lemma ResolvePairConservesSum(s: seq<VerletObject>, i: nat, j: nat, lib: VectorLib)
    requires i < j < |s|
    ensures SumPositions(ResolvePair(s, i, j, lib)) == SumPositions(s)
  {
    var r := ResolvePair(s, i, j, lib);
    ResolvePairShape(s, i, j, lib);
    var s1 := s[i := r[i]];
    SumPositionsUpdate(s, i, r[i]);
    SumPositionsUpdate(s1, j, r[j]);
    ExchangeSummands(SumPositions(s), s[i].positionCurrent, s[j].positionCurrent,
                     r[i].positionCurrent, r[j].positionCurrent);
  }

  lemma {:induction false} ApplyPairsConservesSum(s: seq<VerletObject>, ps: seq<Pair>, lib: VectorLib)
    ensures SumPositions(ApplyPairs(s, ps, lib)) == SumPositions(s)
    decreases |ps|
  {
    if ps != [] {
      var t := ApplyPairs(s, ps[..|ps| - 1], lib);
      var p := ps[|ps| - 1];
      ApplyPairsConservesSum(s, ps[..|ps| - 1], lib);
      if p.first < p.second < |t| {
        ResolvePairConservesSum(t, p.first, p.second, lib);
      }
    }
  }

  /** Collision resolution never changes the sum, so the mean, of the current positions. */
  lemma CollisionPhaseConservesSum(s: seq<VerletObject>, lib: VectorLib)
    ensures SumPositions(CollisionPhase(s, lib)) == SumPositions(s)
  {
    ApplyPairsConservesSum(s, PairOrder(|s|), lib);
  }

  /** The collision phase changes current positions only. */
  lemma CollisionPhaseMovesOnlyPositions(s: seq<VerletObject>, lib: VectorLib)
    ensures SameBalls(s, CollisionPhase(s, lib))
    ensures forall k :: 0 <= k < |s| ==>
      CollisionPhase(s, lib)[k].positionPrevious == s[k].positionPrevious &&
      CollisionPhase(s, lib)[k].acceleration == s[k].acceleration
  {
    ApplyPairsMovesOnlyPositions(s, PairOrder(|s|), lib);
  }

  /** With two balls the collision phase resolves their one pair, once. */
  lemma TwoBallsMeetOnce(s: seq<VerletObject>, lib: VectorLib)
    requires |s| == 2
    ensures CollisionPhase(s, lib) == ResolvePair(s, 0, 1, lib)
  {
    assert PairOrder(2) == [Pair(0, 1)] by {
      assert PairsFrom(1, 2, 2) == [];
      assert PairsFrom(0, 2, 2) == [];
    }
    assert [Pair(0, 1)][..0] == [];
  }

  /**
   * Two balls of radius 1 at (0,0,0) and (1.5,0,0): with the library giving
   * magnitude 1.5 and direction (-1,0,0) for their axis, the overlap 0.5 is
   * split evenly and the balls end at (-0.25,0,0) and (1.75,0,0).
   */
  lemma CollisionScenario(s: seq<VerletObject>, lib: VectorLib)
    requires |s| == 2
    requires s[0] == VerletObject(1.0, Zero, Zero, Zero)
    requires s[1] == VerletObject(1.0, Vector3(1.5, 0.0, 0.0), Vector3(1.5, 0.0, 0.0), Zero)
    requires lib.magnitude(Vector3(-1.5, 0.0, 0.0)) == 1.5
    requires lib.normalized(Vector3(-1.5, 0.0, 0.0)) == Vector3(-1.0, 0.0, 0.0)
    ensures CollisionPhase(s, lib)[0].positionCurrent == Vector3(-0.25, 0.0, 0.0)
    ensures CollisionPhase(s, lib)[1].positionCurrent == Vector3(1.75, 0.0, 0.0)
  {
    TwoBallsMeetOnce(s, lib);
    var axis := Sub(s[0].positionCurrent, s[1].positionCurrent);
    assert axis == Vector3(-1.5, 0.0, 0.0);
    ResolvePairEffect(s, 0, 1, lib);
  }

  // ------------------------------------------------------------ integration

  /** UpdatePositions: every ball takes one Verlet step of `deltaTime`. */
  function IntegrationPhase(s: seq<VerletObject>, deltaTime: real): (r: seq<VerletObject>)
    ensures |r| == |s|
    ensures forall k :: 0 <= k < |s| ==> r[k] == s[k].UpdatePosition(deltaTime)
  {
    seq(|s|, k requires 0 <= k < |s| => s[k].UpdatePosition(deltaTime))
  }

  // -------------------------------------------------------------- sub-steps

  /** One sub-step: gravity, then the container, then collisions, then integration. */
  function SubStep(s: seq<VerletObject>, cfg: Config, lib: VectorLib, deltaTime: real): (r: seq<VerletObject>)
    ensures |r| == |s|
  {
    var centre := ContainerCentre(cfg.container, cfg.containerRadius);
    var constrained := ConstraintPhase(GravityPhase(s, cfg.gravity), centre, cfg.containerRadius, lib);
    IntegrationPhase(CollisionPhase(constrained, lib), deltaTime)
  }

  /** `n` sub-steps of `deltaTime` each. */
  function SubSteps(s: seq<VerletObject>, cfg: Config, lib: VectorLib, deltaTime: real, n: nat): (r: seq<VerletObject>)
    ensures |r| == |s|
  {
    if n == 0 then s else SubStep(SubSteps(s, cfg, lib, deltaTime, n - 1), cfg, lib, deltaTime)
  }

  /** UpdateSolver: a frame of `deltaTime` split into `subSteps` equal slices. */
  function Frame(s: seq<VerletObject>, cfg: Config, lib: VectorLib, deltaTime: real): (r: seq<VerletObject>)
    requires cfg.subSteps >= 1
    ensures |r| == |s|
  {
    SubSteps(s, cfg, lib, deltaTime / cfg.subSteps as real, cfg.subSteps)
  }

  /**
   * After a sub-step every ball has zero acceleration, and the set keeps its
   * length, its order and every radius.
   */
  lemma SubStepResets(s: seq<VerletObject>, cfg: Config, lib: VectorLib, deltaTime: real)
    ensures SameBalls(s, SubStep(s, cfg, lib, deltaTime))
    ensures forall k :: 0 <= k < |s| ==> SubStep(s, cfg, lib, deltaTime)[k].acceleration == Zero
  {
    var centre := ContainerCentre(cfg.container, cfg.containerRadius);
    CollisionPhaseMovesOnlyPositions(
      ConstraintPhase(GravityPhase(s, cfg.gravity), centre, cfg.containerRadius, lib), lib);
  }

  /** Any number of sub-steps keeps every ball and its radius; at least one leaves no acceleration. */
  lemma {:induction false} SubStepsKeepBalls(s: seq<VerletObject>, cfg: Config, lib: VectorLib, deltaTime: real, n: nat)
    ensures SameBalls(s, SubSteps(s, cfg, lib, deltaTime, n))
    ensures n > 0 ==> forall k :: 0 <= k < |s| ==> SubSteps(s, cfg, lib, deltaTime, n)[k].acceleration == Zero
  {
    if n > 0 {
      SubStepsKeepBalls(s, cfg, lib, deltaTime, n - 1);
      SubStepResets(SubSteps(s, cfg, lib, deltaTime, n - 1), cfg, lib, deltaTime);
    }
  }

  /** A whole frame keeps every ball and its radius and leaves no acceleration behind. */
  lemma FrameResets(s: seq<VerletObject>, cfg: Config, lib: VectorLib, deltaTime: real)
    requires cfg.subSteps >= 1
    ensures SameBalls(s, Frame(s, cfg, lib, deltaTime))
    ensures forall k :: 0 <= k < |s| ==> Frame(s, cfg, lib, deltaTime)[k].acceleration == Zero
  {
    SubStepsKeepBalls(s, cfg, lib, deltaTime / cfg.subSteps as real, cfg.subSteps);
  }

  /**
   * Acceleration never carries over: after a sub-step, the next gravity
   * phase leaves every ball with exactly `gravity` as its acceleration.
   */
  lemma GravityStartsFromZero(s: seq<VerletObject>, cfg: Config, lib: VectorLib, deltaTime: real)
    ensures forall k :: 0 <= k < |s| ==>
      GravityPhase(SubStep(s, cfg, lib, deltaTime), cfg.gravity)[k].acceleration == cfg.gravity
  {
    SubStepResets(s, cfg, lib, deltaTime);
  }

  /**
   * Integration is the only writer of the previous position: after a
   * sub-step each previous position is the current position that the
   * collision phase left.
   */
  lemma PreviousIsPreIntegrationPosition(s: seq<VerletObject>, cfg: Config, lib: VectorLib, deltaTime: real)
    ensures var centre := ContainerCentre(cfg.container, cfg.containerRadius);
      var beforeIntegration :=
        CollisionPhase(ConstraintPhase(GravityPhase(s, cfg.gravity), centre, cfg.containerRadius, lib), lib);
      forall k :: 0 <= k < |s| ==>
        SubStep(s, cfg, lib, deltaTime)[k].positionPrevious == beforeIntegration[k].positionCurrent
  {
  }

  /**
   * For a single ball there is no pair to resolve: the collision phase is
   * the identity.
   */
  lemma SingleBallNeverCollides(s: seq<VerletObject>, lib: VectorLib)
    requires |s| <= 1
    ensures CollisionPhase(s, lib) == s
  {
    assert PairOrder(|s|) == [] by {
      if |s| == 1 {
        assert PairsFrom(1, 2, 1) == [];
      }
    }
  }

  // ---------------------------------------------------------- phase trace

  /** The calls UpdateSolver makes, in the order it makes them. */
  datatype Phase = GravityStep | ConstraintStep | CollisionStep | IntegrationStep(deltaTime: real)

  /** The calls of one iteration of the sub-step loop. */
  function SubStepCalls(deltaTime: real): seq<Phase> {
    [GravityStep, ConstraintStep, CollisionStep, IntegrationStep(deltaTime)]
  }

  /** The calls of `n` iterations of the sub-step loop. */
  function Schedule(n: nat, deltaTime: real): seq<Phase> {
    if n == 0 then [] else Schedule(n - 1, deltaTime) + SubStepCalls(deltaTime)
  }

  /** The four calls of a sub-step, appended one at a time to a trace. */
  lemma AppendSubStepCalls(trace: seq<Phase>, deltaTime: real)
    ensures trace + [GravityStep] + [ConstraintStep] + [CollisionStep] + [IntegrationStep(deltaTime)]
         == trace + SubStepCalls(deltaTime)
  {
  }

  /** One more iteration of the loop extends the schedule by one sub-step's calls. */
  lemma ScheduleStep(trace: seq<Phase>, n: nat, deltaTime: real)
    ensures trace + Schedule(n + 1, deltaTime) == trace + Schedule(n, deltaTime) + SubStepCalls(deltaTime)
  {
  }

  /** The simulated time a sequence of calls advances: the sum of its integration slices. */
  function ElapsedTime(calls: seq<Phase>): real {
    if calls == [] then 0.0 else ElapsedTime(calls[..|calls| - 1]) + SliceOf(calls[|calls| - 1])
  }

  /** The time slice of one call: non-zero only for integration. */
  function SliceOf(call: Phase): real {
    if call.IntegrationStep? then call.deltaTime else 0.0
  }

  lemma {:induction false} ElapsedTimeAppend(calls: seq<Phase>, more: seq<Phase>)
    ensures ElapsedTime(calls + more) == ElapsedTime(calls) + ElapsedTime(more)
    decreases |more|
  {
    if more != [] {
      var m := |more| - 1;
      assert (calls + more)[..|calls| + m] == calls + more[..m];
      assert (calls + more)[|calls| + m] == more[m];
      ElapsedTimeAppend(calls, more[..m]);
    } else {
      assert calls + more == calls;
    }
  }

  /**
   * The schedule of `n` iterations has 4·n calls: gravity, constraint,
   * collisions and integration, repeating in that order.
   */
  lemma {:induction false} ScheduleOrder(n: nat, deltaTime: real)
    ensures |Schedule(n, deltaTime)| == 4 * n
    ensures forall k :: 0 <= k < 4 * n ==> Schedule(n, deltaTime)[k] == SubStepCalls(deltaTime)[k % 4]
  {
    if n > 0 {
      ScheduleOrder(n - 1, deltaTime);
      forall k | 4 * (n - 1) <= k < 4 * n
        ensures Schedule(n, deltaTime)[k] == SubStepCalls(deltaTime)[k % 4]
      {
        assert k % 4 == k - 4 * (n - 1);
      }
    }
  }

  /** `n` iterations with slice `dt` advance simulated time by `n·dt`. */
  lemma {:induction false} ScheduleTime(n: nat, deltaTime: real)
    ensures ElapsedTime(Schedule(n, deltaTime)) == n as real * deltaTime
  {
    if n > 0 {
      ScheduleTime(n - 1, deltaTime);
      ElapsedTimeAppend(Schedule(n - 1, deltaTime), SubStepCalls(deltaTime));
      assert ElapsedTime(SubStepCalls(deltaTime)) == deltaTime by {
        var c1: seq<Phase> := [GravityStep];
        var c2 := c1 + [ConstraintStep];
        var c3 := c2 + [CollisionStep];
        var c4 := c3 + [IntegrationStep(deltaTime)];
        assert c1[..0] == [] && c2[..1] == c1 && c3[..2] == c2 && c4[..3] == c3;
        assert ElapsedTime(c1) == 0.0;
        assert ElapsedTime(c2) == 0.0;
        assert ElapsedTime(c3) == 0.0;
        assert SubStepCalls(deltaTime) == c4;
      }
    }
  }

  /** The `subSteps` slices of `deltaTime / subSteps` add up to the whole frame time. */
  lemma SlicesCoverFrame(deltaTime: real, subSteps: int)
    requires subSteps >= 1
    ensures ElapsedTime(Schedule(subSteps, deltaTime / subSteps as real)) == deltaTime
  {
    ScheduleTime(subSteps, deltaTime / subSteps as real);
  }
}
