/**
 * SlopeManager: the two-tap ruler. Every frame a raycast from the screen
 * centre updates the saved ruler position and the pivot's scale; every tap
 * drops an anchor there, alternately the start and the end of a line, and
 * the tap that ends a line starts the slope analysis on the pair.
 *
 * The raycast is an input (`Option<Hit>`), and the calls to
 * GreenSlopeRT.StartSlopeAnalysis are recorded in `requests`. The instantiated
 * anchor objects are represented by their positions.
 */
module Ruler {
  import opened Basics

  /** The first raycast hit: its pose's position and its distance. */
  datatype Hit = Hit(position: Vec3, distance: real)

  const MinHitDistance: real := 0.1
  const MaxHitDistance: real := 0.5
  const MissScale: real := 0.5

  /** The pivot scale on a hit: the distance clamped to [0.1, 0.5], then mapped by d * -0.25 + 1.45. */
  function PivotScale(distance: real): (s: real)
    ensures 1.325 <= s <= 1.425
    ensures distance <= MinHitDistance ==> s == 1.425
    ensures distance >= MaxHitDistance ==> s == 1.325
  {
    var d := if distance < MinHitDistance then MinHitDistance
             else if distance > MaxHitDistance then MaxHitDistance
             else distance;
    d * -0.25 + 1.45
  }

  /** Farther hits never give a larger pivot. */
  lemma PivotScaleNonIncreasing(d1: real, d2: real)
    requires d1 <= d2
    ensures PivotScale(d2) <= PivotScale(d1)
  {
  }

  /** Within the clamp range the pivot strictly shrinks with distance. */
  lemma PivotScaleDecreasing(d1: real, d2: real)
    requires MinHitDistance <= d1 < d2 <= MaxHitDistance
    ensures PivotScale(d2) < PivotScale(d1)
  {
  }

  /**
   * The analysis requests a sequence of taps at these positions makes:
   * one per completed pair, the pair being the two taps' positions.
   */
  function Pairs(taps: seq<Vec3>): (r: seq<(Vec3, Vec3)>)
    ensures |r| == |taps| / 2
    ensures forall k :: 0 <= k < |r| ==> r[k] == (taps[2 * k], taps[2 * k + 1])
  {
    if |taps| < 2 then [] else [(taps[0], taps[1])] + Pairs(taps[2..])
  }

  /** A tap that ends a line adds the pair of the last two taps; a tap that starts one adds nothing. */
  lemma PairsSnoc(taps: seq<Vec3>, x: Vec3)
    ensures |taps| % 2 == 0 ==> Pairs(taps + [x]) == Pairs(taps)
    ensures |taps| % 2 == 1 ==> Pairs(taps + [x]) == Pairs(taps) + [(taps[|taps| - 1], x)]
  {
    var ts := taps + [x];
    var h := |taps| / 2;
    assert |taps| == 2 * h + |taps| % 2;
    if |taps| % 2 == 0 {
      assert |ts| / 2 == h;
      assert |Pairs(ts)| == |Pairs(taps)|;
      forall k | 0 <= k < |Pairs(ts)|
        ensures Pairs(ts)[k] == Pairs(taps)[k]
      {
        assert ts[2 * k] == taps[2 * k] && ts[2 * k + 1] == taps[2 * k + 1];
      }
    } else {
      var before := Pairs(taps);
      var extended := before + [(taps[|taps| - 1], x)];
      assert |ts| / 2 == h + 1;
      assert |Pairs(ts)| == |extended|;
      forall k | 0 <= k < |Pairs(ts)|
        ensures Pairs(ts)[k] == extended[k]
      {
        if k < |before| {
          assert ts[2 * k] == taps[2 * k] && ts[2 * k + 1] == taps[2 * k + 1];
        } else {
          assert k == h && 2 * k == |taps| - 1;
        }
      }
    }
  }

  class SlopeManager {
    /** _count, the number of taps so far (an unbounded count here). */
    var count: nat
    /** The positions of the anchors in _points, in tap order. */
    var points: seq<Vec3>
    var startPos: Vec3
    var endPos: Vec3
    var rulerPosSave: Vec3
    /** pivot.localScale, which is always uniform. */
    var pivotScale: real
    /** The (A, B) pairs passed to greenSlope.StartSlopeAnalysis, in call order. */
    var requests: seq<(Vec3, Vec3)>

    /**
     * One anchor per tap; an odd count means a line is open at the last
     * anchor; a completed line is the last two anchors.
     */
    ghost predicate Valid()
      reads this
    {
      && |points| == count
      && (count % 2 == 1 ==> startPos == points[count - 1])
      && (count % 2 == 0 && count >= 2 ==> startPos == points[count - 2] && endPos == points[count - 1])
    }

    /**
     * Every pair of taps made one analysis request with that pair, and nothing
     * else made one. OnConfirmLine is public (a UI button can call it), and a
     * direct call adds a request that no pair of taps made.
     */
    ghost predicate OnlyTapsConfirmed()
      reads this
    {
      requests == Pairs(points)
    }

    constructor ()
      ensures Valid() && OnlyTapsConfirmed() && count == 0 && points == [] && requests == []
    {
      count := 0;
      points := [];
      startPos := Zero;
      endPos := Zero;
      rulerPosSave := Zero;
      pivotScale := 1.0;
      requests := [];
    }

    /** One frame: on a hit save its position and scale the pivot by distance; on a miss the pivot drops to 0.5. */
    method Update(hit: Option<Hit>)
      requires Valid()
      modifies this
      ensures Valid()
      ensures hit.Some? ==> rulerPosSave == hit.value.position && pivotScale == PivotScale(hit.value.distance)
      ensures hit.None? ==> rulerPosSave == old(rulerPosSave) && pivotScale == MissScale
      ensures count == old(count) && points == old(points) && requests == old(requests)
      ensures startPos == old(startPos) && endPos == old(endPos)
    {
      if hit.Some? {
        var hitDis := hit.value.distance;
        if hitDis < 0.1 {
          hitDis := 0.1;
        }
        if hitDis > 0.5 {
          hitDis := 0.5;
        }
        hitDis := hitDis * -0.25 + 1.45;
        rulerPosSave := hit.value.position;
        pivotScale := hitDis;
      } else {
        pivotScale := 0.5;
      }
    }

    /** Starts the slope analysis on the current start and end positions. */
    method OnConfirmLine()
      modifies this
      ensures old(Valid()) ==> Valid()
      ensures requests == old(requests) + [(old(startPos), old(endPos))]
      ensures count == old(count) && points == old(points) && startPos == old(startPos) && endPos == old(endPos)
      ensures rulerPosSave == old(rulerPosSave) && pivotScale == old(pivotScale)
    {
      requests := requests + [(startPos, endPos)];
    }

    /**
     * A tap. An even count starts a line at the saved ruler position; an odd
     * count ends it there and requests the analysis of the line.
     */
    method MakeRulerObj()
      requires Valid()
      modifies this
      ensures Valid()
      ensures old(OnlyTapsConfirmed()) ==> OnlyTapsConfirmed()
      ensures count == old(count) + 1
      ensures points == old(points) + [old(rulerPosSave)]
      ensures old(count) % 2 == 0 ==>
                startPos == old(rulerPosSave) && endPos == old(endPos) && requests == old(requests)
      ensures old(count) % 2 == 1 ==>
                startPos == old(startPos) && endPos == old(rulerPosSave) &&
                requests == old(requests) + [(old(startPos), old(rulerPosSave))]
      ensures rulerPosSave == old(rulerPosSave) && pivotScale == old(pivotScale)
    {
      PairsSnoc(points, rulerPosSave);
      if count % 2 == 0 {
        MakeStartAnchor();
      } else if count % 2 == 1 {
        MakeEndAnchor();
        OnConfirmLine();
      }
      count := count + 1;
    }

    method MakeStartAnchor()
      modifies this
      ensures startPos == old(rulerPosSave) && points == old(points) + [old(rulerPosSave)]
      ensures count == old(count) && endPos == old(endPos) && requests == old(requests)
      ensures rulerPosSave == old(rulerPosSave) && pivotScale == old(pivotScale)
    {
      startPos := rulerPosSave;
      points := points + [startPos];
    }

    method MakeEndAnchor()
      modifies this
      ensures endPos == old(rulerPosSave) && points == old(points) + [old(rulerPosSave)]
      ensures count == old(count) && startPos == old(startPos) && requests == old(requests)
      ensures rulerPosSave == old(rulerPosSave) && pivotScale == old(pivotScale)
    {
      endPos := rulerPosSave;
      points := points + [endPos];
    }
  }

  /** The analysis is requested on every second tap, with the positions of that tap and the one before. */
  lemma RequestIsLastTwoTaps(points: seq<Vec3>, requests: seq<(Vec3, Vec3)>)
    requires requests == Pairs(points) && |points| >= 2 && |points| % 2 == 0
    ensures requests[|requests| - 1] == (points[|points| - 2], points[|points| - 1])
  {
    var n := |points| / 2;
    assert |points| == 2 * n;
    assert |requests| - 1 == n - 1;
    assert 2 * (n - 1) == |points| - 2;
  }
}
