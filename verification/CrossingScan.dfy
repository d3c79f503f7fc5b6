/** Send-time gaps across virtual boundaries, found by a nested scan and by one
    pass with an index that never moves back. */
module CrossingScan {
  import opened Basics

  ghost predicate NonDecreasing(ts: seq<int>) {
    forall i, j :: 0 <= i < j < |ts| ==> ts[i] <= ts[j]
  }

  predicate Crosses(ts: seq<int>, i: int, at: int) { 1 <= i < |ts| && ts[i - 1] < at <= ts[i] }

  /** The gap at the first crossing of the boundary from index i on. */
  function FirstGap(ts: seq<int>, at: int, i: int): Option<int>
    requires i >= 1
    decreases |ts| - i
  {
    if i >= |ts| then None
    else if Crosses(ts, i, at) then Some(ts[i] - ts[i - 1])
    else FirstGap(ts, at, i + 1)
  }

  function Listed(gap: Option<int>): seq<int> { if gap.Some? then [gap.value] else [] }

  /** The gaps of all boundaries in turn, each searched from the beginning. */
  function Gaps(ts: seq<int>, boundaries: seq<int>): seq<int> {
    if |boundaries| == 0 then []
    else
      var last := |boundaries| - 1;
      Gaps(ts, boundaries[..last]) + Listed(FirstGap(ts, boundaries[last], 1))
  }

  lemma {:induction false} SkipNonCrossing(ts: seq<int>, at: int, i: int, k: int)
    requires 1 <= i <= k && forall j :: i <= j < k ==> !Crosses(ts, j, at)
    ensures FirstGap(ts, at, i) == FirstGap(ts, at, k)
    decreases k - i
  {
    if i < k {
      SkipNonCrossing(ts, at, i + 1, k);
    }
  }

  /** A boundary has a gap exactly if it lies after the first and not after the
      last packet; for ordered times there is then only one crossing. */
  lemma {:induction false} CrossedExactlyInside(ts: seq<int>, at: int)
    requires NonDecreasing(ts)
    ensures FirstGap(ts, at, 1).Some? <==> |ts| > 0 && ts[0] < at <= ts[|ts| - 1]
    ensures forall i, j :: Crosses(ts, i, at) && Crosses(ts, j, at) ==> i == j
  {
    if |ts| > 0 && ts[0] < at <= ts[|ts| - 1] {
      var i := 1;
      while ts[i] < at
        decreases |ts| - i
        invariant 1 <= i < |ts| && ts[i - 1] < at
        invariant forall j :: 1 <= j < i ==> !Crosses(ts, j, at)
      {
        i := i + 1;
      }
      SkipNonCrossing(ts, at, 1, i);
    } else {
      SkipNonCrossing(ts, at, 1, Max(1, |ts|));
    }
  }

  /** The suite's scan: every boundary restarts at the first pair. */
  method NestedScan(ts: seq<int>, boundaries: seq<int>) returns (gaps: seq<int>)
    ensures gaps == Gaps(ts, boundaries)
  {
    gaps := [];
    for b := 0 to |boundaries|
      invariant gaps == Gaps(ts, boundaries[..b])
    {
      var at := boundaries[b];
      assert boundaries[..b + 1][..b] == boundaries[..b];
      var i, found := 1, false;
      while i < |ts| && !found
        invariant 1 <= i
        invariant found ==> FirstGap(ts, at, 1).Some?
        invariant gaps == Gaps(ts, boundaries[..b]) + if found then Listed(FirstGap(ts, at, 1)) else []
        invariant !found ==> FirstGap(ts, at, 1) == FirstGap(ts, at, i)
        decreases |ts| - i, if found then 0 else 1
      {
        if ts[i] >= at && ts[i - 1] < at {
          gaps := gaps + [ts[i] - ts[i - 1]];
          found := true;
        } else {
          i := i + 1;
        }
      }
    }
    assert boundaries[..|boundaries|] == boundaries;
  }

  /** The analysis's scan: one index for all boundaries. It agrees with the nested
      scan because everything behind the index lies before every later boundary. */
  method OnePassScan(ts: seq<int>, boundaries: seq<int>) returns (gaps: seq<int>)
    requires NonDecreasing(ts) && NonDecreasing(boundaries)
    ensures gaps == Gaps(ts, boundaries)
  {
    gaps := [];
    var index := 1;
    for b := 0 to |boundaries|
      invariant 1 <= index
      invariant gaps == Gaps(ts, boundaries[..b])
      invariant forall j, c :: 1 <= j < index && j < |ts| && b <= c < |boundaries| ==> ts[j] < boundaries[c]
    {
      var at := boundaries[b];
      assert boundaries[..b + 1][..b] == boundaries[..b];
      while index < |ts| && ts[index] < at
        invariant 1 <= index
        invariant forall j :: 1 <= j < index && j < |ts| ==> ts[j] < at
      {
        index := index + 1;
      }
      SkipNonCrossing(ts, at, 1, index);
      if index < |ts| && ts[index - 1] < at {
        gaps := gaps + [ts[index] - ts[index - 1]];
      } else {
        SkipNonCrossing(ts, at, index, Max(index, |ts|));
      }
      assert forall j, c :: 1 <= j < index && j < |ts| && b < c < |boundaries| ==> ts[j] < at <= boundaries[c];
    }
    assert boundaries[..|boundaries|] == boundaries;
  }
}
