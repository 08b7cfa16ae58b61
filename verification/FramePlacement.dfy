/** Where frames are taken from a video: evenly spaced times, moved away from scene cuts, near-duplicates dropped. */
module FramePlacement {
  import opened Common
  import opened Seqs

  const GAP: real := 2.0
  const APART: real := 1.0

  function Distance(x: real, y: real): real {
    if x < y then y - x else x - y
  }

  // ---------------------------------------------------------------- one time

  /** A cut in the danger window around `ts`, both ends included. */
  predicate Near(ts: real, cuts: seq<real>, gap: real) {
    exists i :: 0 <= i < |cuts| && ts - gap <= cuts[i] <= ts + gap
  }

  /** The last cut at or before `ts`. */
  function CutBefore(ts: real, cuts: seq<real>): (p: Option<real>)
    ensures p.None? ==> forall i :: 0 <= i < |cuts| ==> cuts[i] > ts
    ensures p.Some? ==>
              && p.value in cuts && p.value <= ts
              && forall i :: 0 <= i < |cuts| && cuts[i] <= ts ==> cuts[i] <= p.value
  {
    if cuts == [] then None
    else
      var p := CutBefore(ts, cuts[1..]);
      if cuts[0] <= ts && (p.None? || cuts[0] > p.value) then Some(cuts[0]) else p
  }

  /** The first cut at or after `ts`. */
  function CutAfter(ts: real, cuts: seq<real>): (p: Option<real>)
    ensures p.None? ==> forall i :: 0 <= i < |cuts| ==> cuts[i] < ts
    ensures p.Some? ==>
              && p.value in cuts && p.value >= ts
              && forall i :: 0 <= i < |cuts| && cuts[i] >= ts ==> cuts[i] >= p.value
  {
    if cuts == [] then None
    else
      var p := CutAfter(ts, cuts[1..]);
      if cuts[0] >= ts && (p.None? || cuts[0] < p.value) then Some(cuts[0]) else p
  }

  function Prev(ts: real, cuts: seq<real>): real {
    var p := CutBefore(ts, cuts);
    if p.Some? then p.value else 0.0
  }

  function Next(ts: real, cuts: seq<real>, duration: real): real {
    var p := CutAfter(ts, cuts);
    if p.Some? then p.value else duration
  }

  function Clamped(t: real, duration: real): real {
    var u := if t < duration then t else duration;
    if u > 0.0 then u else 0.0
  }

  function AvoidCuts(ts: real, cuts: seq<real>, duration: real, gap: real): real {
    if cuts == [] || !Near(ts, cuts, gap) then ts
    else
      var prev, next := Prev(ts, cuts), Next(ts, cuts, duration);
      if next - prev > 2.0 * gap then Clamped((prev + next) / 2.0, duration)
      else
        var corrected := prev + gap;
        Clamped(if corrected > next - gap then next - gap else corrected, duration)
  }

  ghost predicate Clear(t: real, cuts: seq<real>, gap: real) {
    forall i :: 0 <= i < |cuts| ==> Distance(t, cuts[i]) > gap
  }

  ghost predicate Within(cuts: seq<real>, duration: real) {
    forall i :: 0 <= i < |cuts| ==> 0.0 <= cuts[i] <= duration
  }

  lemma {:induction false} StaysInVideo(ts: real, cuts: seq<real>, duration: real, gap: real)
    requires 0.0 <= ts <= duration
    ensures 0.0 <= AvoidCuts(ts, cuts, duration, gap) <= duration
    ensures !Near(ts, cuts, gap) ==> AvoidCuts(ts, cuts, duration, gap) == ts
  {
  }

  /** The window between the cuts around the time is wider than two gaps; and where a cut outside the video draws its
      midpoint out as well, the other cut leaves a gap at the end of the video that is taken instead. */
  predicate Room(ts: real, cuts: seq<real>, duration: real, gap: real) {
    var prev, next := Prev(ts, cuts), Next(ts, cuts, duration);
    && next - prev > 2.0 * gap
    && ((prev + next) / 2.0 < 0.0 ==> CutAfter(ts, cuts).None? || next > gap)
    && ((prev + next) / 2.0 > duration ==> CutBefore(ts, cuts).None? || duration - prev > gap)
  }

  /** With all cuts in the video, room is a window wider than two gaps. */
  lemma {:induction false} RoomInVideo(ts: real, cuts: seq<real>, duration: real, gap: real)
    requires 0.0 <= ts <= duration && Within(cuts, duration)
    ensures Room(ts, cuts, duration, gap) <==> Next(ts, cuts, duration) - Prev(ts, cuts) > 2.0 * gap
  {
    WindowEnds(ts, cuts, duration);
  }

  /** The corrected time is farther than the gap from every cut exactly when the time itself was, or there is room
      between the cuts around it. */
  lemma {:induction false} ClearIff(ts: real, cuts: seq<real>, duration: real, gap: real)
    requires 0.0 <= ts <= duration && gap >= 0.0
    ensures Clear(AvoidCuts(ts, cuts, duration, gap), cuts, gap) <==>
            !Near(ts, cuts, gap) || Room(ts, cuts, duration, gap)
  {
    if Near(ts, cuts, gap) {
      if Next(ts, cuts, duration) - Prev(ts, cuts) > 2.0 * gap {
        WideClearIff(ts, cuts, duration, gap);
      } else {
        NarrowNotClear(ts, cuts, duration, gap);
      }
    }
  }

  lemma {:induction false} WindowEnds(ts: real, cuts: seq<real>, duration: real)
    requires 0.0 <= ts <= duration && Within(cuts, duration)
    ensures 0.0 <= Prev(ts, cuts) <= ts <= Next(ts, cuts, duration) <= duration
    ensures forall i :: 0 <= i < |cuts| ==> cuts[i] <= Prev(ts, cuts) || cuts[i] >= Next(ts, cuts, duration)
  {
  }

  /** A time is clear of all cuts exactly when it is clear of the two around the original one, if it lies between
      them. */
  lemma {:induction false} ClearBetween(t: real, ts: real, cuts: seq<real>, gap: real)
    requires gap >= 0.0
    requires CutBefore(ts, cuts).Some? ==> CutBefore(ts, cuts).value <= t
    requires CutAfter(ts, cuts).Some? ==> t <= CutAfter(ts, cuts).value
    ensures Clear(t, cuts, gap) <==>
            && (CutBefore(ts, cuts).Some? ==> t - CutBefore(ts, cuts).value > gap)
            && (CutAfter(ts, cuts).Some? ==> CutAfter(ts, cuts).value - t > gap)
  {
    var p, n := CutBefore(ts, cuts), CutAfter(ts, cuts);
    if Clear(t, cuts, gap) {
      assert p.Some? ==> exists i :: 0 <= i < |cuts| && cuts[i] == p.value;
      assert n.Some? ==> exists i :: 0 <= i < |cuts| && cuts[i] == n.value;
    }
  }

  lemma {:induction false} WideClearIff(ts: real, cuts: seq<real>, duration: real, gap: real)
    requires 0.0 <= ts <= duration && gap >= 0.0
    requires Near(ts, cuts, gap) && Next(ts, cuts, duration) - Prev(ts, cuts) > 2.0 * gap
    ensures Clear(AvoidCuts(ts, cuts, duration, gap), cuts, gap) <==> Room(ts, cuts, duration, gap)
  {
    ClearBetween(AvoidCuts(ts, cuts, duration, gap), ts, cuts, gap);
  }

  /** In a wide window the result is the safest place: any other time in the window is nearer to one of its ends. */
  lemma {:induction false} MidpointIsSafest(ts: real, cuts: seq<real>, duration: real, gap: real, t: real)
    requires 0.0 <= ts <= duration && Within(cuts, duration) && gap >= 0.0
    requires Near(ts, cuts, gap) && Next(ts, cuts, duration) - Prev(ts, cuts) > 2.0 * gap
    requires Prev(ts, cuts) <= t <= Next(ts, cuts, duration) && t != AvoidCuts(ts, cuts, duration, gap)
    ensures var r := AvoidCuts(ts, cuts, duration, gap);
            && Distance(r, Prev(ts, cuts)) == Distance(r, Next(ts, cuts, duration))
            && (Distance(t, Prev(ts, cuts)) < Distance(r, Prev(ts, cuts))
                || Distance(t, Next(ts, cuts, duration)) < Distance(r, Prev(ts, cuts)))
  {
    WindowEnds(ts, cuts, duration);
  }

  /** In a narrow window the shift from the left cut never survives: the result is always counted from the right. */
  lemma {:induction false} NarrowCountsFromRight(ts: real, cuts: seq<real>, duration: real, gap: real)
    requires Near(ts, cuts, gap) && Next(ts, cuts, duration) - Prev(ts, cuts) <= 2.0 * gap
    ensures AvoidCuts(ts, cuts, duration, gap) == Clamped(Next(ts, cuts, duration) - gap, duration)
  {
  }

  /** In a narrow window the result is never clear, wherever the cuts are. */
  lemma {:induction false} NarrowNotClear(ts: real, cuts: seq<real>, duration: real, gap: real)
    requires 0.0 <= ts <= duration && gap >= 0.0
    requires Near(ts, cuts, gap) && Next(ts, cuts, duration) - Prev(ts, cuts) <= 2.0 * gap
    ensures !Clear(AvoidCuts(ts, cuts, duration, gap), cuts, gap)
  {
  }

  /** A cut at the very time is the window's left and right end, so the time stays within the gap of it, however much
      room there is on either side. */
  lemma {:induction false} CutAtTime(ts: real, cuts: seq<real>, duration: real, gap: real)
    requires 0.0 <= ts <= duration && ts in cuts && gap >= 0.0
    ensures AvoidCuts(ts, cuts, duration, gap) == Clamped(ts - gap, duration)
    ensures !Clear(AvoidCuts(ts, cuts, duration, gap), cuts, gap)
  {
  }

  /** Corrected times can change their order, which is why they are sorted afterwards. */
  lemma {:induction false} OrderCanFlip()
    ensures AvoidCuts(11.0, [10.0], 30.0, GAP) > AvoidCuts(13.0, [10.0], 30.0, GAP)
  {
    var cuts := [10.0];
    assert 11.0 - GAP <= cuts[0] <= 11.0 + GAP;
    assert CutBefore(11.0, cuts) == Some(10.0) && CutAfter(11.0, cuts) == None;
    assert !Near(13.0, cuts, GAP);
  }

  // ---------------------------------------------------------------- the candidates

  /** The midpoint of the `i`-th of `count` equal parts of the video. */
  function Midpoint(duration: real, count: int, i: int): real
    requires count > 0
  {
    duration * (i as real + 0.5) / count as real
  }

  function Candidate(duration: real, count: int, cuts: seq<real>, i: int): real
    requires count > 0
  {
    AvoidCuts(Midpoint(duration, count, i), cuts, duration, GAP)
  }

  function Candidates(duration: real, count: int, cuts: seq<real>): seq<real>
    requires count > 0
  {
    seq(count, i requires 0 <= i < count => Candidate(duration, count, cuts, i))
  }

  lemma {:induction false} ScaledAtMost(d: real, x: real, n: real)
    requires d >= 0.0 && 0.0 <= x <= n && n > 0.0
    ensures 0.0 <= d * x / n <= d
  {
    assert 0.0 <= d * x <= d * n;
    assert d * n / n == d;
    DivideOrder(d * x, d * n, n);
    DivideOrder(0.0, d * x, n);
  }

  lemma {:induction false} DivideOrder(x: real, y: real, n: real)
    requires x <= y && n > 0.0
    ensures x / n <= y / n
  {
  }

  lemma {:induction false} MidpointInVideo(duration: real, count: int, i: int)
    requires duration > 0.0 && 0 <= i < count
    ensures 0.0 <= Midpoint(duration, count, i) <= duration
  {
    ScaledAtMost(duration, i as real + 0.5, count as real);
  }

  lemma {:induction false} CandidatesInVideo(duration: real, count: int, cuts: seq<real>)
    requires duration > 0.0 && count > 0
    ensures forall i :: 0 <= i < count ==> 0.0 <= Candidates(duration, count, cuts)[i] <= duration
  {
    forall i | 0 <= i < count ensures 0.0 <= Candidates(duration, count, cuts)[i] <= duration {
      MidpointInVideo(duration, count, i);
      StaysInVideo(Midpoint(duration, count, i), cuts, duration, GAP);
    }
  }

  // ---------------------------------------------------------------- dropping near-duplicates

  ghost predicate Clashes(t: real, kept: seq<real>) {
    exists j :: 0 <= j < |kept| && Distance(t, kept[j]) < APART
  }

  ghost predicate PairwiseApart(ts: seq<real>) {
    forall i, j :: 0 <= i < j < |ts| ==> Distance(ts[i], ts[j]) >= APART
  }

  /** The first-come choice among the first `k` candidates: taken unless too close to one taken before. */
  ghost function Kept(cands: seq<real>, k: nat): (r: seq<real>)
    requires k <= |cands|
    ensures |r| <= k && PairwiseApart(r)
    ensures forall j :: 0 <= j < |r| ==> r[j] in cands[..k]
  {
    if k == 0 then []
    else
      var r := Kept(cands, k - 1);
      TakeNext(cands, k - 1);
      if Clashes(cands[k - 1], r) then r else r + [cands[k - 1]]
  }

  lemma {:induction false} ClashStays(t: real, kept: seq<real>, x: real)
    requires Clashes(t, kept) || Distance(t, x) < APART
    ensures Clashes(t, kept + [x])
  {
    if j :| 0 <= j < |kept| && Distance(t, kept[j]) < APART {
      assert (kept + [x])[j] == kept[j];
    } else {
      assert (kept + [x])[|kept|] == x;
    }
  }

  /** Nothing more could have been kept: every candidate is within a second of a kept one. */
  lemma {:induction false} KeptCovers(cands: seq<real>, k: nat, i: nat)
    requires i < k <= |cands|
    ensures Clashes(cands[i], Kept(cands, k))
  {
    var r := Kept(cands, k - 1);
    if i < k - 1 {
      KeptCovers(cands, k - 1, i);
    }
    if !Clashes(cands[k - 1], r) {
      ClashStays(cands[i], r, cands[k - 1]);
    }
  }

  ghost predicate Ascending(ts: seq<real>) {
    forall i, j :: 0 <= i < j < |ts| ==> ts[i] <= ts[j]
  }

  lemma {:induction false} AscendingCons(h: real, s: seq<real>)
    requires Ascending(s) && forall x :: x in multiset(s) ==> h <= x
    ensures Ascending([h] + s) && multiset([h] + s) == multiset{h} + multiset(s)
  {
    forall i | 0 <= i < |s| ensures h <= s[i] {
      assert s[i] in multiset(s);
    }
  }

  lemma {:induction false} AscendingTail(s: seq<real>)
    requires Ascending(s) && s != []
    ensures Ascending(s[1..]) && multiset(s) == multiset{s[0]} + multiset(s[1..])
    ensures forall x :: x in multiset(s) ==> s[0] <= x
  {
    HeadAndTail(s);
  }

  function Insert(t: real, s: seq<real>): (r: seq<real>)
    requires Ascending(s)
    ensures Ascending(r) && multiset(r) == multiset(s) + multiset{t}
  {
    if s == [] then [t]
    else
      AscendingTail(s);
      if t <= s[0] then
        AscendingCons(t, s);
        [t] + s
      else
        var rest := Insert(t, s[1..]);
        AscendingCons(s[0], rest);
        [s[0]] + rest
  }

  /** Python's `sort`. */
  function Sort(s: seq<real>): (r: seq<real>)
    ensures Ascending(r) && multiset(r) == multiset(s)
  {
    if s == [] then []
    else
      assert s == [s[0]] + s[1..];
      Insert(s[0], Sort(s[1..]))
  }

  // ---------------------------------------------------------------- the whole placement

  /** The times are in order and at least a second apart; they are kept candidates, and every candidate is within a
      second of one. */
  ghost predicate Placed(times: seq<real>, cands: seq<real>) {
    && (forall i, j :: 0 <= i < j < |times| ==> times[j] - times[i] >= APART)
    && |times| == |Kept(cands, |cands|)| && (forall t :: t in times <==> t in Kept(cands, |cands|))
    && (forall i :: 0 <= i < |cands| ==> Clashes(cands[i], times))
  }

  lemma {:induction false} SortedStillApart(kept: seq<real>, times: seq<real>)
    requires PairwiseApart(kept) && Ascending(times) && multiset(times) == multiset(kept)
    ensures forall i, j :: 0 <= i < j < |times| ==> times[j] - times[i] >= APART
  {
    forall i, j | 0 <= i < j < |times| ensures times[j] - times[i] >= APART {
      if times[i] == times[j] {
        TwiceInMultiset(times, i, j);
        OnceWhenApart(kept, times[i]);
      } else {
        assert times[i] in multiset(kept) && times[j] in multiset(kept);
        var a :| 0 <= a < |kept| && kept[a] == times[i];
        var b :| 0 <= b < |kept| && kept[b] == times[j];
        assert a < b || b < a;
      }
    }
  }

  lemma {:induction false} TwiceInMultiset(s: seq<real>, i: nat, j: nat)
    requires i < j < |s| && s[i] == s[j]
    ensures multiset(s)[s[i]] >= 2
  {
    CutAt(s, j);
    assert multiset(s) == multiset(s[..j]) + multiset(s[j..]);
    assert s[i] == s[..j][i] && s[j] == s[j..][0];
    assert s[i] in s[..j] && s[i] in s[j..];
  }

  lemma {:induction false} OnceWhenApart(s: seq<real>, x: real)
    requires PairwiseApart(s)
    ensures multiset(s)[x] <= 1
  {
    if s != [] {
      HeadAndTail(s);
      OnceWhenApart(s[1..], x);
      forall j | 0 <= j < |s| - 1 ensures s[1..][j] != s[0] {
        assert Distance(s[0], s[j + 1]) >= APART;
      }
    }
  }

  lemma {:induction false} SameMembers(a: seq<real>, b: seq<real>)
    requires multiset(a) == multiset(b)
    ensures |a| == |b| && forall x :: x in a <==> x in b
  {
    assert |a| == |multiset(a)| && |b| == |multiset(b)|;
    forall x ensures x in a <==> x in b {
      assert x in a <==> x in multiset(a);
      assert x in b <==> x in multiset(b);
    }
  }

  lemma {:induction false} ClashesAny(t: real, a: seq<real>, b: seq<real>)
    requires Clashes(t, a) && forall x :: x in a <==> x in b
    ensures Clashes(t, b)
  {
    var j :| 0 <= j < |a| && Distance(t, a[j]) < APART;
    assert a[j] in b;
    var k :| 0 <= k < |b| && b[k] == a[j];
  }

  lemma {:induction false} PlacedWhenSorted(kept: seq<real>, cands: seq<real>)
    requires kept == Kept(cands, |cands|)
    ensures Placed(Sort(kept), cands) && |Sort(kept)| == |kept|
  {
    var times := Sort(kept);
    SortedStillApart(kept, times);
    SameMembers(times, kept);
    forall i | 0 <= i < |cands| ensures Clashes(cands[i], times) {
      KeptCovers(cands, |cands|, i);
      ClashesAny(cands[i], kept, times);
    }
  }

  /** There are at most as many times as seconds in the video, and one. */
  lemma {:induction false} CountBound(times: seq<real>, duration: real)
    requires forall i, j :: 0 <= i < j < |times| ==> times[j] - times[i] >= APART
    requires forall i :: 0 <= i < |times| ==> 0.0 <= times[i] <= duration
    ensures times != [] ==> times[|times| - 1] >= (|times| - 1) as real
    ensures duration >= 0.0 ==> |times| <= duration.Floor + 1
  {
    if |times| > 1 {
      var n := |times| - 1;
      CountBound(times[..n], duration);
      assert times[n] - times[n - 1] >= APART;
      assert times[..n][n - 1] == times[n - 1];
    }
  }

  datatype Placement = Placement(times: seq<real>) | InvalidDuration

  method TooClose(t: real, kept: seq<real>) returns (clash: bool)
    ensures clash <==> Clashes(t, kept)
  {
    for j := 0 to |kept|
      invariant forall k :: 0 <= k < j ==> Distance(t, kept[k]) >= APART
    {
      if Distance(t, kept[j]) < APART {
        return true;
      }
    }
    return false;
  }

  /** The loop over the candidates, each corrected and then kept unless it is too close to one kept before. */
  method Corrected(duration: real, count: int, cuts: seq<real>) returns (corrected: seq<real>)
    requires count > 0
    ensures corrected == Kept(Candidates(duration, count, cuts), count)
  {
    corrected := [];
    for i := 0 to count
      invariant corrected == Kept(Candidates(duration, count, cuts), i)
    {
      var t := Candidate(duration, count, cuts, i);
      KeptNext(duration, count, cuts, i);
      var clash := TooClose(t, corrected);
      if !clash {
        corrected := corrected + [t];
      }
    }
  }

  /** The corrected times for a video; none is asked for when `count` is not positive. */
  method Place(duration: real, count: int, cuts: seq<real>) returns (r: Placement)
    ensures r.InvalidDuration? <==> duration <= 0.0
    ensures duration > 0.0 && count <= 0 ==> r.times == []
    ensures duration > 0.0 && count > 0 ==>
              && Placed(r.times, Candidates(duration, count, cuts))
              && 1 <= |r.times| <= count && |r.times| <= duration.Floor + 1
              && forall i :: 0 <= i < |r.times| ==> 0.0 <= r.times[i] <= duration
  {
    if duration <= 0.0 {
      return InvalidDuration;
    }
    if count <= 0 {
      return Placement([]);
    }
    var corrected := Corrected(duration, count, cuts);
    PlacedWhenSorted(corrected, Candidates(duration, count, cuts));
    PlacedBounds(corrected, duration, count, cuts);
    r := Placement(Sort(corrected));
  }

  lemma {:induction false} KeptNext(duration: real, count: int, cuts: seq<real>, i: nat)
    requires 0 <= i < count
    ensures var cands, t := Candidates(duration, count, cuts), Candidate(duration, count, cuts, i);
            Kept(cands, i + 1) == if Clashes(t, Kept(cands, i)) then Kept(cands, i) else Kept(cands, i) + [t]
  {
  }

  lemma {:induction false} PlacedBounds(kept: seq<real>, duration: real, count: int, cuts: seq<real>)
    requires duration > 0.0 && count > 0 && kept == Kept(Candidates(duration, count, cuts), count)
    ensures var times := Sort(kept);
            && 1 <= |times| <= count && |times| <= duration.Floor + 1
            && forall i :: 0 <= i < |times| ==> 0.0 <= times[i] <= duration
  {
    var cands, times := Candidates(duration, count, cuts), Sort(kept);
    PlacedWhenSorted(kept, cands);
    CandidatesInVideo(duration, count, cuts);
    forall i | 0 <= i < |times| ensures 0.0 <= times[i] <= duration {
      assert times[i] in kept;
      assert times[i] in cands[..count];
    }
    CountBound(times, duration);
    assert Clashes(cands[0], times);
  }

  /** Every frame keeps clear of all cuts when each candidate had no cut near or room to move. */
  lemma {:induction false} FramesClear(duration: real, count: int, cuts: seq<real>, times: seq<real>)
    requires duration > 0.0 && count > 0 && Placed(times, Candidates(duration, count, cuts))
    requires forall i :: 0 <= i < count ==>
                           var ts := Midpoint(duration, count, i);
                           !Near(ts, cuts, GAP) || Room(ts, cuts, duration, GAP)
    ensures forall k :: 0 <= k < |times| ==> Clear(times[k], cuts, GAP)
  {
    var cands := Candidates(duration, count, cuts);
    forall k | 0 <= k < |times| ensures Clear(times[k], cuts, GAP) {
      assert times[k] in Kept(cands, |cands|);
      assert times[k] in cands[..count];
      var i :| 0 <= i < count && cands[i] == times[k];
      MidpointInVideo(duration, count, i);
      ClearIff(Midpoint(duration, count, i), cuts, duration, GAP);
    }
  }

  // ---------------------------------------------------------------- a video without cuts

  lemma {:induction false} MidpointsApart(duration: real, count: int, i: int, j: int)
    requires count > 0 && duration > 0.0 && i < j
    ensures duration >= count as real ==> Midpoint(duration, count, j) - Midpoint(duration, count, i) >= 1.0
    ensures Midpoint(duration, count, j) > Midpoint(duration, count, i)
    ensures duration < count as real && j == i + 1 ==> Midpoint(duration, count, j) - Midpoint(duration, count, i) < 1.0
  {
    var step, m := duration / count as real, (j - i) as real;
    StepOrder(duration, count as real);
    MidpointDifference(duration, count, i, j);
    AtLeastOneStep(step, m);
    OneStep(step);
    assert j == i + 1 ==> m == 1.0;
  }

  lemma {:induction false} MidpointDifference(duration: real, count: int, i: int, j: int)
    requires count > 0
    ensures Midpoint(duration, count, j) - Midpoint(duration, count, i) == (duration / count as real) * (j - i) as real
  {
    var step := duration / count as real;
    MidpointIsStep(duration, count, i);
    MidpointIsStep(duration, count, j);
    StepsBetween(step, i as real + 0.5, j as real + 0.5);
    assert (j as real + 0.5) - (i as real + 0.5) == (j - i) as real;
  }

  lemma {:induction false} OneStep(step: real)
    ensures step * 1.0 == step
  {
  }

  lemma {:induction false} StepOrder(duration: real, n: real)
    requires duration > 0.0 && n > 0.0
    ensures var step := duration / n; step > 0.0 && (duration >= n <==> step >= 1.0)
  {
  }

  lemma {:induction false} StepsBetween(step: real, x: real, y: real)
    ensures step * y - step * x == step * (y - x)
  {
  }

  lemma {:induction false} AtLeastOneStep(step: real, m: real)
    requires step > 0.0 && m >= 1.0
    ensures step * m >= step
  {
  }

  lemma {:induction false} MidpointIsStep(duration: real, count: int, i: int)
    requires count > 0
    ensures Midpoint(duration, count, i) == (duration / count as real) * (i as real + 0.5)
  {
  }

  /** The midpoints are spaced evenly over the whole video, with half a step before the first and after the last. */
  lemma {:induction false} EvenlySpaced(duration: real, count: int, i: int)
    requires count > 0 && 0 <= i < count
    ensures var step := duration / count as real;
            && Midpoint(duration, count, 0) == step / 2.0
            && duration - Midpoint(duration, count, count - 1) == step / 2.0
            && Midpoint(duration, count, i + 1) - Midpoint(duration, count, i) == step
  {
    var step, n := duration / count as real, count as real;
    MidpointIsStep(duration, count, 0);
    MidpointIsStep(duration, count, count - 1);
    MidpointIsStep(duration, count, i);
    MidpointIsStep(duration, count, i + 1);
    StepsBetween(step, i as real + 0.5, (i + 1) as real + 0.5);
    StepsBetween(step, n - 0.5, n);
    assert step * n == duration;
  }

  /** Without cuts every midpoint is kept exactly when there is one, or when the parts last a second or more. */
  lemma {:induction false} UniformKeptIff(duration: real, count: int)
    requires duration > 0.0 && count > 0
    ensures |Kept(Candidates(duration, count, []), count)| == count <==> count == 1 || duration >= count as real
  {
    if count > 1 {
      if duration >= count as real {
        AllKept(duration, count, count);
      } else {
        SecondDropped(duration, count, count);
      }
    }
  }

  lemma {:induction false} AllKept(duration: real, count: int, k: nat)
    requires count as real <= duration && 0 < k <= count
    ensures Kept(Candidates(duration, count, []), k) == Candidates(duration, count, [])[..k]
  {
    var cands := Candidates(duration, count, []);
    if k > 1 {
      AllKept(duration, count, k - 1);
      NextApart(duration, count, k - 1);
      TakeNext(cands, k - 1);
    } else {
      TakeNext(cands, 0);
    }
  }

  lemma {:induction false} NextApart(duration: real, count: int, k: nat)
    requires count as real <= duration && 0 < k < count
    ensures var cands := Candidates(duration, count, []); !Clashes(cands[k], cands[..k])
  {
    var cands := Candidates(duration, count, []);
    forall j | 0 <= j < k ensures Distance(cands[k], cands[..k][j]) >= APART {
      MidpointsApart(duration, count, j, k);
      assert cands[..k][j] == cands[j] == Midpoint(duration, count, j);
    }
  }

  lemma {:induction false} SecondDropped(duration: real, count: int, k: nat)
    requires 0.0 < duration < count as real && 1 < k <= count
    ensures |Kept(Candidates(duration, count, []), k)| < k
  {
    var cands := Candidates(duration, count, []);
    if k > 2 {
      SecondDropped(duration, count, k - 1);
    } else {
      MidpointsApart(duration, count, 0, 1);
      assert Kept(cands, 0) == [];
      assert Kept(cands, 1) == [cands[0]];
      assert Distance(cands[1], Kept(cands, 1)[0]) < APART;
    }
  }
}
