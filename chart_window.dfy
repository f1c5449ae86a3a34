/** The chart's rolling window: one label array and four data arrays, each grown by `push`
    and trimmed by `shift` to the newest 20 points (app.js:120-125, 185-191). */
module ChartWindow {

  const Capacity := 20

  /** One `push` followed by a `shift` when the array has grown past the window. */
  function Slide<T>(s: seq<T>, x: T): (r: seq<T>)
    ensures |r| == if |s| < Capacity then |s| + 1 else |s|
    ensures r[|r| - 1] == x
    ensures r[..|r| - 1] == s[|s| + 1 - |r|..]
  {
    var pushed := s + [x];
    if |pushed| > Capacity then pushed[1..] else pushed
  }

  /** Several pushes in a row. */
  function SlideAll<T>(s: seq<T>, xs: seq<T>): (r: seq<T>)
    ensures |s| <= Capacity ==> |r| == if |s| + |xs| <= Capacity then |s| + |xs| else Capacity
    ensures xs != [] ==> |r| >= 1 && r[|r| - 1] == xs[|xs| - 1]
    decreases |xs|
  {
    if xs == [] then s else SlideAll(Slide(s, xs[0]), xs[1..])
  }

  /** The newest n elements (all of them when there are fewer). */
  function Newest<T>(s: seq<T>, n: nat): (r: seq<T>)
    ensures |r| == if |s| <= n then |s| else n
  {
    if |s| <= n then s else s[|s| - n..]
  }

  /** A window that holds at least the newest n elements of a sequence sees, after any further
      pushes, the same newest n elements as the whole sequence does. */
  lemma NewestOfTail<T>(whole: seq<T>, tail: seq<T>, more: seq<T>, n: nat)
    requires |tail| <= |whole| && tail == whole[|whole| - |tail|..]
    requires |tail| >= n || tail == whole
    ensures Newest(tail + more, n) == Newest(whole + more, n)
  {
    if tail != whole {
      var a, b := tail + more, whole + more;
      var shift := |b| - |a|;
      assert Newest(a, n) == a[|a| - n..] && Newest(b, n) == b[|b| - n..];
      forall j | |a| - n <= j < |a|
        ensures a[j] == b[j + shift]
      {
        if j < |tail| {
          assert a[j] == tail[j] == whole[j + shift];
        }
      }
    }
  }

  /** However many points are pushed, the window holds exactly the newest 20 of all the points
      ever pushed: the front is dropped only once there are more than 20, and never otherwise. */
  lemma {:induction false} SlideAllKeepsNewest<T>(s: seq<T>, xs: seq<T>)
    requires |s| <= Capacity
    ensures SlideAll(s, xs) == Newest(s + xs, Capacity)
    decreases |xs|
  {
    if xs == [] {
      assert s + xs == s;
    } else {
      var s' := Slide(s, xs[0]);
      SlideAllKeepsNewest(s', xs[1..]);
      assert s + xs == (s + [xs[0]]) + xs[1..];
      NewestOfTail(s + [xs[0]], s', xs[1..], Capacity);
    }
  }

  /** Arrays fed the same number of points stay equally long, and never longer than 20. */
  lemma Lockstep<T, U>(a: seq<T>, b: seq<U>, xs: seq<T>, ys: seq<U>)
    requires |a| == |b| <= Capacity && |xs| == |ys|
    ensures |SlideAll(a, xs)| == |SlideAll(b, ys)| <= Capacity
  {
    SlideAllKeepsNewest(a, xs);
    SlideAllKeepsNewest(b, ys);
  }

  /** The label array and the four data arrays handed to the chart. */
  class Chart {
    var labels: seq<string>
    var datasets: seq<seq<real>>

    /** All five arrays are equally long and hold at most 20 points. */
    ghost predicate Valid()
      reads this
    {
      |labels| <= Capacity && |datasets| == 4 &&
      forall k :: 0 <= k < |datasets| ==> |datasets[k]| == |labels|
    }

    constructor ()
      ensures Valid() && labels == [] && datasets == [[], [], [], []]
    {
      labels := [];
      datasets := [[], [], [], []];
    }

    /** Add one labelled point per channel, trimming each array to the window. */
    method Append(timeLabel: string, points: seq<real>)
      requires Valid() && |points| == |datasets|
      modifies this
      ensures Valid()
      ensures labels == Slide(old(labels), timeLabel)
      ensures |datasets| == |old(datasets)|
      ensures forall k :: 0 <= k < |datasets| ==> datasets[k] == Slide(old(datasets)[k], points[k])
    {
      labels := labels + [timeLabel];
      if |labels| > Capacity {
        labels := labels[1..];
      }
      var idx := 0;
      while idx < |datasets|
        invariant 0 <= idx <= |datasets| == |old(datasets)|
        invariant labels == Slide(old(labels), timeLabel)
        invariant forall k :: 0 <= k < idx ==> datasets[k] == Slide(old(datasets)[k], points[k])
        invariant forall k :: idx <= k < |datasets| ==> datasets[k] == old(datasets)[k]
      {
        var series := datasets[idx] + [points[idx]];
        if |series| > Capacity {
          series := series[1..];
        }
        datasets := datasets[idx := series];
        idx := idx + 1;
      }
    }
  }
}
