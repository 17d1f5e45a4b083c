/**
  The part of a list that lies after a cutoff, as time.After and `t > cutoff` select it.  `time` says
  when an item of the list was.
 */
module SlidingWindow {

  /** The items after the cutoff, in order. */
  function Select<T>(xs: seq<T>, time: T -> int, cutoff: int): (r: seq<T>)
    ensures |r| <= |xs|
  {
    if xs == [] then []
    else
      var n := |xs| - 1;
      Select(xs[..n], time, cutoff) + if time(xs[n]) > cutoff then [xs[n]] else []
  }

  const ITSELF: int -> int := t => t

  /** The times after the cutoff. */
  function Since(ts: seq<int>, cutoff: int): seq<int> {
    Select(ts, ITSELF, cutoff)
  }

  lemma {:induction false} SelectAppend<T>(xs: seq<T>, time: T -> int, x: T, cutoff: int)
    ensures Select(xs + [x], time, cutoff) == Select(xs, time, cutoff) + if time(x) > cutoff then [x] else []
  {
    assert (xs + [x])[..|xs|] == xs;
  }

  /** Two cutoffs select like the later of the two. */
  lemma {:induction false} SelectTwice<T>(xs: seq<T>, time: T -> int, a: int, b: int)
    ensures Select(Select(xs, time, a), time, b) == Select(xs, time, if a < b then b else a)
  {
    if xs != [] {
      var n := |xs| - 1;
      SelectTwice(xs[..n], time, a, b);
      if time(xs[n]) > a {
        SelectAppend(Select(xs[..n], time, a), time, xs[n], b);
      } else {
        assert Select(xs, time, a) == Select(xs[..n], time, a);
      }
    }
  }

  /** A later cutoff selects fewer items, unless every item after the early one is after the late one. */
  lemma {:induction false} SelectLater<T>(xs: seq<T>, time: T -> int, early: int, late: int)
    requires early <= late
    ensures |Select(xs, time, late)| <= |Select(xs, time, early)|
    ensures |Select(xs, time, late)| == |Select(xs, time, early)| <==>
            forall i | 0 <= i < |xs| && time(xs[i]) > early :: time(xs[i]) > late
    ensures |Select(xs, time, late)| == |Select(xs, time, early)| ==>
              Select(xs, time, late) == Select(xs, time, early)
  {
    if xs != [] {
      var n := |xs| - 1;
      SelectLater(xs[..n], time, early, late);
      assert forall i | 0 <= i < n :: xs[..n][i] == xs[i];
    }
  }
}
