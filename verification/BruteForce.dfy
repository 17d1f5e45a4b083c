/**
  The failed-login tracker of gateway-go/internal/anomaly/bruteforce.go.

  A key's failures are a slice that RecordFailure compacts over its own backing array.  The class
  is proved against `Pruned`, and `PrunedIsWindow` says when the pruned slice is the full history
  since the last reset, cut to the window: always, with a clock that does not step back.
 */
module BruteForce {
  import opened Identifiers
  import opened SlidingWindow

  /** What happened to one key: a failure at a time, or a reset. */
  datatype Mark = FailedAt(at: int) | Cleared

  /** What the tracker keeps for a key. */
  function Pruned(window: int, ms: seq<Mark>): seq<int> {
    if ms == [] then []
    else
      var n := |ms| - 1;
      match ms[n]
      case Cleared => []
      case FailedAt(at) => Since(Pruned(window, ms[..n]), at - window) + [at]
  }

  /** Every failure since the last reset. */
  function Failures(ms: seq<Mark>): seq<int> {
    if ms == [] then []
    else
      var n := |ms| - 1;
      match ms[n]
      case Cleared => []
      case FailedAt(at) => Failures(ms[..n]) + [at]
  }

  ghost predicate Nondecreasing(ms: seq<Mark>) {
    forall i, j | 0 <= i < j < |ms| && ms[i].FailedAt? && ms[j].FailedAt? :: ms[i].at <= ms[j].at
  }

  /**
    Every failure later than the cutoff was still within the window at each failure after it; so no
    clock reading in between ran ahead of it by a whole window.
   */
  ghost predicate NeverOutOfWindow(fs: seq<int>, window: int, cutoff: int) {
    forall i, j | 0 <= i < j < |fs| && fs[i] > cutoff :: fs[i] > fs[j] - window
  }

  lemma NeverOutStep(fs: seq<int>, at: int, window: int, cutoff: int)
    ensures var late := if at - window < cutoff then cutoff else at - window;
            NeverOutOfWindow(fs + [at], window, cutoff) <==>
            && NeverOutOfWindow(fs, window, late)
            && forall i | 0 <= i < |fs| && fs[i] > cutoff :: fs[i] > late
  {
    var all := fs + [at];
    assert all[|fs|] == at && forall i | 0 <= i < |fs| :: all[i] == fs[i];
    if NeverOutOfWindow(all, window, cutoff) {
      forall i | 0 <= i < |fs| && fs[i] > cutoff ensures fs[i] > at - window {
        assert all[i] > all[|fs|] - window;
      }
    }
  }

  /** `kept` shows no more than `all`, and the same exactly if `exact`. */
  ghost predicate Shows(kept: seq<int>, all: seq<int>, exact: bool) {
    |kept| <= |all| && (|kept| == |all| <==> exact) && (exact <==> kept == all)
  }

  lemma ShowsBoth(kept: seq<int>, some: seq<int>, all: seq<int>, last: seq<int>, first: bool, second: bool)
    requires Shows(kept, some, first) && Shows(some, all, second)
    ensures Shows(kept + last, all + last, first && second)
  {
    var k, n := kept + last, all + last;
    if k == n {
      assert k[..|kept|] == kept && n[..|all|] == all;
    }
  }

  /** One more failure, on the slice before it and the history before it. */
  lemma ShowsStep(kept: seq<int>, all: seq<int>, window: int, at: int, cutoff: int)
    requires var late := if at - window < cutoff then cutoff else at - window;
             Shows(Since(kept, late), Since(all, late), NeverOutOfWindow(all, window, late))
    ensures Shows(Since(Since(kept, at - window) + [at], cutoff), Since(all + [at], cutoff),
                  NeverOutOfWindow(all + [at], window, cutoff))
  {
    hide Select, NeverOutOfWindow;
    var late := if at - window < cutoff then cutoff else at - window;
    var never := forall i | 0 <= i < |all| && all[i] > cutoff :: all[i] > late;
    SelectLater(all, ITSELF, cutoff, late);
    assert Shows(Since(all, late), Since(all, cutoff), never);
    NeverOutStep(all, at, window, cutoff);
    SelectAppend(Since(kept, at - window), ITSELF, at, cutoff);
    SelectAppend(all, ITSELF, at, cutoff);
    SelectTwice(kept, ITSELF, at - window, cutoff);
    hide Shows;
    ShowsBoth(Since(kept, late), Since(all, late), Since(all, cutoff), if at > cutoff then [at] else [],
              NeverOutOfWindow(all, window, late), never);
  }

  lemma {:induction false} NothingToShow(window: int, cutoff: int)
    ensures Shows(Since([], cutoff), Since([], cutoff), NeverOutOfWindow([], window, cutoff))
  {
  }

  /**
    Seen from any cutoff, the pruned slice never shows more than the full history, and shows the
    same exactly if no failure it should show was ever out of the window.
   */
  lemma {:induction false} PrunedSeenFrom(window: int, ms: seq<Mark>, cutoff: int)
    ensures Shows(Since(Pruned(window, ms), cutoff), Since(Failures(ms), cutoff),
                  NeverOutOfWindow(Failures(ms), window, cutoff))
  {
    NothingToShow(window, cutoff);
    hide Select, NeverOutOfWindow, Shows;
    if ms != [] && ms[|ms| - 1].FailedAt? {
      var p, at := ms[..|ms| - 1], ms[|ms| - 1].at;
      PrunedSeenFrom(window, p, if at - window < cutoff then cutoff else at - window);
      ShowsStep(Pruned(window, p), Failures(p), window, at, cutoff);
    }
  }

  lemma LastIsKept(kept: seq<int>, window: int, at: int)
    requires window > 0
    ensures Since(Since(kept, at - window) + [at], at - window) == Since(kept, at - window) + [at]
  {
    hide Select;
    SelectAppend(Since(kept, at - window), ITSELF, at, at - window);
    SelectTwice(kept, ITSELF, at - window, at - window);
  }

  /**
    Just after a failure the pruned slice never holds more than the full history since the last
    reset cut to the window, and is that exactly if no failure of the window was ever out of it.
   */
  lemma {:induction false} PrunedIsWindow(window: int, ms: seq<Mark>)
    requires window > 0 && ms != [] && ms[|ms| - 1].FailedAt?
    ensures var cutoff := ms[|ms| - 1].at - window;
            Shows(Pruned(window, ms), Since(Failures(ms), cutoff), NeverOutOfWindow(Failures(ms), window, cutoff))
  {
    hide Select, NeverOutOfWindow, Shows;
    var p, at := ms[..|ms| - 1], ms[|ms| - 1].at;
    PrunedSeenFrom(window, ms, at - window);
    LastIsKept(Pruned(window, p), window, at);
  }

  /** The clock readings of the failures do not step back, and none is after `now`. */
  ghost predicate Until(ms: seq<Mark>, now: int) {
    Nondecreasing(ms) && forall i | 0 <= i < |ms| && ms[i].FailedAt? :: ms[i].at <= now
  }

  ghost predicate InOrder(ts: seq<int>, now: int) {
    (forall i, j | 0 <= i < j < |ts| :: ts[i] <= ts[j]) && forall i | 0 <= i < |ts| :: ts[i] <= now
  }

  lemma {:induction false} FailuresInOrder(ms: seq<Mark>, now: int)
    requires Until(ms, now)
    ensures InOrder(Failures(ms), now)
  {
    if ms != [] && ms[|ms| - 1].FailedAt? {
      var n := |ms| - 1;
      var p, at := ms[..n], ms[n].at;
      assert forall i | 0 <= i < n :: p[i] == ms[i];
      assert forall i | 0 <= i < n && p[i].FailedAt? :: ms[i].at <= ms[n].at;
      FailuresInOrder(p, at);
      assert Failures(ms) == Failures(p) + [at];
    }
  }

  /** With a clock that does not step back, as the gateway's own, that is always so. */
  lemma {:induction false} SteadyClockLosesNothing(window: int, ms: seq<Mark>)
    requires window > 0 && Nondecreasing(ms) && ms != [] && ms[|ms| - 1].FailedAt?
    ensures Pruned(window, ms) == Since(Failures(ms), ms[|ms| - 1].at - window)
    ensures NeverOutOfWindow(Failures(ms), window, ms[|ms| - 1].at - window)
  {
    var at := ms[|ms| - 1].at;
    assert Until(ms, at);
    FailuresInOrder(ms, at);
    hide Select, Pruned, Failures;
    PrunedIsWindow(window, ms);
  }

  lemma {:induction false} SinceThree(x: int, y: int, z: int, cutoff: int)
    ensures Since([x, y, z], cutoff) ==
            (if x > cutoff then [x] else []) + (if y > cutoff then [y] else []) + if z > cutoff then [z] else []
  {
    assert [x, y, z][..2] == [x, y] && [x, y][..1] == [x] && [x][..0] == [];
    assert Since([x], cutoff) == if x > cutoff then [x] else [];
    assert Since([x, y], cutoff) == Since([x], cutoff) + if y > cutoff then [y] else [];
  }

  lemma {:induction false} PrunedThree(window: int, x: int, y: int, z: int)
    ensures var ms := [FailedAt(x), FailedAt(y), FailedAt(z)];
            Failures(ms) == [x, y, z] && Pruned(window, ms) == Since(Since([x], y - window) + [y], z - window) + [z]
  {
    var ms := [FailedAt(x), FailedAt(y), FailedAt(z)];
    assert ms[..2] == [FailedAt(x), FailedAt(y)] && [FailedAt(x), FailedAt(y)][..1] == [FailedAt(x)];
    assert [FailedAt(x)][..0] == [];
    assert Pruned(window, [FailedAt(x)]) == [x] && Failures([FailedAt(x)]) == [x];
    assert Failures([FailedAt(x), FailedAt(y)]) == [x] + [y];
  }

  /** A clock that runs ahead and steps back loses failures for good: two are counted where the window has three. */
  lemma {:induction false} BackwardClockLoses(window: int, at: int, ahead: int, now: int)
    requires window > 0 && at <= ahead - window && at > now - window
    ensures var ms := [FailedAt(at), FailedAt(ahead), FailedAt(now)];
            Pruned(window, ms) == [ahead, now] && Since(Failures(ms), now - window) == [at, ahead, now]
  {
    PrunedThree(window, at, ahead, now);
    SinceThree(at, ahead, now, now - window);
    assert Since([at], ahead - window) == [] by { assert [at][..0] == []; }
    assert Since([ahead], now - window) == [ahead] by { assert [ahead][..0] == []; }
    assert [] + [ahead] == [ahead];
    assert Pruned(window, [FailedAt(at), FailedAt(ahead), FailedAt(now)]) == [ahead] + [now];
  }

  // ---------------------------------------------------------------- the tracker

  /** A slice: the first `len` cells of a backing array. */
  datatype Slice = Slice(buf: array<int>, len: nat)

  /** Keeps the late times, writing them over the front of the array that is being read. */
  method CompactInPlace(buf: array<int>, len: nat, cutoff: int) returns (kept: nat)
    requires len <= buf.Length
    modifies buf
    ensures kept <= len && buf[..kept] == Since(old(buf[..len]), cutoff)
  {
    kept := 0;
    for i := 0 to len
      invariant kept <= i
      invariant buf[..kept] == Since(old(buf[..i]), cutoff)
      invariant forall j | i <= j < len :: buf[j] == old(buf[j])
    {
      assert old(buf[..i + 1]) == old(buf[..i]) + [old(buf[i])];
      SelectAppend(old(buf[..i]), ITSELF, buf[i], cutoff);
      var t := buf[i];
      if t > cutoff {
        buf[kept] := t;
        kept := kept + 1;
        assert buf[..kept] == buf[..kept - 1] + [t];
      }
    }
  }

  /** append(slice, t): in place while there is room, else into a larger array. */
  method AppendTo(s: Slice, t: int) returns (r: Slice)
    requires s.len <= s.buf.Length
    modifies s.buf
    ensures r.len == s.len + 1 <= r.buf.Length
    ensures r.buf == s.buf || fresh(r.buf)
    ensures r.buf[..r.len] == old(s.buf[..s.len]) + [t]
  {
    if s.len < s.buf.Length {
      s.buf[s.len] := t;
      assert s.buf[..s.len + 1] == old(s.buf[..s.len]) + [t];
      r := Slice(s.buf, s.len + 1);
    } else {
      var grown := new int[2 * s.len + 1](_ => 0);
      for i := 0 to s.len
        invariant grown[..i] == s.buf[..i]
        modifies grown
      {
        grown[i] := s.buf[i];
        assert grown[..i + 1] == grown[..i] + [s.buf[i]];
      }
      grown[s.len] := t;
      assert grown[..s.len + 1] == grown[..s.len] + [t];
      r := Slice(grown, s.len + 1);
    }
  }

  class BruteForceTracker {
    const window: int
    const threshold: int
    var events: map<Id, Slice>

    /** The backing arrays in use. */
    ghost function Buffers(): set<array<int>>
      reads this
    {
      set k | k in events :: events[k].buf
    }

    /** Slices fit their arrays, and no two keys share one. */
    ghost predicate Valid()
      reads this
    {
      && (forall k | k in events :: events[k].len <= events[k].buf.Length)
      && (forall j, k | j in events && k in events && j != k :: events[j].buf != events[k].buf)
    }

    /** The failures kept for a key; none for an unknown key. */
    ghost function Kept(key: Id): seq<int>
      requires Valid()
      reads this, Buffers()
    {
      if key in events then events[key].buf[..events[key].len] else []
    }

    constructor (window: int, threshold: int)
      ensures Valid() && events == map[]
      ensures this.window == window && this.threshold == threshold
    {
      this.window, this.threshold, events := window, threshold, map[];
    }

    /** The key's slice, compacted in place and extended by `now`; no other key's slice is touched. */
    method Extended(key: Id, now: int) returns (s: Slice)
      requires Valid()
      modifies if key in events then {events[key].buf} else {}
      ensures s.len <= s.buf.Length && s.buf[..s.len] == Since(old(Kept(key)), now - window) + [now]
      ensures forall k | k in events && k != key :: events[k].buf != s.buf
      ensures fresh({s.buf} - Buffers())
    {
      if key in events {
        var n := CompactInPlace(events[key].buf, events[key].len, now - window);
        s := AppendTo(Slice(events[key].buf, n), now);
      } else {
        var empty := new int[0];
        s := AppendTo(Slice(empty, 0), now);
      }
    }

    method RecordFailure(key: Id, now: int) returns (triggered: bool, count: nat)
      requires Valid()
      modifies this, if key in events then {events[key].buf} else {}
      ensures Valid() && fresh(Buffers() - old(Buffers()))
      ensures Kept(key) == Since(old(Kept(key)), now - window) + [now]
      ensures forall k | k != key :: Kept(k) == old(Kept(k))
      ensures count == |Kept(key)| && (triggered <==> count >= threshold)
    {
      var kept := Extended(key, now);
      events := events[key := kept];
      return kept.len >= threshold, kept.len;
    }

    method Reset(key: Id)
      requires Valid()
      modifies this
      ensures Valid() && Buffers() <= old(Buffers())
      ensures Kept(key) == []
      ensures forall k | k != key :: Kept(k) == old(Kept(k))
    {
      events := events - {key};
    }
  }
}
