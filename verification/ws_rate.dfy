/** What the per-connection request counter guarantees over any sequence of requests whose clock does
    not run backwards. Request i arrives at ts[i]; the counter is neither removed nor re-keyed. */
module WsRate {
  import opened Common
  import opened WsState
  import opened WsAccounting

  predicate Forward(ts: seq<int>) {
    forall i, j :: 0 <= i <= j < |ts| ==> ts[i] <= ts[j]
  }

  function History(max: nat, ts: seq<int>, n: nat): Option<ReqCounter>
    requires n <= |ts|
  {
    if n == 0 then None else Some(CountRequest(max, History(max, ts, n - 1), ts[n - 1]).0)
  }

  predicate Accepted(max: nat, ts: seq<int>, i: nat)
    requires i < |ts|
  {
    CountRequest(max, History(max, ts, i), ts[i]).1
  }

  /** The request that opened the window request i falls into: the first one, or one that comes more
      than a minute after its predecessor's window opened. */
  function Opener(ts: seq<int>, i: nat): (w: nat)
    requires i < |ts|
    ensures w <= i
  {
    if i == 0 then 0
    else
      var w := Opener(ts, i - 1);
      if ts[w] < ts[i] - MINUTE then i else w
  }

  /** A window admits its first max requests and no others. */
  lemma {:induction false} FirstOfWindow(max: nat, ts: seq<int>, i: nat)
    requires i < |ts|
    ensures History(max, ts, i + 1) == Some(ReqCounter(ts[Opener(ts, i)], i - Opener(ts, i) + 1))
    ensures Accepted(max, ts, i) <==> i - Opener(ts, i) < max
  {
    if i > 0 {
      FirstOfWindow(max, ts, i - 1);
    }
  }

  lemma {:induction false} OpenersGrow(ts: seq<int>, i: nat, j: nat)
    requires i <= j < |ts|
    ensures Opener(ts, i) <= Opener(ts, j)
    ensures Opener(ts, j) == Opener(ts, i) || Opener(ts, j) > i
    decreases j
  {
    if i < j {
      OpenersGrow(ts, i, j - 1);
    }
  }

  /** Windows after the first open more than a minute after any earlier opener. */
  lemma {:induction false} OpenersApart(ts: seq<int>, i: nat, j: nat)
    requires Forward(ts) && i <= j < |ts| && Opener(ts, i) != Opener(ts, j)
    ensures ts[Opener(ts, j)] > ts[Opener(ts, i)] + MINUTE
    decreases j
  {
    var w := Opener(ts, j - 1);
    OpenersGrow(ts, i, j - 1);
    if Opener(ts, j) == j {
      assert ts[Opener(ts, i)] <= ts[w];
    } else {
      OpenersApart(ts, i, j - 1);
    }
  }

  function AcceptedIn(max: nat, ts: seq<int>, i: nat, j: nat): set<nat>
    requires i <= j < |ts|
  {
    set m: nat | i <= m <= j && Accepted(max, ts, m)
  }

  function FirstFrom(w: nat, max: nat): (s: set<nat>)
    ensures |s| == max
    ensures forall m :: m in s <==> w <= m < w + max
  {
    if max == 0 then {} else FirstFrom(w, max - 1) + {w + max - 1}
  }

  /** At most max requests are accepted inside one window. */
  lemma WindowBound(max: nat, ts: seq<int>, i: nat, j: nat)
    requires i <= j < |ts| && Opener(ts, i) == Opener(ts, j)
    ensures |AcceptedIn(max, ts, i, j)| <= max
  {
    var first := FirstFrom(Opener(ts, i), max);
    forall m | m in AcceptedIn(max, ts, i, j) ensures m in first {
      FirstOfWindow(max, ts, m);
      OpenersGrow(ts, i, m);
      OpenersGrow(ts, m, j);
    }
    SubsetSize(AcceptedIn(max, ts, i, j), first);
  }

  /** At most 2 * max - 1 requests are accepted in any interval of a minute, both ends included: if the
      interval meets two windows, it misses the opener of the first. */
  lemma MinuteBound(max: nat, ts: seq<int>, i: nat, j: nat)
    requires max > 0 && Forward(ts) && i <= j < |ts| && ts[j] - ts[i] <= MINUTE
    ensures |AcceptedIn(max, ts, i, j)| <= 2 * max - 1
  {
    if Opener(ts, i) == Opener(ts, j) {
      WindowBound(max, ts, i, j);
    } else {
      OpenersApart(ts, i, j);
      var first, last := FirstFrom(Opener(ts, i), max), FirstFrom(Opener(ts, j), max);
      forall m | m in AcceptedIn(max, ts, i, j) ensures m in (first - {Opener(ts, i)}) + last {
        FirstOfWindow(max, ts, m);
        OpenersGrow(ts, i, m);
        OpenersGrow(ts, m, j);
        if Opener(ts, m) != Opener(ts, i) && Opener(ts, m) != Opener(ts, j) {
          OpenersApart(ts, m, j);
        }
      }
      SubsetSize(AcceptedIn(max, ts, i, j), (first - {Opener(ts, i)}) + last);
    }
  }

  /** A window's opener, the rest of the window just before it closes, and a full window right after. */
  function Burst(max: nat): seq<int> {
    seq(2 * max, i => if i == 0 then 0 else if i < max then MINUTE else MINUTE + 1)
  }

  lemma {:induction false} BurstOpener(max: nat, i: nat)
    requires i < 2 * max
    ensures Opener(Burst(max), i) == if i < max then 0 else max
  {
    if i > 0 {
      BurstOpener(max, i - 1);
    }
  }

  /** The bound is reached, whatever the limit. */
  lemma MinuteBoundIsTight(max: nat)
    requires max > 0
    ensures var ts := Burst(max);
      Forward(ts) && ts[2 * max - 1] - ts[1] <= MINUTE && |AcceptedIn(max, ts, 1, 2 * max - 1)| == 2 * max - 1
  {
    var ts, full := Burst(max), FirstFrom(1, 2 * max - 1);
    forall i | i in full ensures Accepted(max, ts, i) {
      FirstOfWindow(max, ts, i);
      BurstOpener(max, i);
    }
    assert AcceptedIn(max, ts, 1, 2 * max - 1) == full;
  }
}
