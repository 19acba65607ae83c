/** The request counters over runs: the limiter's history of one connection is a stretch of a run. */
module WsRequests {
  import opened Common
  import opened WsState
  import opened WsInvariants
  import opened WsRate
  import opened WsRuns

  // ---------- No counter is nil ----------

  /** Under a request limit every entry holds a counter: CheckRequestLimit looks into it unchecked. */
  predicate Counters(cfg: Config, s: State) {
    cfg.maxRequests > 0 ==> forall id :: id in s.requests ==> s.requests[id].Some?
  }

  lemma CountersStep(cfg: Config, s: State, step: Step, now: int)
    requires Counters(cfg, s) && Enabled(cfg, s, step)
    ensures Counters(cfg, Apply(cfg, s, step, now))
  {
  }

  lemma {:induction false} RunCounters(cfg: Config, start: int, es: seq<Event>, ss: seq<State>, n: nat)
    requires IsRun(cfg, start, es, ss) && n <= |es|
    ensures Counters(cfg, ss[n])
  {
    if n > 0 {
      RunCounters(cfg, start, es, ss, n - 1);
      CountersStep(cfg, ss[n - 1], es[n - 1].step, es[n - 1].now);
    }
  }

  // ---------- The limiter along a run ----------

  function CounterOf(s: State, id: ID): Option<ReqCounter> {
    if id in s.requests then s.requests[id] else None
  }

  /** The ID that a live connection has after a step: a reconnect gives it the ID of a tombstone of the same IP. */
  function Renamed(s: State, step: Step, id: ID): ID {
    if step.SReconnect? && step.id == id && id in s.conns && step.prev in s.tombs && s.tombs[step.prev].conn.ip == s.conns[id].ip
    then step.prev else id
  }

  /** The ID in state n of the connection that has the ID `id` in state a. */
  function Named(es: seq<Event>, ss: seq<State>, id: ID, a: nat, n: nat): ID
    requires n <= |es| < |ss|
  {
    if n <= a then id else Renamed(ss[n - 1], es[n - 1].step, Named(es, ss, id, a, n - 1))
  }

  /** When the messages of that connection came, in the part of a run from a up to b. */
  function Times(es: seq<Event>, ss: seq<State>, id: ID, a: nat, b: nat): (ts: seq<int>)
    requires b <= |es| < |ss|
  {
    if b <= a then []
    else Times(es, ss, id, a, b - 1) + if es[b - 1].step == SRequest(Named(es, ss, id, a, b - 1)) then [es[b - 1].now] else []
  }

  lemma OneMessage(cfg: Config, s: State, id: ID, now: int)
    requires id in s.conns && cfg.maxRequests > 0
    ensures CounterOf(Apply(cfg, s, SRequest(id), now), id) == Some(CountRequest(cfg.maxRequests, CounterOf(s, id), now).0)
  {
  }

  /** While the connection is live, its counter goes along with it. */
  lemma OtherSteps(cfg: Config, s: State, step: Step, id: ID, now: int)
    requires Sound(s) && Enabled(cfg, s, step) && step != SRequest(id) && id in s.conns
    requires Renamed(s, step, id) in Apply(cfg, s, step, now).conns
    ensures CounterOf(Apply(cfg, s, step, now), Renamed(s, step, id)) == CounterOf(s, id)
  {
    match step
    case SReconnect(who, prev) => Rekeying(s, who, prev, id, now);
    case SClose(who) => ClosingKeepsCounters(cfg, s, who, id, now);
    case SExpire(who) => ExpiringKeepsCounters(s, who, id, now);
    case SRequest(who) => OthersMessage(cfg, s, who, id, now);
    case _ => QuietStep(cfg, s, step, now);
  }

  lemma QuietStep(cfg: Config, s: State, step: Step, now: int)
    requires Enabled(cfg, s, step) && !step.SReconnect? && !step.SClose? && !step.SExpire? && !step.SRequest?
    ensures Apply(cfg, s, step, now).requests == s.requests
  {
  }

  lemma OthersMessage(cfg: Config, s: State, who: ID, id: ID, now: int)
    requires who in s.conns && who != id
    ensures CounterOf(Request(cfg, s, who, now), id) == CounterOf(s, id)
  {
  }

  lemma Rekeying(s: State, who: ID, prev: ID, id: ID, now: int)
    requires Sound(s) && id in s.conns && who in s.conns
    ensures CounterOf(Reconnect(s, who, prev, now), Renamed(s, SReconnect(who, prev), id)) == CounterOf(s, id)
  {
  }

  lemma ClosingKeepsCounters(cfg: Config, s: State, who: ID, id: ID, now: int)
    requires id in s.conns && who in s.conns && id in Close(cfg, s, who, now).conns
    ensures CounterOf(Close(cfg, s, who, now), id) == CounterOf(s, id)
  {
  }

  lemma ExpiringKeepsCounters(s: State, who: ID, id: ID, now: int)
    requires Sound(s) && id in s.conns && who in s.tombs
    ensures CounterOf(Expire(s, who, now), id) == CounterOf(s, id)
  {
  }

  lemma {:induction false} TimesForward(start: int, es: seq<Event>, ss: seq<State>, id: ID, a: nat, b: nat)
    requires InOrder(start, es) && b <= |es| < |ss|
    ensures Forward(Times(es, ss, id, a, b))
    ensures forall i :: 0 <= i < |Times(es, ss, id, a, b)| ==> Times(es, ss, id, a, b)[i] <= Since(start, es, b)
    decreases b
  {
    if b > a {
      TimesForward(start, es, ss, id, a, b - 1);
      assert Since(start, es, b - 1) <= es[b - 1].now;
    }
  }

  lemma {:induction false} HistoryPrefix(max: nat, ts: seq<int>, more: seq<int>, n: nat)
    requires n <= |ts|
    ensures History(max, ts + more, n) == History(max, ts, n)
    decreases n
  {
    if n > 0 {
      HistoryPrefix(max, ts, more, n - 1);
      assert (ts + more)[n - 1] == ts[n - 1];
    }
  }

  lemma StepHistory(cfg: Config, s: State, step: Step, now: int, id: ID, ts: seq<int>)
    requires cfg.maxRequests > 0 && Sound(s) && Enabled(cfg, s, step) && id in s.conns
    requires Renamed(s, step, id) in Apply(cfg, s, step, now).conns
    requires CounterOf(s, id) == History(cfg.maxRequests, ts, |ts|)
    ensures var more := ts + if step == SRequest(id) then [now] else [];
      CounterOf(Apply(cfg, s, step, now), Renamed(s, step, id)) == History(cfg.maxRequests, more, |more|)
  {
    if step == SRequest(id) {
      OneMessage(cfg, s, id, now);
      HistoryPrefix(cfg.maxRequests, ts, [now], |ts|);
    } else {
      OtherSteps(cfg, s, step, id, now);
      assert ts + [] == ts;
    }
  }

  /** The states follow one another by the steps. */
  predicate Follow(cfg: Config, es: seq<Event>, ss: seq<State>) {
    |ss| == |es| + 1 && forall i :: 0 <= i < |es| ==> Next(cfg, es, ss, i)
  }

  predicate Next(cfg: Config, es: seq<Event>, ss: seq<State>, i: nat) {
    i < |es| && |ss| == |es| + 1
    && Sound(ss[i]) && Enabled(cfg, ss[i], es[i].step) && ss[i + 1] == Apply(cfg, ss[i], es[i].step, es[i].now)
  }

  lemma RunsFollow(cfg: Config, start: int, es: seq<Event>, ss: seq<State>)
    requires IsRun(cfg, start, es, ss)
    ensures Follow(cfg, es, ss)
  {
    forall i | 0 <= i < |es| ensures Next(cfg, es, ss, i) { RunConsistent(cfg, start, es, ss, i); }
  }

  /** From a moment on when the connection has no counter, while it is live, under whatever ID. */
  predicate Counting(cfg: Config, es: seq<Event>, ss: seq<State>, id: ID, a: nat, b: nat) {
    && a <= b <= |es| < |ss| && cfg.maxRequests > 0 && CounterOf(ss[a], id) == None
    && forall i :: a <= i <= b ==> LiveAt(es, ss, id, a, i)
  }

  predicate LiveAt(es: seq<Event>, ss: seq<State>, id: ID, a: nat, i: nat) {
    i <= |es| < |ss| && Named(es, ss, id, a, i) in ss[i].conns
  }

  /** The counter in state b is the limiter's, after the messages since a. */
  predicate Tracked(cfg: Config, es: seq<Event>, ss: seq<State>, id: ID, a: nat, b: nat)
    requires b <= |es| < |ss|
  {
    var ts := Times(es, ss, id, a, b); CounterOf(ss[b], Named(es, ss, id, a, b)) == History(cfg.maxRequests, ts, |ts|)
  }

  lemma {:induction false} RunHistory(cfg: Config, es: seq<Event>, ss: seq<State>, id: ID, a: nat, b: nat)
    requires Follow(cfg, es, ss) && Counting(cfg, es, ss, id, a, b)
    ensures Tracked(cfg, es, ss, id, a, b)
    decreases b
  {
    if b == a {
      TrackedFirst(cfg, es, ss, id, a, b);
    } else {
      CountingLess(cfg, es, ss, id, a, b - 1);
      RunHistory(cfg, es, ss, id, a, b - 1);
      HistoryNext(cfg, es, ss, id, a, b - 1);
    }
  }

  lemma TrackedFirst(cfg: Config, es: seq<Event>, ss: seq<State>, id: ID, a: nat, b: nat)
    requires Counting(cfg, es, ss, id, a, b) && a == b
    ensures Tracked(cfg, es, ss, id, a, b)
  {
  }

  lemma CountingLess(cfg: Config, es: seq<Event>, ss: seq<State>, id: ID, a: nat, b: nat)
    requires a <= b && Counting(cfg, es, ss, id, a, b + 1)
    ensures Counting(cfg, es, ss, id, a, b) && LiveAt(es, ss, id, a, b) && LiveAt(es, ss, id, a, b + 1)
  {
  }

  lemma HistoryNext(cfg: Config, es: seq<Event>, ss: seq<State>, id: ID, a: nat, b: nat)
    requires Follow(cfg, es, ss) && a <= b < |es| && cfg.maxRequests > 0 && Tracked(cfg, es, ss, id, a, b)
    requires LiveAt(es, ss, id, a, b) && LiveAt(es, ss, id, a, b + 1)
    ensures Tracked(cfg, es, ss, id, a, b + 1)
  {
    var e, name, ts := es[b], Named(es, ss, id, a, b), Times(es, ss, id, a, b);
    assert Next(cfg, es, ss, b);
    StepHistory(cfg, ss[b], e.step, e.now, name, ts);
    assert ts + [] == ts;
  }

  /** The limiter lets the message of step n pass. */
  predicate Passes(cfg: Config, es: seq<Event>, ss: seq<State>, id: ID, n: nat)
    requires n < |es| && n < |ss|
  {
    es[n].step == SRequest(id) && CountRequest(cfg.maxRequests, CounterOf(ss[n], id), es[n].now).1
  }

  /** How many messages pass from c up to b, of the connection that has the ID `id` in state a. */
  function Passed(cfg: Config, es: seq<Event>, ss: seq<State>, id: ID, a: nat, c: nat, b: nat): nat
    requires b <= |es| < |ss|
  {
    if b <= c then 0
    else Passed(cfg, es, ss, id, a, c, b - 1) + if Passes(cfg, es, ss, Named(es, ss, id, a, b - 1), b - 1) then 1 else 0
  }

  function AcceptedFrom(max: nat, ts: seq<int>, i: nat): set<nat> {
    set k: nat | i <= k < |ts| && Accepted(max, ts, k)
  }

  lemma AcceptedMore(max: nat, ts: seq<int>, now: int, i: nat)
    requires i <= |ts|
    ensures var more := ts + [now];
      AcceptedFrom(max, more, i) == AcceptedFrom(max, ts, i) + if Accepted(max, more, |ts|) then {|ts|} else {}
  {
    var more := ts + [now];
    forall k: nat | k < |ts| ensures Accepted(max, more, k) == Accepted(max, ts, k) {
      HistoryPrefix(max, ts, [now], k);
    }
  }

  lemma {:induction false} TimesMore(es: seq<Event>, ss: seq<State>, id: ID, a: nat, c: nat, b: nat)
    requires a <= c <= b <= |es| < |ss|
    ensures |Times(es, ss, id, a, c)| <= |Times(es, ss, id, a, b)|
    decreases b
  {
    if b > c { TimesMore(es, ss, id, a, c, b - 1); }
  }

  /** The messages that pass in a run are those that the limiter accepts. */
  lemma {:induction false} PassedAreAccepted(cfg: Config, es: seq<Event>, ss: seq<State>, id: ID, a: nat, c: nat, b: nat)
    requires a <= c <= b <= |es| < |ss| && forall n :: c <= n < b ==> Tracked(cfg, es, ss, id, a, n)
    ensures Passed(cfg, es, ss, id, a, c, b) == |AcceptedFrom(cfg.maxRequests, Times(es, ss, id, a, b), |Times(es, ss, id, a, c)|)|
    decreases b
  {
    var i := |Times(es, ss, id, a, c)|;
    if b == c {
      assert AcceptedFrom(cfg.maxRequests, Times(es, ss, id, a, b), i) == {};
    } else {
      PassedAreAccepted(cfg, es, ss, id, a, c, b - 1);
      TimesMore(es, ss, id, a, c, b - 1);
      var name := Named(es, ss, id, a, b - 1);
      if es[b - 1].step == SRequest(name) {
        assert Tracked(cfg, es, ss, id, a, b - 1);
        OnePasses(cfg, CounterOf(ss[b - 1], name), Times(es, ss, id, a, b - 1), es[b - 1].now, i);
      } else {
        assert Times(es, ss, id, a, b) == Times(es, ss, id, a, b - 1);
      }
    }
  }

  lemma OnePasses(cfg: Config, counter: Option<ReqCounter>, ts: seq<int>, now: int, i: nat)
    requires i <= |ts| && counter == History(cfg.maxRequests, ts, |ts|)
    ensures |AcceptedFrom(cfg.maxRequests, ts + [now], i)|
      == |AcceptedFrom(cfg.maxRequests, ts, i)| + if CountRequest(cfg.maxRequests, counter, now).1 then 1 else 0
  {
    AcceptedMore(cfg.maxRequests, ts, now, i);
    HistoryPrefix(cfg.maxRequests, ts, [now], |ts|);
    assert |ts| !in AcceptedFrom(cfg.maxRequests, ts, i);
  }

  lemma {:induction false} TimesFrom(start: int, es: seq<Event>, ss: seq<State>, id: ID, a: nat, c: nat, b: nat)
    requires InOrder(start, es) && a <= c < b <= |es| < |ss|
    ensures forall i :: |Times(es, ss, id, a, c)| <= i < |Times(es, ss, id, a, b)| ==> es[c].now <= Times(es, ss, id, a, b)[i]
    decreases b
  {
    if b > c + 1 { TimesFrom(start, es, ss, id, a, c, b - 1); }
    TimesGrow(start, es, c + 1, b);
  }

  lemma AllTracked(cfg: Config, start: int, es: seq<Event>, ss: seq<State>, id: ID, a: nat, c: nat, b: nat)
    requires IsRun(cfg, start, es, ss) && Counting(cfg, es, ss, id, a, b) && a <= c < b
    ensures forall n :: c <= n < b ==> Tracked(cfg, es, ss, id, a, n)
  {
    RunsFollow(cfg, start, es, ss);
    forall n | c <= n < b ensures Tracked(cfg, es, ss, id, a, n) {
      assert Counting(cfg, es, ss, id, a, n);
      RunHistory(cfg, es, ss, id, a, n);
    }
  }

  /** In any minute of a run, at most 2 * max - 1 messages of a connection pass, even if it changes its ID meanwhile. */
  lemma RunMinuteBound(cfg: Config, start: int, es: seq<Event>, ss: seq<State>, id: ID, a: nat, c: nat, b: nat)
    requires IsRun(cfg, start, es, ss) && Counting(cfg, es, ss, id, a, b) && a <= c < b && es[b - 1].now - es[c].now <= MINUTE
    ensures Passed(cfg, es, ss, id, a, c, b) <= 2 * cfg.maxRequests - 1
  {
    var ts, i := Times(es, ss, id, a, b), |Times(es, ss, id, a, c)|;
    AllTracked(cfg, start, es, ss, id, a, c, b);
    PassedAreAccepted(cfg, es, ss, id, a, c, b);
    if i < |ts| {
      var j := |ts| - 1;
      TimesForward(start, es, ss, id, a, b);
      TimesFrom(start, es, ss, id, a, c, b);
      MinuteBound(cfg.maxRequests, ts, i, j);
      assert AcceptedFrom(cfg.maxRequests, ts, i) == AcceptedIn(cfg.maxRequests, ts, i, j);
    } else {
      assert AcceptedFrom(cfg.maxRequests, ts, i) == {};
    }
  }
}
