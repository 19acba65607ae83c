/** The quota of channels in a run: what a connection's count says, and when its next channel is allowed. */
module WsQuota {
  import opened Common
  import opened WsState
  import opened WsInvariants
  import opened WsAccounting
  import opened WsRuns

  predicate Known(s: State, id: ID) {
    id in s.conns || id in s.tombs
  }

  /** The count that a connection carries, or its tombstone. */
  function CountOf(s: State, id: ID): nat
    requires Known(s, id)
  {
    if id in s.conns then s.conns[id].created else s.tombs[id].created
  }

  /** The channels of id that are closed in a step while it has only a tombstone: it does not get them back. */
  function LostBetween(s: State, t: State, id: ID): set<Key> {
    if id in s.conns then {} else CreatedBy(s, id) - CreatedBy(t, id)
  }

  /** The count goes up and down with the number of open channels. */
  predicate Follows(s: State, t: State, id: ID)
    requires Known(s, id) && Known(t, id)
  {
    CountOf(t, id) + |CreatedBy(s, id)| == CountOf(s, id) + |CreatedBy(t, id)| + |LostBetween(s, t, id)|
  }

  predicate SameCount(s: State, t: State, id: ID)
    requires Known(s, id) && Known(t, id)
  {
    CountOf(s, id) == CountOf(t, id) && CreatedBy(s, id) == CreatedBy(t, id)
  }

  lemma FollowsSame(s: State, t: State, id: ID)
    requires Known(s, id) && Known(t, id) && SameCount(s, t, id)
    ensures Follows(s, t, id)
  {
    assert LostBetween(s, t, id) == {};
  }

  // ---------- One step ----------

  /** Closing a channel takes one from the count of its creator if that is live, and changes no other count. */
  lemma ClosingCounts(cfg: Config, s: State, key: Key, id: ID)
    requires Covered(cfg, s) && key in s.chans && Known(s, id) && id != ""
    ensures var t := CloseChannel(s, key);
      && Known(t, id) && (id in t.conns <==> id in s.conns) && CreatedBy(t, id) == CreatedBy(s, id) - {key}
      && CountOf(t, id) == CountOf(s, id) - if s.chans[key].creator == id && id in s.conns then 1 else 0
  {
    if s.chans[key].creator == id && id in s.conns {
      assert key in CreatedBy(s, id);
      SubsetSize({key}, CreatedBy(s, id));
    }
  }

  lemma FollowsClosing(cfg: Config, s: State, key: Key, id: ID)
    requires Covered(cfg, s) && Known(s, id) && id != ""
    ensures Known(CloseChannel(s, key), id) && Follows(s, CloseChannel(s, key), id)
  {
    if key in s.chans {
      var t := CloseChannel(s, key);
      ClosingCounts(cfg, s, key, id);
      if s.chans[key].creator == id {
        assert LostBetween(s, t, id) == if id in s.conns then {} else {key};
      } else {
        assert CreatedBy(s, id) - {key} == CreatedBy(s, id);
        FollowsSame(s, t, id);
      }
    } else {
      FollowsSame(s, s, id);
    }
  }

  lemma FollowsLeave(cfg: Config, s: State, who: ID, key: Key, now: int, id: ID)
    requires Sound(s) && Covered(cfg, s) && who in s.conns && Known(s, id) && id != ""
    ensures Known(Leave(s, who, key, now), id) && Follows(s, Leave(s, who, key, now), id)
  {
    FollowsSame(s, s, id);
    if key in s.chans && who in s.chans[key].members {
      LeftCounts(cfg, s, who, key, now, id);
      var left := Left(s, who, key, now);
      FollowsClosing(cfg, left, key, id);
      FollowsSame(s, left, id);
      assert LostBetween(left, CloseChannel(left, key), id) == LostBetween(s, CloseChannel(left, key), id);
    }
  }

  lemma LeftCounts(cfg: Config, s: State, who: ID, key: Key, now: int, id: ID)
    requires Covered(cfg, s) && who in s.conns && key in s.chans && Known(s, id)
    ensures var left := Left(s, who, key, now);
      Known(left, id) && SameCount(s, left, id) && (id in left.conns <==> id in s.conns) && Covered(cfg, left)
  {
    CoveredShrink(cfg, s, Left(s, who, key, now));
  }

  lemma FollowsCreate(cfg: Config, s: State, creator: Option<ID>, key: Key, proprietary: bool, valid: bool, now: int, id: ID)
    requires Sound(s) && (creator.Some? ==> creator.value in s.conns) && Known(s, id)
    ensures var t := CreateChannel(cfg, s, creator, key, proprietary, valid, now);
      Known(t, id) && (id in t.conns <==> id in s.conns) && Follows(s, t, id) && (id !in s.conns ==> CreatedBy(t, id) == CreatedBy(s, id))
  {
    var t := CreateChannel(cfg, s, creator, key, proprietary, valid, now);
    FollowsSame(s, s, id);
    if CreateAllowed(cfg, s, creator, key, valid) {
      CreatedByAfterCreate(s, t, key, if creator.Some? then creator.value else "", id);
      if id !in s.conns { assert CreatedBy(t, id) == CreatedBy(s, id); }
      assert LostBetween(s, t, id) == {};
    }
  }

  lemma EnterCounts(s: State, who: ID, key: Key, allowed: bool, now: int, id: ID)
    requires who in s.conns && Known(s, id)
    ensures var t := Enter(s, who, key, allowed, now); Known(t, id) && SameCount(s, t, id) && (id in t.conns <==> id in s.conns)
  {
  }

  lemma CloseCounts(cfg: Config, s: State, who: ID, now: int, id: ID)
    requires Sound(s) && who in s.conns && Known(s, id) && Known(Close(cfg, s, who, now), id)
    ensures SameCount(s, Close(cfg, s, who, now), id)
  {
  }

  lemma ExpireCounts(s: State, who: ID, now: int, id: ID)
    requires Sound(s) && who in s.tombs && Known(s, id) && Known(Expire(s, who, now), id)
    ensures SameCount(s, Expire(s, who, now), id)
  {
  }

  lemma ReconnectCounts(s: State, who: ID, prev: ID, now: int, id: ID)
    requires Sound(s) && who in s.conns && Known(s, id) && Known(Reconnect(s, who, prev, now), id)
    ensures SameCount(s, Reconnect(s, who, prev, now), id)
  {
  }

  lemma PlainCounts(cfg: Config, s: State, step: Step, now: int, id: ID)
    requires Sound(s) && Enabled(cfg, s, step) && Plain(step) && Known(s, id)
    ensures var t := Apply(cfg, s, step, now); Known(t, id) && SameCount(s, t, id)
  {
  }

  /** In every step, of every ID that keeps its connection or tombstone: the count follows the channels it has open, but
      for those closed while it has only a tombstone. */
  lemma CountFollows(cfg: Config, s: State, step: Step, now: int, id: ID)
    requires Sound(s) && Covered(cfg, s) && Enabled(cfg, s, step) && Known(s, id) && Known(Apply(cfg, s, step, now), id)
    ensures Follows(s, Apply(cfg, s, step, now), id)
  {
    match step
    case SLeave(who, key) => FollowsLeave(cfg, s, who, key, now, id);
    case SCreate(creator, key, proprietary, valid) => FollowsCreate(cfg, s, creator, key, proprietary, valid, now, id);
    case SCreateAndEnter(who, key, proprietary, valid, admitted) =>
      FollowsCreate(cfg, s, Some(who), key, proprietary, valid, now, id);
      EnterCounts(CreateChannel(cfg, s, Some(who), key, proprietary, valid, now), who, key, admitted, now, id);
    case SCloseChannel(key) => FollowsClosing(cfg, s, key, id);
    case SSweepChannel(key) =>
      FollowsClosing(cfg, s, key, id);
      FollowsSame(s, s, id);
    case _ =>
      OtherCounts(cfg, s, step, now, id);
      FollowsSame(s, Apply(cfg, s, step, now), id);
  }

  lemma OtherCounts(cfg: Config, s: State, step: Step, now: int, id: ID)
    requires Sound(s) && Enabled(cfg, s, step) && Known(s, id) && Known(Apply(cfg, s, step, now), id)
    requires step.SEnter? || step.SClose? || step.SReconnect? || step.SExpire? || Plain(step)
    ensures SameCount(s, Apply(cfg, s, step, now), id)
  {
    match step
    case SEnter(who, key, allowed) => EnterCounts(s, who, key, allowed, now, id);
    case SClose(who) => CloseCounts(cfg, s, who, now, id);
    case SReconnect(who, prev) => ReconnectCounts(s, who, prev, now, id);
    case SExpire(who) => ExpireCounts(s, who, now, id);
    case _ => PlainCounts(cfg, s, step, now, id);
  }

  // ---------- Runs ----------

  /** How many channels of id are closed between the states a and b of a run while it has only a tombstone. */
  function Lost(ss: seq<State>, a: nat, b: nat, id: ID): nat
    requires a <= b < |ss|
    decreases b - a
  {
    if a == b then 0 else Lost(ss, a, b - 1, id) + |LostBetween(ss[b - 1], ss[b], id)|
  }

  lemma {:induction false} SumUp(ss: seq<State>, a: nat, n: nat, id: ID)
    requires a <= n < |ss| && (forall i :: a <= i <= n ==> Known(ss[i], id)) && CountOf(ss[a], id) == |CreatedBy(ss[a], id)|
    requires forall i, j :: a <= i < n && j == i + 1 ==> Follows(ss[i], ss[j], id)
    ensures CountOf(ss[n], id) == |CreatedBy(ss[n], id)| + Lost(ss, a, n, id)
    decreases n
  {
    if a < n {
      SumUp(ss, a, n - 1, id);
      assert Follows(ss[n - 1], ss[n], id);
    }
  }

  /** From its admission on, through disconnecting and reconnecting: the count is the number of channels that the
      connection has open, and of those that were closed while it was away. */
  lemma RunCount(cfg: Config, start: int, es: seq<Event>, ss: seq<State>, a: nat, n: nat, id: ID)
    requires IsRun(cfg, start, es, ss) && a < n <= |es| && es[a].step.SAdd? && es[a].step.id == id
    requires forall i :: a < i <= n ==> Known(ss[i], id)
    ensures CountOf(ss[n], id) == |CreatedBy(ss[n], id)| + Lost(ss, a + 1, n, id)
  {
    AddedCount(cfg, start, es, ss, a, id);
    forall i, j | a + 1 <= i < n && j == i + 1 ensures Follows(ss[i], ss[j], id) {
      CountFollowsAt(cfg, start, es, ss, i, id);
    }
    SumUp(ss, a + 1, n, id);
  }

  lemma AddedCount(cfg: Config, start: int, es: seq<Event>, ss: seq<State>, a: nat, id: ID)
    requires IsRun(cfg, start, es, ss) && a < |es| && es[a].step.SAdd? && es[a].step.id == id
    ensures Known(ss[a + 1], id) && CountOf(ss[a + 1], id) == |CreatedBy(ss[a + 1], id)| == 0
  {
    assert ss[a + 1] == Add(ss[a], id, es[a].step.ip) && Fresh(ss[a], id);
    assert CreatedBy(ss[a + 1], id) == {};
  }

  lemma CountFollowsAt(cfg: Config, start: int, es: seq<Event>, ss: seq<State>, n: nat, id: ID)
    requires IsRun(cfg, start, es, ss) && n < |es| && Known(ss[n], id) && Known(ss[n + 1], id)
    ensures Follows(ss[n], ss[n + 1], id)
  {
    RunConsistent(cfg, start, es, ss, n);
    CountFollows(cfg, ss[n], es[n].step, es[n].now, id);
  }

  predicate TakesOver(step: Step, id: ID) {
    (step.SAdd? && step.id == id) || (step.SReconnect? && step.prev == id)
  }

  lemma LiveBefore(cfg: Config, s: State, step: Step, now: int, id: ID)
    requires Enabled(cfg, s, step) && !TakesOver(step, id) && id in Apply(cfg, s, step, now).conns
    ensures id in s.conns
  {
  }

  lemma {:induction false} LiveSince(cfg: Config, start: int, es: seq<Event>, ss: seq<State>, a: nat, n: nat, id: ID)
    requires IsRun(cfg, start, es, ss) && a < n <= |es| && id in ss[n].conns
    requires forall i :: a < i < n ==> !TakesOver(es[i].step, id)
    ensures forall i :: a < i <= n ==> id in ss[i].conns
    ensures a < n && Lost(ss, a + 1, n, id) == 0
    decreases n
  {
    if n > a + 1 {
      assert ss[n - 1 + 1] == Apply(cfg, ss[n - 1], es[n - 1].step, es[n - 1].now);
      LiveBefore(cfg, ss[n - 1], es[n - 1].step, es[n - 1].now, id);
      LiveSince(cfg, start, es, ss, a, n - 1, id);
    }
  }

  /** A connection that has not been away: its count is the number of its open channels. */
  lemma RunCountExact(cfg: Config, start: int, es: seq<Event>, ss: seq<State>, a: nat, n: nat, id: ID)
    requires IsRun(cfg, start, es, ss) && a < n <= |es| && es[a].step.SAdd? && es[a].step.id == id && id in ss[n].conns
    requires forall i :: a < i < n ==> !TakesOver(es[i].step, id)
    ensures ss[n].conns[id].created == |CreatedBy(ss[n], id)|
  {
    LiveSince(cfg, start, es, ss, a, n, id);
    RunCount(cfg, start, es, ss, a, n, id);
  }

  predicate Creates(step: Step, id: ID, key: Key) {
    (step.SCreate? && step.creator == Some(id) && step.key == key && step.valid)
    || (step.SCreateAndEnter? && step.id == id && step.key == key && step.valid)
  }

  /** A valid request for a free key is met if and only if the channels the connection has open, and those that were
      closed while it was away, are fewer than the limit. */
  lemma RunCreates(cfg: Config, start: int, es: seq<Event>, ss: seq<State>, a: nat, n: nat, id: ID, key: Key)
    requires IsRun(cfg, start, es, ss) && a < n < |es| && es[a].step.SAdd? && es[a].step.id == id
    requires forall i :: a < i <= n ==> Known(ss[i], id)
    requires Creates(es[n].step, id, key) && key !in ss[n].chans
    ensures key in ss[n + 1].chans <==> cfg.maxChannels == 0 || |CreatedBy(ss[n], id)| + Lost(ss, a + 1, n, id) < cfg.maxChannels
  {
    RunCount(cfg, start, es, ss, a, n, id);
    assert ss[n + 1] == Apply(cfg, ss[n], es[n].step, es[n].now);
  }

  /** ... and for one that has not been away, if and only if it has fewer channels open than the limit. */
  lemma RunCreatesExactly(cfg: Config, start: int, es: seq<Event>, ss: seq<State>, a: nat, n: nat, id: ID, key: Key)
    requires IsRun(cfg, start, es, ss) && a < n < |es| && es[a].step.SAdd? && es[a].step.id == id && id in ss[n].conns
    requires forall i :: a < i < n ==> !TakesOver(es[i].step, id)
    requires Creates(es[n].step, id, key) && key !in ss[n].chans
    ensures key in ss[n + 1].chans <==> cfg.maxChannels == 0 || |CreatedBy(ss[n], id)| < cfg.maxChannels
  {
    LiveSince(cfg, start, es, ss, a, n, id);
    RunCreates(cfg, start, es, ss, a, n, id, key);
  }
}
