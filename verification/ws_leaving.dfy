/** Leaving several channels one by one, in any order, has one result. */
module WsLeaving {
  import opened Common
  import opened WsState

  lemma OneMoreKey(order: seq<Key>, key: Key)
    ensures (order + [key])[..|order|] == order && Elements(order + [key]) == Elements(order) + {key}
    ensures Distinct(order) && key !in Elements(order) ==> Distinct(order + [key])
  {
  }

  /** The members of the registered channels, other than `id`, are live: what a broadcast relies on. */
  predicate OthersLive(s: State, id: ID) {
    forall k, i :: k in s.chans && i in s.chans[k].members && i != id ==> i in s.conns
  }

  lemma KickOne(conns: map<ID, Conn>, done: set<ID>, id: ID, key: Key)
    ensures Kick(conns, done + {id}, key) ==
      if id in conns then Kick(conns, done, key)[id := conns[id].(channels := conns[id].channels - {key})]
      else Kick(conns, done, key)
  {
  }

  /** A tombstoned connection closed for good: its own record lists nothing and is Closed. */
  function Buried(s: State, id: ID): State
    requires id in s.tombs
  {
    s.(tombs := s.tombs[id := s.tombs[id].(conn := s.tombs[id].conn.(status := Closed, channels := {}))])
  }

  /** Connection.Close on a tombstoned connection: it leaves what its own record still lists. */
  function SecondClose(s: State, id: ID, now: int): State
    requires id in s.tombs
  {
    if s.tombs[id].conn.status == Closed then s else LeaveAll(Buried(s, id), s.tombs[id].conn.channels, id, Closed, now)
  }

  function Without(s: State, id: ID): State {
    s.(tombs := s.tombs - {id})
  }

  /** What the sweep has done to an expired entry before it closes the connection. */
  function Restored(s: State, id: ID): State
    requires id in s.tombs
  {
    s.(requests := s.requests - {id},
       tombs := s.tombs[id := s.tombs[id].(conn := s.tombs[id].conn.(channels := s.tombs[id].channels))])
  }

  lemma ExpireInSteps(s: State, id: ID, now: int)
    requires id in s.tombs && id !in s.conns && now > s.tombs[id].expiresAt
    ensures s.tombs[id].conn.status == Closed ==> Without(Restored(s, id), id) == Expire(s, id, now)
    ensures s.tombs[id].conn.status == Disconnected ==>
      Without(LeaveAll(Buried(Restored(s, id), id), s.tombs[id].channels, id, Closed, now), id) == Expire(s, id, now)
  {
    assert s.conns - {id} == s.conns;
    assert Restored(s, id).tombs - {id} == s.tombs - {id};
    assert Buried(Restored(s, id), id).tombs - {id} == s.tombs - {id};
  }

  /** The tombstone sweep: the entries come in whatever order the map yields them. */
  function ExpireEach(s: State, order: seq<ID>, now: int): State {
    if order == [] then s
    else
      var t := ExpireEach(s, order[..|order| - 1], now);
      if order[|order| - 1] in t.tombs then Expire(t, order[|order| - 1], now) else t
  }

  /** The channel sweep closes what was due when it started. */
  function SweepEach(cfg: Config, s: State, order: seq<Key>, now: int): State {
    if order == [] then s else SweepChannel(cfg, SweepEach(cfg, s, order[..|order| - 1], now), order[|order| - 1], now)
  }

  predicate Due(cfg: Config, s: State, key: Key, now: int) {
    cfg.emptyTtl > 0 && key in s.chans && key != cfg.defaultKey && AutoCloseDue(s.chans[key], cfg.emptyTtl * SECOND, now)
  }

  lemma OthersLiveWithout(s: State, t: State, id: ID)
    requires OthersLive(s, id) && t.chans == s.chans && t.conns == s.conns - {id}
    ensures OthersLive(t, id)
  {
  }

  lemma OthersStayLive(s: State, key: Key, id: ID, status: Status, now: int)
    requires OthersLive(s, id)
    ensures OthersLive(LeaveChannel(s, key, id, status, now), id)
  {
  }

  lemma DoomedOneMore(s: State, keys: set<Key>, key: Key, id: ID, status: Status)
    ensures Doomed(s, keys + {key}, id, status) == Doomed(s, keys, id, status) + Doomed(s, {key}, id, status)
  {
  }

  /** The kick that closing one more channel adds, on one live connection. */
  lemma KickedOneMore(s: State, keys: set<Key>, key: Key, id: ID, status: Status, now: int, i: ID)
    requires id !in s.conns && i in s.conns && key in Doomed(s, {key}, id, status)
    ensures Kick(LeaveAll(s, keys, id, status, now).conns, s.chans[key].members - {id}, key)[i]
         == LeaveAll(s, keys + {key}, id, status, now).conns[i]
  {
    DoomedOneMore(s, keys, key, id, status);
    assert Kick(LeaveAll(s, keys, id, status, now).conns, s.chans[key].members - {id}, key)[i].channels
        == LeaveAll(s, keys + {key}, id, status, now).conns[i].channels;
  }

  lemma KickNone(conns: map<ID, Conn>, key: Key)
    ensures Kick(conns, {}, key) == conns
  {
  }

  lemma KickTwice(conns: map<ID, Conn>, a: set<ID>, b: set<ID>, key: Key)
    ensures Kick(Kick(conns, a, key), b, key) == Kick(conns, a + b, key)
  {
    var l, r := Kick(Kick(conns, a, key), b, key), Kick(conns, a + b, key);
    forall i | i in conns ensures l[i] == r[i] {
      assert l[i].channels == r[i].channels;
    }
  }

  lemma LeaveOneMore(s: State, keys: set<Key>, key: Key, id: ID, status: Status, now: int)
    requires id !in s.conns && key !in keys
    ensures LeaveChannel(LeaveAll(s, keys, id, status, now), key, id, status, now) == LeaveAll(s, keys + {key}, id, status, now)
  {
    var t, u := LeaveAll(s, keys, id, status, now), LeaveAll(s, keys + {key}, id, status, now);
    var l := LeaveChannel(t, key, id, status, now);
    DoomedOneMore(s, keys, key, id, status);
    if key in Doomed(s, {key}, id, status) {
      forall i | i in s.conns ensures l.conns[i] == u.conns[i] { KickedOneMore(s, keys, key, id, status, now, i); }
      assert l.conns == u.conns;
    } else {
      assert Doomed(s, keys + {key}, id, status) == Doomed(s, keys, id, status);
      assert t.conns == u.conns;
    }
    assert l.chans == u.chans;
  }

  lemma LeaveNothing(s: State, id: ID, status: Status, now: int)
    ensures LeaveAll(s, {}, id, status, now) == s
  {
    var t := LeaveAll(s, {}, id, status, now);
    forall i | i in s.conns ensures t.conns[i] == s.conns[i] {
      assert t.conns[i].channels == s.conns[i].channels;
    }
    assert t.conns == s.conns && t.chans == s.chans;
  }

  /** LeaveAllChannels gives the same result for every order its loop may take. */
  lemma {:induction false} LeaveEachIsLeaveAll(s: State, keys: seq<Key>, id: ID, status: Status, now: int)
    requires id !in s.conns && Distinct(keys)
    ensures LeaveEach(s, keys, id, status, now) == LeaveAll(s, Elements(keys), id, status, now)
  {
    if keys == [] {
      LeaveNothing(s, id, status, now);
      assert Elements(keys) == {};
    } else {
      var n := |keys| - 1;
      LeaveEachIsLeaveAll(s, keys[..n], id, status, now);
      assert Elements(keys) == Elements(keys[..n]) + {keys[n]};
      LeaveOneMore(s, Elements(keys[..n]), keys[n], id, status, now);
    }
  }

  // ---------- Coming back ----------

  predicate AllLive(s: State) {
    forall k, i :: k in s.chans && i in s.chans[k].members ==> i in s.conns
  }

  function JoinAll(chans: map<Key, Chan>, keys: set<Key>, id: ID, now: int): map<Key, Chan> {
    map k | k in chans :: if k in keys then WithMembers(chans[k], chans[k].members + {id}, now) else chans[k]
  }

  lemma JoinNone(chans: map<Key, Chan>, id: ID, now: int)
    ensures JoinAll(chans, {}, id, now) == chans
  {
  }

  lemma JoinOneMore(s: State, chans: map<Key, Chan>, keys: set<Key>, key: Key, id: ID, now: int)
    requires s.chans == JoinAll(chans, keys, id, now) && key in chans && key !in keys
    ensures AddMember(s, key, id, now).chans == JoinAll(chans, keys + {key}, id, now)
  {
  }

  /** What re-keying makes of the registries before the connection re-enters its channels. */
  function Rekeyed(s: State, id: ID, prev: ID): State
    requires id in s.conns
  {
    s.(tombs := s.tombs - {prev},
       requests := s.requests[prev := if id in s.requests then s.requests[id] else None] - {id},
       conns := s.conns[prev := s.conns[id].(status := Reconnecting)] - {id})
  }

  lemma RekeyedLive(s: State, id: ID, prev: ID)
    requires id in s.conns && s.conns[id].channels == {}
    requires forall k, i :: k in s.chans && i in s.chans[k].members ==> i in s.conns && k in s.conns[i].channels
    ensures AllLive(Rekeyed(s, id, prev))
  {
  }

  lemma ReconnectInSteps(s: State, id: ID, prev: ID, now: int)
    requires id in s.conns && prev !in s.conns && prev in s.tombs && s.tombs[prev].conn.ip == s.conns[id].ip
    ensures var r, t := Rekeyed(s, id, prev), s.tombs[prev];
      prev in r.conns && Reconnect(s, id, prev, now) ==
        r.(chans := JoinAll(r.chans, t.channels, prev, now),
           conns := r.conns[prev := r.conns[prev].(channels := t.channels * s.chans.Keys, created := t.created)])
  {
  }
}
