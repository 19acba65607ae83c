/** Counts the registries keep beside the memberships: created channels per connection, live
    connections per IP, and since when a channel has been empty. */
module WsAccounting {
  import opened Common
  import opened WsState
  import opened WsInvariants

  lemma SubsetSize<T>(a: set<T>, b: set<T>)
    requires a <= b
    ensures |a| <= |b|
  {
    if a != {} {
      var x :| x in a;
      SubsetSize(a - {x}, b - {x});
    }
  }

  // ---------- Created channels ----------

  function CreatedBy(s: State, id: ID): set<Key> {
    set k | k in s.chans && s.chans[k].creator == id
  }

  predicate WithinLimit(cfg: Config, n: nat) {
    cfg.maxChannels > 0 ==> n <= cfg.maxChannels
  }

  /** The count a connection or tombstone carries covers the channels it has open. */
  predicate Covered(cfg: Config, s: State) {
    && (forall id :: id in s.conns ==> |CreatedBy(s, id)| <= s.conns[id].created && WithinLimit(cfg, s.conns[id].created))
    && (forall id :: id in s.tombs ==> |CreatedBy(s, id)| <= s.tombs[id].created && WithinLimit(cfg, s.tombs[id].created))
  }

  /** Covered survives when no creator gains a channel and nobody's count drops. */
  lemma CoveredShrink(cfg: Config, s: State, t: State)
    requires Covered(cfg, s)
    requires forall k :: k in t.chans ==> k in s.chans && t.chans[k].creator == s.chans[k].creator
    requires forall id :: id in t.conns ==> id in s.conns && t.conns[id].created == s.conns[id].created
    requires forall id :: id in t.tombs ==>
      (id in s.tombs && t.tombs[id].created == s.tombs[id].created) || (id in s.conns && t.tombs[id].created == s.conns[id].created)
    ensures Covered(cfg, t)
  {
    forall id ensures |CreatedBy(t, id)| <= |CreatedBy(s, id)| {
      SubsetSize(CreatedBy(t, id), CreatedBy(s, id));
    }
  }

  lemma CoveredCloseChannel(cfg: Config, s: State, key: Key)
    requires Covered(cfg, s) && "" !in s.conns
    ensures Covered(cfg, CloseChannel(s, key))
  {
    if key in s.chans {
      var t := CloseChannel(s, key);
      var who := s.chans[key].creator;
      forall id ensures |CreatedBy(t, id)| == |CreatedBy(s, id)| - (if id == who then 1 else 0) {
        assert CreatedBy(t, id) == CreatedBy(s, id) - {key};
        if id == who { assert key in CreatedBy(s, id); }
      }
    }
  }

  lemma CoveredLeaveChannel(cfg: Config, s: State, key: Key, id: ID, status: Status, now: int)
    requires Covered(cfg, s) && "" !in s.conns
    ensures Covered(cfg, LeaveChannel(s, key, id, status, now))
  {
    if key in s.chans {
      var left := s.(chans := s.chans[key := WithMembers(s.chans[key], s.chans[key].members - {id}, now)]);
      CoveredShrink(cfg, s, left);
      CoveredCloseChannel(cfg, left, key);
    }
  }

  lemma CoveredEnter(cfg: Config, s: State, id: ID, key: Key, allowed: bool, now: int)
    requires Covered(cfg, s) && id in s.conns
    ensures Covered(cfg, Enter(s, id, key, allowed, now))
  {
    CoveredShrink(cfg, s, Enter(s, id, key, allowed, now));
  }

  lemma CreatedByAfterCreate(s: State, t: State, key: Key, who: ID, id: ID)
    requires key !in s.chans && t.chans.Keys == s.chans.Keys + {key} && t.chans[key].creator == who
    requires forall k :: k in s.chans ==> t.chans[k] == s.chans[k]
    ensures |CreatedBy(t, id)| == |CreatedBy(s, id)| + (if id == who then 1 else 0)
  {
    assert CreatedBy(t, id) == CreatedBy(s, id) + if id == who then {key} else {};
  }

  lemma CoveredCreate(cfg: Config, s: State, creator: Option<ID>, key: Key, proprietary: bool, valid: bool, now: int)
    requires Sound(s) && Covered(cfg, s) && (creator.Some? ==> creator.value in s.conns)
    ensures Covered(cfg, CreateChannel(cfg, s, creator, key, proprietary, valid, now))
  {
    if CreateAllowed(cfg, s, creator, key, valid) {
      var t := CreateChannel(cfg, s, creator, key, proprietary, valid, now);
      var who := if creator.Some? then creator.value else "";
      forall id ensures |CreatedBy(t, id)| == |CreatedBy(s, id)| + (if id == who then 1 else 0) {
        CreatedByAfterCreate(s, t, key, who, id);
      }
      assert t.tombs == s.tombs;
      assert forall id :: id in s.conns && id != who ==> t.conns[id] == s.conns[id];
    }
  }

  lemma CoveredReconnect(cfg: Config, s: State, id: ID, prev: ID, now: int)
    requires Sound(s) && Covered(cfg, s) && id in s.conns
    ensures Covered(cfg, Reconnect(s, id, prev, now))
  {
    var t := Reconnect(s, id, prev, now);
    forall i ensures CreatedBy(t, i) == CreatedBy(s, i) {}
  }

  lemma CoveredAdd(cfg: Config, s: State, id: ID, ip: string)
    requires Covered(cfg, s) && Fresh(s, id)
    ensures Covered(cfg, Add(s, id, ip))
  {
    var t := Add(s, id, ip);
    forall i ensures CreatedBy(t, i) == CreatedBy(s, i) {}
    assert CreatedBy(s, id) == {};
  }

  lemma CoveredLeave(cfg: Config, s: State, id: ID, key: Key, now: int)
    requires Sound(s) && Covered(cfg, s) && id in s.conns
    ensures Covered(cfg, Leave(s, id, key, now))
  {
    if key in s.chans && id in s.chans[key].members {
      var u := s.(conns := s.conns[id := s.conns[id].(channels := s.conns[id].channels - {key})]);
      CoveredShrink(cfg, s, u);
      CoveredLeaveChannel(cfg, u, key, id, s.conns[id].status, now);
    }
  }

  lemma CoveredClose(cfg: Config, s: State, id: ID, now: int)
    requires Covered(cfg, s) && id in s.conns
    ensures Covered(cfg, Close(cfg, s, id, now))
  {
    CoveredShrink(cfg, s, Close(cfg, s, id, now));
  }

  lemma CoveredExpire(cfg: Config, s: State, id: ID, now: int)
    requires Covered(cfg, s) && id in s.tombs
    ensures Covered(cfg, Expire(s, id, now))
  {
    CoveredShrink(cfg, s, Expire(s, id, now));
  }

  lemma CoveredPlain(cfg: Config, s: State, step: Step, now: int)
    requires Covered(cfg, s) && Enabled(cfg, s, step) && Plain(step)
    ensures Covered(cfg, Apply(cfg, s, step, now))
  {
    if step.SAdd? {
      CoveredAdd(cfg, s, step.id, step.ip);
    } else {
      CoveredShrink(cfg, s, Apply(cfg, s, step, now));
    }
  }

  lemma CoveredStep(cfg: Config, s: State, step: Step, now: int)
    requires Sound(s) && Covered(cfg, s) && Enabled(cfg, s, step)
    ensures Covered(cfg, Apply(cfg, s, step, now))
  {
    match step
    case SEnter(id, key, allowed) => CoveredEnter(cfg, s, id, key, allowed, now);
    case SLeave(id, key) => CoveredLeave(cfg, s, id, key, now);
    case SCreate(creator, key, proprietary, valid) => CoveredCreate(cfg, s, creator, key, proprietary, valid, now);
    case SCreateAndEnter(id, key, proprietary, valid, admitted) =>
      CoveredCreate(cfg, s, Some(id), key, proprietary, valid, now);
      CoveredEnter(cfg, CreateChannel(cfg, s, Some(id), key, proprietary, valid, now), id, key, admitted, now);
    case SCloseChannel(key) => CoveredCloseChannel(cfg, s, key);
    case SSweepChannel(key) => CoveredCloseChannel(cfg, s, key);
    case SClose(id) => CoveredClose(cfg, s, id, now);
    case SReconnect(id, prev) => CoveredReconnect(cfg, s, id, prev, now);
    case SExpire(id) => CoveredExpire(cfg, s, id, now);
    case _ => CoveredPlain(cfg, s, step, now);
  }

  // ---------- Connections per IP ----------

  function LiveFrom(s: State, ip: string): set<ID> {
    set id | id in s.conns && s.conns[id].ip == ip
  }

  /** The table has an entry for exactly the IPs with live connections, and that entry is their number. */
  ghost predicate Counted(s: State) {
    && (forall ip :: IpCount(s.ips, ip) == |LiveFrom(s, ip)|)
    && (forall ip :: ip in s.ips ==> s.ips[ip] > 0)
  }

  predicate SameHosts(s: State, t: State) {
    s.ips == t.ips && s.conns.Keys == t.conns.Keys && forall id :: id in s.conns ==> s.conns[id].ip == t.conns[id].ip
  }

  lemma CountedSame(s: State, t: State)
    requires Counted(s) && SameHosts(s, t)
    ensures Counted(t)
  {
    forall ip ensures LiveFrom(t, ip) == LiveFrom(s, ip) {}
  }

  lemma DroppedFrom(s: State, t: State, id: ID, ip: string)
    requires id in s.conns && t.conns == s.conns - {id}
    ensures |LiveFrom(t, ip)| == |LiveFrom(s, ip)| - (if ip == s.conns[id].ip then 1 else 0)
  {
    var a, b := LiveFrom(s, ip), LiveFrom(t, ip);
    assert b == a - {id};
    if ip == s.conns[id].ip {
      assert id in a && |b| == |a| - 1;
    } else {
      assert id !in a;
    }
  }

  lemma CountedDrop(s: State, t: State, id: ID)
    requires Counted(s) && id in s.conns && t.conns == s.conns - {id} && t.ips == DropIp(s.ips, s.conns[id].ip)
    ensures Counted(t)
  {
    forall ip ensures IpCount(t.ips, ip) == |LiveFrom(t, ip)| { DroppedFrom(s, t, id, ip); }
    DroppedFrom(s, t, id, s.conns[id].ip);
  }

  lemma AddedFrom(s: State, id: ID, ip: string, a: string)
    requires id !in s.conns
    ensures |LiveFrom(Add(s, id, ip), a)| == |LiveFrom(s, a)| + (if a == ip then 1 else 0)
  {
    assert LiveFrom(Add(s, id, ip), a) == LiveFrom(s, a) + if a == ip then {id} else {};
  }

  lemma CountedAdd(s: State, id: ID, ip: string)
    requires Counted(s) && id !in s.conns
    ensures Counted(Add(s, id, ip))
  {
    forall a { AddedFrom(s, id, ip, a); }
  }

  /** A connection is added without another look at the limit of its IP: the limit holds afterwards if and only if the
      check, made at this moment, would let it pass. */
  lemma AddWithinLimit(cfg: Config, s: State, id: ID, ip: string)
    requires Counted(s) && id !in s.conns && cfg.maxPerIp > 0
    ensures |LiveFrom(Add(s, id, ip), ip)| <= cfg.maxPerIp <==> IpAllowed(cfg, s, ip)
  {
    AddedFrom(s, id, ip, ip);
  }

  lemma RekeyedFrom(s: State, t: State, id: ID, prev: ID, ip: string)
    requires id in s.conns && prev !in s.conns
    requires forall i :: i in t.conns <==> i == prev || (i in s.conns && i != id)
    requires t.conns[prev].ip == s.conns[id].ip && forall i :: i in s.conns && i != id ==> t.conns[i].ip == s.conns[i].ip
    ensures |LiveFrom(t, ip)| == |LiveFrom(s, ip)|
  {
    var a, b := LiveFrom(s, ip), LiveFrom(t, ip);
    if ip == s.conns[id].ip {
      assert id in a && prev in b && prev !in a;
      assert a - {id} == b - {prev};
      assert |a - {id}| == |a| - 1 && |b - {prev}| == |b| - 1;
    } else {
      assert a == b;
    }
  }

  lemma CountedReconnect(s: State, id: ID, prev: ID, now: int)
    requires Ids(s) && Counted(s) && id in s.conns
    ensures Counted(Reconnect(s, id, prev, now))
  {
    if prev in s.tombs && s.tombs[prev].conn.ip == s.conns[id].ip {
      var t := Reconnect(s, id, prev, now);
      forall ip ensures |LiveFrom(t, ip)| == |LiveFrom(s, ip)| { RekeyedFrom(s, t, id, prev, ip); }
    }
  }

  lemma CountedClose(cfg: Config, s: State, id: ID, now: int)
    requires Counted(s) && id in s.conns
    ensures Counted(Close(cfg, s, id, now))
  {
    var dropped := s.(conns := s.conns - {id}, ips := DropIp(s.ips, s.conns[id].ip));
    CountedDrop(s, dropped, id);
    CountedSame(dropped, Close(cfg, s, id, now));
  }

  lemma CountedExpire(s: State, id: ID, now: int)
    requires Ids(s) && Counted(s) && id in s.tombs
    ensures Counted(Expire(s, id, now))
  {
    assert s.conns - {id} == s.conns;  // the sweep's own delete finds nothing: a tombstone is never live
    CountedSame(s, Expire(s, id, now));
  }

  /** Entering, leaving, creating and closing change records, not who is live from where. */
  lemma ClosingKeepsHosts(s: State, key: Key)
    ensures SameHosts(s, CloseChannel(s, key))
  {
  }

  lemma LeavingKeepsHosts(s: State, id: ID, key: Key, now: int)
    requires id in s.conns
    ensures SameHosts(s, Leave(s, id, key, now))
  {
    if key in s.chans && id in s.chans[key].members {
      ClosingKeepsHosts(Left(s, id, key, now), key);
    }
  }

  lemma CreateKeepsHosts(cfg: Config, s: State, creator: Option<ID>, key: Key, proprietary: bool, valid: bool, now: int)
    requires creator.Some? ==> creator.value in s.conns
    ensures SameHosts(s, CreateChannel(cfg, s, creator, key, proprietary, valid, now))
  {
  }

  lemma EnterKeepsHosts(s: State, id: ID, key: Key, allowed: bool, now: int)
    requires id in s.conns
    ensures SameHosts(s, Enter(s, id, key, allowed, now))
  {
  }

  lemma MessageKeepsHosts(cfg: Config, s: State, step: Step, now: int)
    requires Enabled(cfg, s, step) && (step.SEnter? || step.SCreate? || step.SCreateAndEnter?)
    ensures SameHosts(s, Apply(cfg, s, step, now))
  {
    match step
    case SEnter(id, key, allowed) => EnterKeepsHosts(s, id, key, allowed, now);
    case SCreate(creator, key, proprietary, valid) => CreateKeepsHosts(cfg, s, creator, key, proprietary, valid, now);
    case SCreateAndEnter(id, key, proprietary, valid, admitted) =>
      CreateKeepsHosts(cfg, s, Some(id), key, proprietary, valid, now);
      EnterKeepsHosts(CreateChannel(cfg, s, Some(id), key, proprietary, valid, now), id, key, admitted, now);
  }

  lemma CountedRest(cfg: Config, s: State, step: Step, now: int)
    requires Sound(s) && Counted(s) && Enabled(cfg, s, step) && (Plain(step) || step.SEnter? || step.SCreate? || step.SCreateAndEnter?)
    ensures Counted(Apply(cfg, s, step, now))
  {
    if step.SAdd? {
      CountedAdd(s, step.id, step.ip);
    } else if Plain(step) {
      CountedSame(s, Apply(cfg, s, step, now));
    } else {
      MessageKeepsHosts(cfg, s, step, now);
      CountedSame(s, Apply(cfg, s, step, now));
    }
  }

  lemma CountedStep(cfg: Config, s: State, step: Step, now: int)
    requires Sound(s) && Counted(s) && Enabled(cfg, s, step)
    ensures Counted(Apply(cfg, s, step, now))
  {
    match step
    case SClose(id) => CountedClose(cfg, s, id, now);
    case SReconnect(id, prev) => CountedReconnect(s, id, prev, now);
    case SExpire(id) => CountedExpire(s, id, now);
    case SCloseChannel(key) =>
      ClosingKeepsHosts(s, key);
      CountedSame(s, CloseChannel(s, key));
    case SSweepChannel(key) =>
      ClosingKeepsHosts(s, key);
      CountedSame(s, SweepChannel(cfg, s, key, now));
    case SLeave(id, key) =>
      LeavingKeepsHosts(s, id, key, now);
      CountedSame(s, Leave(s, id, key, now));
    case _ => CountedRest(cfg, s, step, now);
  }

  // ---------- Empty channels ----------

  predicate Clocked(s: State) {
    forall k :: k in s.chans ==> (s.chans[k].emptySince.Some? <==> s.chans[k].members == {})
  }

  lemma ClockedEntering(cfg: Config, s: State, step: Step, now: int)
    requires Clocked(s) && Enabled(cfg, s, step) && (step.SEnter? || step.SCreate? || step.SCreateAndEnter?)
    ensures Clocked(Apply(cfg, s, step, now))
  {
  }

  lemma ClockedEnding(cfg: Config, s: State, step: Step, now: int)
    requires Clocked(s) && Enabled(cfg, s, step) && (step.SLeave? || step.SCloseChannel? || step.SSweepChannel?)
    ensures Clocked(Apply(cfg, s, step, now))
  {
  }

  lemma ClockedStep(cfg: Config, s: State, step: Step, now: int)
    requires Clocked(s) && Enabled(cfg, s, step)
    ensures Clocked(Apply(cfg, s, step, now))
  {
    if step.SEnter? || step.SCreate? || step.SCreateAndEnter? {
      ClockedEntering(cfg, s, step, now);
    } else if step.SLeave? || step.SCloseChannel? || step.SSweepChannel? {
      ClockedEnding(cfg, s, step, now);
    }
  }
}
