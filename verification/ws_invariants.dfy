/** What every step of the registries keeps. */
module WsInvariants {
  import opened Common
  import opened WsState

  datatype Step =
    | SCheckIp(id: ID, ip: string)
    | SAdd(id: ID, ip: string)
    | SGiveUp(id: ID)
    | SActivate(id: ID)
    | SAskClose(id: ID)
    | SEnter(id: ID, key: Key, allowed: bool)
    | SLeave(id: ID, key: Key)
    | SCreate(creator: Option<ID>, key: Key, proprietary: bool, valid: bool)
    | SCreateAndEnter(id: ID, key: Key, proprietary: bool, valid: bool, admitted: bool)
    | SCloseChannel(key: Key)
    | SClose(id: ID)
    | SCloseAgain(id: ID)
    | SReconnect(id: ID, prev: ID)
    | SExpire(id: ID)
    | SSweepChannel(key: Key)
    | SRequest(id: ID)

  /** Connection IDs are random: a new one has never been seen, not even as a channel's creator. */
  predicate Fresh(s: State, id: ID) {
    id != "" && id !in s.conns && id !in s.tombs && forall k :: k in s.chans ==> s.chans[k].creator != id
  }

  predicate HasCounter(s: State, id: ID) {
    id in s.requests && s.requests[id].Some?
  }

  /** When a step may happen. A message step needs its connection live; a reconnecting connection has
      joined no channel under its temporary ID, and its message was counted before it was handled. Which
      connection is added is a matter of what has been checked before (WsRuns). */
  predicate Enabled(cfg: Config, s: State, step: Step) {
    match step
    case SCheckIp(id, _) => Fresh(s, id)
    case SAdd(id, _) => Fresh(s, id)
    case SGiveUp(_) => true
    case SCreate(creator, _, _, _) => creator.Some? ==> creator.value in s.conns
    case SCloseChannel(_) => true
    case SSweepChannel(_) => true
    case SCloseAgain(id) => id in s.tombs
    case SExpire(id) => id in s.tombs
    case SReconnect(id, _) =>
      id in s.conns && s.conns[id].channels == {} && (cfg.maxRequests > 0 ==> HasCounter(s, id))
    case _ => step.id in s.conns
  }

  function Apply(cfg: Config, s: State, step: Step, now: int): State
    requires Enabled(cfg, s, step)
  {
    match step
    case SCheckIp(_, _) => s
    case SAdd(id, ip) => Add(s, id, ip)
    case SGiveUp(_) => s
    case SActivate(id) => s.(conns := s.conns[id := s.conns[id].(status := Active)])
    case SAskClose(id) => s.(conns := s.conns[id := s.conns[id].(ready := true)])
    case SEnter(id, key, allowed) => Enter(s, id, key, allowed, now)
    case SLeave(id, key) => Leave(s, id, key, now)
    case SCreate(creator, key, proprietary, valid) => CreateChannel(cfg, s, creator, key, proprietary, valid, now)
    case SCreateAndEnter(id, key, proprietary, valid, admitted) => CreateAndEnter(cfg, s, id, key, proprietary, valid, admitted, now)
    case SCloseChannel(key) => CloseChannel(s, key)
    case SClose(id) => Close(cfg, s, id, now)
    case SCloseAgain(id) => CloseAgain(s, id)
    case SReconnect(id, prev) => Reconnect(s, id, prev, now)
    case SExpire(id) => Expire(s, id, now)
    case SSweepChannel(key) => SweepChannel(cfg, s, key, now)
    case SRequest(id) => Request(cfg, s, id, now)
  }

  // ---------- Membership ----------

  /** No ID is both live and tombstoned, and a tombstoned connection's own record lists no channel any more. */
  predicate Ids(s: State) {
    && s.conns.Keys !! s.tombs.Keys
    && "" !in s.conns && "" !in s.tombs
    && (forall id :: id in s.conns ==> s.conns[id].status != Disconnected && s.conns[id].status != Closed)
    && (forall id :: id in s.tombs ==> s.tombs[id].conn.status == Disconnected || s.tombs[id].conn.status == Closed)
    && (forall id :: id in s.tombs ==> s.tombs[id].conn.channels == {})
  }

  /** A live connection lists exactly the channels that list it, and every member is live. */
  predicate Linked(s: State) {
    && (forall k, id :: k in s.chans && id in s.chans[k].members ==> id in s.conns && k in s.conns[id].channels)
    && (forall id, k :: id in s.conns && k in s.conns[id].channels ==> k in s.chans && id in s.chans[k].members)
  }

  predicate Sound(s: State) { Ids(s) && Linked(s) }

  lemma SoundLeaveAll(s: State, keys: set<Key>, id: ID, status: Status, now: int)
    requires Ids(s) && id !in s.conns
    requires forall k, i :: k in s.chans && i in s.chans[k].members && !(i == id && k in keys) ==> i in s.conns && k in s.conns[i].channels
    requires forall i, k :: i in s.conns && k in s.conns[i].channels ==> k in s.chans && i in s.chans[k].members
    ensures Sound(LeaveAll(s, keys, id, status, now))
  {
  }

  lemma SoundCloseChannel(s: State, key: Key)
    requires Sound(s)
    ensures Sound(CloseChannel(s, key))
  {
  }

  lemma SoundEnter(s: State, id: ID, key: Key, allowed: bool, now: int)
    requires Sound(s) && id in s.conns
    ensures Sound(Enter(s, id, key, allowed, now))
  {
  }

  /** Both ends of one membership dropped: Leave before it decides whether the channel closes. */
  function Left(s: State, id: ID, key: Key, now: int): (t: State)
    requires id in s.conns && key in s.chans
    ensures Sound(s) ==> Sound(t)
  {
    s.(conns := s.conns[id := s.conns[id].(channels := s.conns[id].channels - {key})],
       chans := s.chans[key := WithMembers(s.chans[key], s.chans[key].members - {id}, now)])
  }

  lemma SoundLeave(s: State, id: ID, key: Key, now: int)
    requires Sound(s) && id in s.conns
    ensures Sound(Leave(s, id, key, now))
  {
    if key in s.chans && id in s.chans[key].members {
      SoundCloseChannel(Left(s, id, key, now), key);
    }
  }

  lemma SoundCreate(cfg: Config, s: State, creator: Option<ID>, key: Key, proprietary: bool, valid: bool, now: int)
    requires Sound(s) && (creator.Some? ==> creator.value in s.conns)
    ensures Sound(CreateChannel(cfg, s, creator, key, proprietary, valid, now))
  {
  }

  lemma SoundClose(cfg: Config, s: State, id: ID, now: int)
    requires Sound(s) && id in s.conns
    ensures Sound(Close(cfg, s, id, now))
  {
    var c := s.conns[id];
    if c.ready {
      SoundLeaveAll(RemoveImmediate(s, id), c.channels, id, Closed, now);
    } else {
      var m := MarkDisconnected(cfg, s, id, now);
      var m' := m.(tombs := m.tombs[id := m.tombs[id].(conn := c.(status := Disconnected, channels := {}))]);
      SoundLeaveAll(m', c.channels, id, Disconnected, now);
    }
  }

  lemma SoundExpire(s: State, id: ID, now: int)
    requires Sound(s) && id in s.tombs
    ensures Sound(Expire(s, id, now))
  {
    if now > s.tombs[id].expiresAt {
      var gone := s.(conns := s.conns - {id}, requests := s.requests - {id}, tombs := s.tombs - {id});
      assert gone.conns == s.conns;
      SoundLeaveAll(gone, s.tombs[id].channels, id, Closed, now);
    }
  }

  /** Re-keying is sound exactly for a connection that has joined nothing under its temporary ID. */
  lemma SoundReconnect(s: State, id: ID, prev: ID, now: int)
    requires Sound(s) && id in s.conns && prev in s.tombs && s.tombs[prev].conn.ip == s.conns[id].ip
    ensures Sound(Reconnect(s, id, prev, now)) <==> s.conns[id].channels == {}
  {
    var t := Reconnect(s, id, prev, now);
    if k :| k in s.conns[id].channels {
      assert id in t.chans[k].members && id !in t.conns;
    }
  }

  /** Steps that touch no membership. */
  predicate Plain(step: Step) {
    step.SCheckIp? || step.SAdd? || step.SGiveUp? || step.SActivate? || step.SAskClose? || step.SCloseAgain? || step.SRequest?
  }

  lemma SoundPlain(cfg: Config, s: State, step: Step, now: int)
    requires Sound(s) && Enabled(cfg, s, step) && Plain(step)
    ensures Sound(Apply(cfg, s, step, now))
  {
    if step.SAdd? { SoundAdd(s, step.id, step.ip); }
  }

  lemma SoundAdd(s: State, id: ID, ip: string)
    requires Sound(s) && Fresh(s, id)
    ensures Sound(Add(s, id, ip))
  {
  }

  lemma SoundStep(cfg: Config, s: State, step: Step, now: int)
    requires Sound(s) && Enabled(cfg, s, step)
    ensures Sound(Apply(cfg, s, step, now))
  {
    match step
    case SEnter(id, key, allowed) => SoundEnter(s, id, key, allowed, now);
    case SLeave(id, key) => SoundLeave(s, id, key, now);
    case SCreate(creator, key, proprietary, valid) => SoundCreate(cfg, s, creator, key, proprietary, valid, now);
    case SCreateAndEnter(id, key, proprietary, valid, admitted) =>
      SoundCreate(cfg, s, Some(id), key, proprietary, valid, now);
      SoundEnter(CreateChannel(cfg, s, Some(id), key, proprietary, valid, now), id, key, admitted, now);
    case SCloseChannel(key) => SoundCloseChannel(s, key);
    case SClose(id) => SoundClose(cfg, s, id, now);
    case SReconnect(id, prev) =>
      if prev in s.tombs && s.tombs[prev].conn.ip == s.conns[id].ip { SoundReconnect(s, id, prev, now); }
    case SExpire(id) => SoundExpire(s, id, now);
    case SSweepChannel(key) => SoundCloseChannel(s, key);
    case _ => SoundPlain(cfg, s, step, now);
  }
}
