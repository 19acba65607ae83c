/** What each step does to the registries, told step by step: who becomes live or is tombstoned, which channels appear, and
    who joins and leaves them. */
module WsEffects {
  import opened Common
  import opened WsState
  import opened WsInvariants
  import opened WsAccounting
  import opened WsRuns

  /** The connection `id` takes over the tombstone of `prev`. */
  predicate Succeeds(s: State, id: ID, prev: ID)
    requires id in s.conns
  {
    prev in s.tombs && s.tombs[prev].conn.ip == s.conns[id].ip
  }

  // ---------- Connections ----------

  predicate BecomesLive(s: State, step: Step, id: ID)
    requires step.SReconnect? ==> step.id in s.conns
  {
    (step.SAdd? && step.id == id) || (step.SReconnect? && step.prev == id && Succeeds(s, step.id, id))
  }

  predicate StopsLiving(s: State, step: Step, id: ID)
    requires step.SReconnect? ==> step.id in s.conns
  {
    step == SClose(id) || (step.SReconnect? && step.id == id && Succeeds(s, id, step.prev))
  }

  lemma SameConns(cfg: Config, s: State, step: Step, now: int)
    requires Sound(s) && Enabled(cfg, s, step) && !step.SAdd? && !step.SClose? && !step.SReconnect?
    ensures Apply(cfg, s, step, now).conns.Keys == s.conns.Keys
  {
    match step
    case SExpire(id) => ExpireConns(s, id, now);
    case SEnter(_, _, _) => MessageKeepsHosts(cfg, s, step, now);
    case SCreate(_, _, _, _) => MessageKeepsHosts(cfg, s, step, now);
    case SCreateAndEnter(_, _, _, _, _) => MessageKeepsHosts(cfg, s, step, now);
    case SLeave(id, key) => LeavingKeepsHosts(s, id, key, now);
    case SCloseChannel(key) => ClosingKeepsHosts(s, key);
    case SSweepChannel(key) => ClosingKeepsHosts(s, key);
    case _ =>
  }

  lemma ExpireConns(s: State, id: ID, now: int)
    requires id in s.tombs && id !in s.conns
    ensures Expire(s, id, now).conns.Keys == s.conns.Keys
  {
  }

  lemma LiveExactly(cfg: Config, s: State, step: Step, now: int, id: ID)
    requires Sound(s) && Enabled(cfg, s, step)
    ensures id in Apply(cfg, s, step, now).conns <==> BecomesLive(s, step, id) || (id in s.conns && !StopsLiving(s, step, id))
  {
    if !step.SAdd? && !step.SClose? && !step.SReconnect? { SameConns(cfg, s, step, now); }
  }

  // ---------- Tombstones ----------

  predicate IsDue(s: State, id: ID, now: int) {
    id in s.tombs && now > s.tombs[id].expiresAt
  }

  /** A tombstone is put up by a closing that is not final, and is gone with its expiry, with a reconnect of its IP, and
      with an addition under its ID. */
  predicate TombstonedAfter(s: State, step: Step, now: int, id: ID)
    requires step.SReconnect? || step.SClose? ==> step.id in s.conns
  {
    if step == SClose(id) then !s.conns[id].ready
    else id in s.tombs && !BecomesLive(s, step, id) && !(step == SExpire(id) && IsDue(s, id, now))
  }

  lemma SameTombs(cfg: Config, s: State, step: Step, now: int)
    requires Sound(s) && Enabled(cfg, s, step)
    requires !step.SAdd? && !step.SClose? && !step.SReconnect? && !step.SExpire? && !step.SCloseAgain?
    ensures Apply(cfg, s, step, now).tombs == s.tombs
  {
  }

  lemma TombsExactly(cfg: Config, s: State, step: Step, now: int, id: ID)
    requires Sound(s) && Enabled(cfg, s, step)
    ensures id in Apply(cfg, s, step, now).tombs <==> TombstonedAfter(s, step, now, id)
  {
    if step.SClose? {
      ClosedTombs(cfg, s, step.id, now, id);
    } else if !step.SAdd? && !step.SReconnect? && !step.SExpire? && !step.SCloseAgain? {
      SameTombs(cfg, s, step, now);
    }
  }

  lemma ClosedTombs(cfg: Config, s: State, who: ID, now: int, id: ID)
    requires Sound(s) && who in s.conns
    ensures id in Close(cfg, s, who, now).tombs <==> if who == id then !s.conns[id].ready else id in s.tombs
  {
  }

  /** What a closing leaves to come back to: its channels, and the time until which it may come back. */
  lemma TombstoneHolds(cfg: Config, s: State, id: ID, now: int)
    requires Sound(s) && id in s.conns && !s.conns[id].ready
    ensures var t := Apply(cfg, s, SClose(id), now);
      && id in t.tombs && t.tombs[id].channels == s.conns[id].channels && t.tombs[id].conn.ip == s.conns[id].ip
      && t.tombs[id].expiresAt == now + cfg.reconnection
  {
  }

  // ---------- Channels ----------

  /** The step asks for the channel k. */
  predicate AsksFor(step: Step, k: Key) {
    (step.SCreate? || step.SCreateAndEnter?) && step.key == k && step.valid
  }

  function Asker(step: Step): ID
    requires step.SCreate? || step.SCreateAndEnter?
  {
    match step
    case SCreate(creator, _, _, _) => if creator.Some? then creator.value else ""
    case SCreateAndEnter(id, _, _, _, _) => id
    case _ => ""
  }

  /** A new channel comes from a valid request for its key within the quota, and is what was asked for. */
  lemma AppearsExactly(cfg: Config, s: State, step: Step, now: int, k: Key)
    requires Sound(s) && Enabled(cfg, s, step) && k !in s.chans
    ensures k in Apply(cfg, s, step, now).chans <==>
      AsksFor(step, k) && (Asker(step) in s.conns && cfg.maxChannels > 0 ==> s.conns[Asker(step)].created < cfg.maxChannels)
    ensures k in Apply(cfg, s, step, now).chans ==>
      var ch := Apply(cfg, s, step, now).chans[k]; ch.proprietary == step.proprietary && ch.creator == Asker(step)
  {
    if step.SCreate? || step.SCreateAndEnter? {
      Creating(cfg, s, step, now, k);
    } else {
      NoneAppears(cfg, s, step, now);
    }
  }

  lemma Creating(cfg: Config, s: State, step: Step, now: int, k: Key)
    requires Sound(s) && Enabled(cfg, s, step) && k !in s.chans && (step.SCreate? || step.SCreateAndEnter?)
    ensures k in Apply(cfg, s, step, now).chans <==>
      AsksFor(step, k) && (Asker(step) in s.conns && cfg.maxChannels > 0 ==> s.conns[Asker(step)].created < cfg.maxChannels)
    ensures k in Apply(cfg, s, step, now).chans ==>
      var ch := Apply(cfg, s, step, now).chans[k]; ch.proprietary == step.proprietary && ch.creator == Asker(step)
  {
    var creator := if step.SCreate? then step.creator else Some(step.id);
    Created(cfg, s, creator, step.key, step.proprietary, step.valid, now, k);
    if step.SCreateAndEnter? {
      Entered(CreateChannel(cfg, s, creator, step.key, step.proprietary, step.valid, now), step.id, step.key, step.admitted, now, k);
    }
  }

  lemma Created(cfg: Config, s: State, creator: Option<ID>, key: Key, proprietary: bool, valid: bool, now: int, k: Key)
    requires k !in s.chans && (creator.Some? ==> creator.value in s.conns)
    ensures var t := CreateChannel(cfg, s, creator, key, proprietary, valid, now);
      && (creator.Some? ==> creator.value in t.conns)
      && (k in t.chans <==> k == key && valid && (creator.Some? && cfg.maxChannels > 0 ==> s.conns[creator.value].created < cfg.maxChannels))
      && (k in t.chans ==> t.chans[k].proprietary == proprietary && t.chans[k].creator == if creator.Some? then creator.value else "")
  {
  }

  lemma Entered(s: State, id: ID, key: Key, allowed: bool, now: int, k: Key)
    requires id in s.conns
    ensures var t := Enter(s, id, key, allowed, now); (k in t.chans <==> k in s.chans) && (k in s.chans ==> SameTerms(s.chans[k], t.chans[k]))
  {
  }

  lemma NoneAppears(cfg: Config, s: State, step: Step, now: int)
    requires Enabled(cfg, s, step) && !step.SCreate? && !step.SCreateAndEnter?
    ensures Apply(cfg, s, step, now).chans.Keys <= s.chans.Keys
  {
  }

  // ---------- Members ----------

  function MembersOf(s: State, k: Key): set<ID> {
    if k in s.chans then s.chans[k].members else {}
  }

  /** The step takes id into the channel k. */
  predicate LetsIn(s: State, step: Step, k: Key, id: ID)
    requires step.SReconnect? ==> step.id in s.conns
  {
    match step
    case SEnter(who, key, allowed) => who == id && key == k && allowed
    case SCreateAndEnter(who, key, _, _, admitted) => who == id && key == k && admitted && k !in s.chans
    case SReconnect(who, prev) => prev == id && Succeeds(s, who, id) && k in s.tombs[id].channels
    case _ => false
  }

  /** The step takes id out of the channel k. */
  predicate LetsOut(step: Step, k: Key, id: ID) {
    step == SLeave(id, k) || step == SClose(id)
  }

  ghost predicate MembersAre(s: State, t: State, step: Step, k: Key)
    requires step.SReconnect? ==> step.id in s.conns
  {
    k in t.chans ==> forall id ::
      id in t.chans[k].members <==> LetsIn(s, step, k, id) || (id in MembersOf(s, k) && !LetsOut(step, k, id))
  }

  lemma EntryMembers(s: State, id: ID, key: Key, allowed: bool, now: int, k: Key)
    requires id in s.conns
    ensures MembersAre(s, Enter(s, id, key, allowed, now), SEnter(id, key, allowed), k)
  {
  }

  lemma LeaveMembers(s: State, id: ID, key: Key, now: int, k: Key)
    requires id in s.conns
    ensures MembersAre(s, Leave(s, id, key, now), SLeave(id, key), k)
  {
  }

  lemma CreateMembers(cfg: Config, s: State, step: Step, now: int, k: Key)
    requires Enabled(cfg, s, step) && (step.SCreate? || step.SCreateAndEnter?)
    ensures MembersAre(s, Apply(cfg, s, step, now), step, k)
  {
  }

  lemma CloseMembers(cfg: Config, s: State, id: ID, now: int, k: Key)
    requires Sound(s) && id in s.conns
    ensures MembersAre(s, Close(cfg, s, id, now), SClose(id), k)
  {
  }

  lemma ReconnectMembers(s: State, id: ID, prev: ID, now: int, k: Key)
    requires Sound(s) && id in s.conns && s.conns[id].channels == {}
    ensures MembersAre(s, Reconnect(s, id, prev, now), SReconnect(id, prev), k)
  {
  }

  lemma ExpireMembers(s: State, id: ID, now: int, k: Key)
    requires Sound(s) && id in s.tombs
    ensures MembersAre(s, Expire(s, id, now), SExpire(id), k)
  {
  }

  lemma PlainMembers(cfg: Config, s: State, step: Step, now: int, k: Key)
    requires Enabled(cfg, s, step) && (Plain(step) || step.SCloseChannel? || step.SSweepChannel?)
    ensures MembersAre(s, Apply(cfg, s, step, now), step, k)
  {
  }

  /** Of a channel that is there after a step, the members are who was let in and who was in and has not left. */
  lemma MembersExactly(cfg: Config, s: State, step: Step, now: int, k: Key)
    requires Sound(s) && Enabled(cfg, s, step)
    ensures MembersAre(s, Apply(cfg, s, step, now), step, k)
  {
    match step
    case SEnter(id, key, allowed) => EntryMembers(s, id, key, allowed, now, k);
    case SLeave(id, key) => LeaveMembers(s, id, key, now, k);
    case SCreate(_, _, _, _) => CreateMembers(cfg, s, step, now, k);
    case SCreateAndEnter(_, _, _, _, _) => CreateMembers(cfg, s, step, now, k);
    case SClose(id) => CloseMembers(cfg, s, id, now, k);
    case SReconnect(id, prev) => ReconnectMembers(s, id, prev, now, k);
    case SExpire(id) => ExpireMembers(s, id, now, k);
    case _ => PlainMembers(cfg, s, step, now, k);
  }

  // ---------- The default channel ----------

  predicate HasDefault(cfg: Config, s: State) {
    cfg.defaultKey != "" ==>
      cfg.defaultKey in s.chans && !s.chans[cfg.defaultKey].proprietary && s.chans[cfg.defaultKey].creator == ""
  }

  /** The server starts with the default channel, if one is configured, and with nothing else. */
  lemma InitExactly(cfg: Config, start: int)
    ensures var s := Init(cfg, start);
      && HasDefault(cfg, s) && s.chans.Keys == (if cfg.defaultKey == "" then {} else {cfg.defaultKey})
      && s.conns == map[] && s.tombs == map[] && s.ips == map[] && s.requests == map[]
  {
  }

  /** ... and keeps it, whatever happens, unless it is closed by name. */
  lemma {:induction false} RunDefault(cfg: Config, start: int, es: seq<Event>, ss: seq<State>, n: nat)
    requires IsRun(cfg, start, es, ss) && n <= |es|
    requires forall i :: 0 <= i < n ==> es[i].step != SCloseChannel(cfg.defaultKey)
    ensures HasDefault(cfg, ss[n])
  {
    if n == 0 {
      InitExactly(cfg, start);
    } else if cfg.defaultKey != "" {
      RunDefault(cfg, start, es, ss, n - 1);
      DefaultStays(cfg, start, es, ss, n - 1);
    }
  }

  lemma DefaultStays(cfg: Config, start: int, es: seq<Event>, ss: seq<State>, n: nat)
    requires IsRun(cfg, start, es, ss) && n < |es| && HasDefault(cfg, ss[n]) && cfg.defaultKey != ""
    requires es[n].step != SCloseChannel(cfg.defaultKey)
    ensures HasDefault(cfg, ss[n + 1])
  {
    RunConsistent(cfg, start, es, ss, n);
    EndsExactly(cfg, ss[n], es[n].step, es[n].now, cfg.defaultKey);
  }
}
