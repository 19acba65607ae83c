/** Messages of a connection that is closed already. Break tombstones a connection while Handle is still reading: frames
    that are in its buffer by then are handled, until the deferred second Close. They change the channels, and the
    connection's own record, but not what the tombstone has copied from it. Meanwhile the server goes on: another
    connection may take the ID over, or the tombstone may expire. */
module WsLate {
  import opened Common
  import opened WsState
  import opened WsInvariants
  import opened WsAccounting
  import opened WsLeaving
  import opened WsRuns

  /** The server, and the record of one connection that Break has closed. `mine` says that the tombstone under its ID is
      still its own; `lost` are the late channels it forgot when that tombstone expired. */
  datatype Late = Late(s: State, own: Conn, mine: bool, lost: set<Key>)

  predicate Broken(s: State, id: ID) {
    id in s.tombs && s.tombs[id].conn.status == Disconnected
  }

  /** Directly behind Break. */
  function Start(s: State, id: ID): Late
    requires id in s.tombs
  {
    Late(s, s.tombs[id].conn, true, {})
  }

  // ---------- Late messages ----------

  /** Whether it is a member already is looked up by its ID. */
  function LateEnter(x: Late, id: ID, key: Key, allowed: bool, now: int): Late {
    if key !in x.s.chans || (id !in x.s.chans[key].members && !allowed) then x
    else
      x.(s := if id in x.s.chans[key].members then x.s else AddMember(x.s, key, id, now),
         own := x.own.(channels := x.own.channels + {key}))
  }

  function LateLeave(x: Late, id: ID, key: Key, now: int): Late {
    if key !in x.s.chans || id !in x.s.chans[key].members then x
    else x.(s := LeaveChannel(x.s, key, id, x.own.status, now), own := x.own.(channels := x.own.channels - {key}))
  }

  /** The limit is checked against the connection's own count. */
  predicate LateAllowed(cfg: Config, x: Late, key: Key, valid: bool) {
    (cfg.maxChannels > 0 ==> x.own.created < cfg.maxChannels) && key !in x.s.chans && valid
  }

  function LateCreate(cfg: Config, x: Late, id: ID, key: Key, proprietary: bool, valid: bool, now: int): Late {
    if !LateAllowed(cfg, x, key, valid) then x
    else x.(s := x.s.(chans := x.s.chans[key := Chan(proprietary, id, {}, Some(now))]), own := x.own.(created := x.own.created + 1))
  }

  function LateCreateAndEnter(cfg: Config, x: Late, id: ID, key: Key, proprietary: bool, valid: bool, admitted: bool, now: int): Late {
    if !LateAllowed(cfg, x, key, valid) then x
    else LateEnter(LateCreate(cfg, x, id, key, proprietary, valid, now), id, key, admitted, now)
  }

  /** A step of the server. The sweep of the connection's own tombstone closes the connection, after giving it the
      tombstone's channels for its own. */
  function OtherStep(cfg: Config, x: Late, id: ID, step: Step, now: int): Late
    requires Enabled(cfg, x.s, step)
  {
    var t := Apply(cfg, x.s, step, now);
    if x.mine && step == SExpire(id) && id !in t.tombs then
      Late(t, x.own.(status := Closed, channels := {}), false, x.lost + x.own.channels)
    else x.(s := t, mine := x.mine && id in t.tombs)
  }

  /** The server with the connection's own record in its tombstone, where that is its own. */
  function Filed(x: Late, id: ID): State
    requires x.mine ==> id in x.s.tombs
  {
    if x.mine then x.s.(tombs := x.s.tombs[id := x.s.tombs[id].(conn := x.own)]) else x.s
  }

  /** The deferred second Close leaves what the connection's own record lists, in some order; the ID may be another's by
      then. */
  function LastClose(x: Late, id: ID, order: seq<Key>, now: int): State
    requires x.mine ==> id in x.s.tombs
  {
    if x.own.status == Closed then x.s
    else LeaveEach(if x.mine then Buried(Filed(x, id), id) else x.s, order, id, Closed, now)
  }

  // ---------- Sound but for one connection ----------

  /** Sound, but that `id` may be a member of the channels `keys` whatever the connection under that ID lists. */
  predicate SoundBut(s: State, id: ID, keys: set<Key>) {
    && Ids(s)
    && (forall k, i :: k in s.chans && i in s.chans[k].members && !(i == id && k in keys) ==> i in s.conns && k in s.conns[i].channels)
    && (forall i, k :: i in s.conns && k in s.conns[i].channels ==> k in s.chans && i in s.chans[k].members)
  }

  lemma ButNothing(s: State, id: ID)
    ensures SoundBut(s, id, {}) <==> Sound(s)
  {
  }

  lemma ButLeaveAll(s: State, keys: set<Key>, who: ID, status: Status, now: int, id: ID, late: set<Key>)
    requires Ids(s) && who !in s.conns
    requires forall k, i :: k in s.chans && i in s.chans[k].members && !(i == who && k in keys) && !(i == id && k in late) ==>
      i in s.conns && k in s.conns[i].channels
    requires forall i, k :: i in s.conns && k in s.conns[i].channels ==> k in s.chans && i in s.chans[k].members
    ensures SoundBut(LeaveAll(s, keys, who, status, now), id, late)
  {
  }

  lemma ButClose(cfg: Config, s: State, who: ID, now: int, id: ID, late: set<Key>)
    requires SoundBut(s, id, late) && who in s.conns
    ensures SoundBut(Close(cfg, s, who, now), id, late)
  {
    if s.conns[who].ready {
      ButLeaveAll(RemoveImmediate(s, who), s.conns[who].channels, who, Closed, now, id, late);
    } else {
      ButBreak(cfg, s, who, now, id, late);
    }
  }

  lemma ButBreak(cfg: Config, s: State, who: ID, now: int, id: ID, late: set<Key>)
    requires SoundBut(s, id, late) && who in s.conns && !s.conns[who].ready
    ensures SoundBut(Close(cfg, s, who, now), id, late)
  {
    var c, m := s.conns[who], MarkDisconnected(cfg, s, who, now);
    var m' := m.(tombs := m.tombs[who := m.tombs[who].(conn := c.(status := Disconnected, channels := {}))]);
    ButLeaveAll(m', c.channels, who, Disconnected, now, id, late);
  }

  lemma ButExpire(s: State, who: ID, now: int, id: ID, late: set<Key>)
    requires SoundBut(s, id, late) && who in s.tombs
    ensures SoundBut(Expire(s, who, now), id, late)
  {
    if now > s.tombs[who].expiresAt {
      var gone := s.(conns := s.conns - {who}, requests := s.requests - {who}, tombs := s.tombs - {who});
      assert gone.conns == s.conns && SoundBut(gone, id, late);
      ButLeaveAll(gone, s.tombs[who].channels, who, Closed, now, id, late);
    }
  }

  lemma ButCloseChannel(s: State, key: Key, id: ID, late: set<Key>)
    requires SoundBut(s, id, late)
    ensures SoundBut(CloseChannel(s, key), id, late)
  {
  }

  lemma ButLeave(s: State, who: ID, key: Key, now: int, id: ID, late: set<Key>)
    requires SoundBut(s, id, late) && who in s.conns
    ensures SoundBut(Leave(s, who, key, now), id, late)
  {
    if key in s.chans && who in s.chans[key].members {
      ButLeft(s, who, key, now, id, late);
      ButCloseChannel(Left(s, who, key, now), key, id, late);
    }
  }

  lemma ButLeft(s: State, who: ID, key: Key, now: int, id: ID, late: set<Key>)
    requires SoundBut(s, id, late) && who in s.conns && key in s.chans
    ensures SoundBut(Left(s, who, key, now), id, late)
  {
    var t := Left(s, who, key, now);
    forall k, i | k in t.chans && i in t.chans[k].members && !(i == id && k in late) ensures i in t.conns && k in t.conns[i].channels {
      assert i in s.chans[k].members;
    }
    forall i, k | i in t.conns && k in t.conns[i].channels ensures k in t.chans && i in t.chans[k].members {
      assert k in s.conns[i].channels;
    }
  }

  lemma ButEnter(s: State, who: ID, key: Key, allowed: bool, now: int, id: ID, late: set<Key>)
    requires SoundBut(s, id, late) && who in s.conns
    ensures SoundBut(Enter(s, who, key, allowed, now), id, late)
  {
  }

  lemma ButCreate(cfg: Config, s: State, creator: Option<ID>, key: Key, proprietary: bool, valid: bool, now: int, id: ID, late: set<Key>)
    requires SoundBut(s, id, late) && (creator.Some? ==> creator.value in s.conns)
    ensures SoundBut(CreateChannel(cfg, s, creator, key, proprietary, valid, now), id, late)
  {
  }

  lemma ButReconnect(s: State, who: ID, prev: ID, now: int, id: ID, late: set<Key>)
    requires SoundBut(s, id, late) && who in s.conns && s.conns[who].channels == {}
    ensures SoundBut(Reconnect(s, who, prev, now), id, late)
  {
  }

  lemma ButPlain(cfg: Config, s: State, step: Step, now: int, id: ID, late: set<Key>)
    requires SoundBut(s, id, late) && Enabled(cfg, s, step) && Plain(step)
    ensures SoundBut(Apply(cfg, s, step, now), id, late)
  {
    if step.SAdd? { ButAdd(s, step.id, step.ip, id, late); }
  }

  lemma ButAdd(s: State, who: ID, ip: string, id: ID, late: set<Key>)
    requires SoundBut(s, id, late) && Fresh(s, who)
    ensures SoundBut(Add(s, who, ip), id, late)
  {
  }

  /** Whatever the server does, it stays sound but for that connection. */
  lemma ButStep(cfg: Config, s: State, step: Step, now: int, id: ID, late: set<Key>)
    requires SoundBut(s, id, late) && Enabled(cfg, s, step)
    ensures SoundBut(Apply(cfg, s, step, now), id, late)
  {
    match step
    case SEnter(who, key, allowed) => ButEnter(s, who, key, allowed, now, id, late);
    case SLeave(who, key) => ButLeave(s, who, key, now, id, late);
    case SCreate(creator, key, proprietary, valid) => ButCreate(cfg, s, creator, key, proprietary, valid, now, id, late);
    case SCreateAndEnter(who, key, proprietary, valid, admitted) =>
      ButCreate(cfg, s, Some(who), key, proprietary, valid, now, id, late);
      ButEnter(CreateChannel(cfg, s, Some(who), key, proprietary, valid, now), who, key, admitted, now, id, late);
    case SCloseChannel(key) => ButCloseChannel(s, key, id, late);
    case SSweepChannel(key) => ButCloseChannel(s, key, id, late);
    case SClose(who) => ButClose(cfg, s, who, now, id, late);
    case SReconnect(who, prev) => ButReconnect(s, who, prev, now, id, late);
    case SExpire(who) => ButExpire(s, who, now, id, late);
    case _ => ButPlain(cfg, s, step, now, id, late);
  }

  // ---------- Any sequence of late messages and other steps ----------

  /** The connection that is live under the ID lists the channel. */
  predicate Listed(s: State, id: ID, key: Key) {
    id in s.conns && key in s.conns[id].channels
  }

  /** The server is sound but for what the closed connection has entered late. */
  predicate Fine(x: Late, id: ID) {
    && (x.own.status == Closed || (x.own.status == Disconnected && x.lost == {}))
    && (x.mine ==> Broken(x.s, id) && x.own.status == Disconnected)
    && SoundBut(x.s, id, x.own.channels + x.lost)
  }

  lemma StartFine(s: State, id: ID)
    requires Sound(s) && Broken(s, id)
    ensures Fine(Start(s, id), id)
  {
    ButNothing(s, id);
  }

  lemma LateEnterFine(x: Late, id: ID, key: Key, allowed: bool, now: int)
    requires Fine(x, id)
    ensures Fine(LateEnter(x, id, key, allowed, now), id)
  {
  }

  lemma LateCreateFine(cfg: Config, x: Late, id: ID, key: Key, proprietary: bool, valid: bool, now: int)
    requires Fine(x, id)
    ensures Fine(LateCreate(cfg, x, id, key, proprietary, valid, now), id)
  {
  }

  /** Two ends of a membership that no longer agree: the ID's connection lists a channel that does not list it. */
  predicate Torn(s: State, id: ID, key: Key) {
    Listed(s, id, key) && (key !in s.chans || id !in s.chans[key].members)
  }

  lemma LeaveUnlisted(s: State, id: ID, key: Key, status: Status, now: int, late: set<Key>)
    requires SoundBut(s, id, late) && !Listed(s, id, key)
    ensures var t := LeaveChannel(s, key, id, status, now);
      SoundBut(t, id, late - {key}) && (forall k :: Listed(t, id, k) ==> Listed(s, id, k)) && t.tombs == s.tombs
  {
    if key in s.chans {
      var left := s.(chans := s.chans[key := WithMembers(s.chans[key], s.chans[key].members - {id}, now)]);
      assert SoundBut(left, id, late - {key});
      ButCloseChannel(left, key, id, late - {key});
    }
  }

  lemma LeaveListed(s: State, id: ID, key: Key, status: Status, now: int)
    requires Listed(s, id, key)
    ensures Torn(LeaveChannel(s, key, id, status, now), id, key)
  {
  }

  /** A late departure keeps this exactly if the connection under the ID does not list the channel. */
  lemma LateLeaveFine(x: Late, id: ID, key: Key, now: int)
    requires Fine(x, id)
    ensures Fine(LateLeave(x, id, key, now), id) <==> !Listed(x.s, id, key)
  {
    var late := x.own.channels + x.lost;
    if Listed(x.s, id, key) {
      LeaveListed(x.s, id, key, x.own.status, now);
    } else {
      LeaveUnlisted(x.s, id, key, x.own.status, now, late);
    }
  }

  lemma OtherFine(cfg: Config, x: Late, id: ID, step: Step, now: int)
    requires Fine(x, id) && Enabled(cfg, x.s, step) && (x.mine ==> step != SCloseAgain(id))
    ensures Fine(OtherStep(cfg, x, id, step, now), id)
  {
    ButStep(cfg, x.s, step, now, id, x.own.channels + x.lost);
    if x.mine && id in Apply(cfg, x.s, step, now).tombs { StaysBroken(cfg, x.s, step, now, id); }
  }

  lemma StaysBroken(cfg: Config, s: State, step: Step, now: int, id: ID)
    requires Ids(s) && Broken(s, id) && Enabled(cfg, s, step) && step != SCloseAgain(id) && id in Apply(cfg, s, step, now).tombs
    ensures Broken(Apply(cfg, s, step, now), id)
  {
  }

  datatype Move = Enters(key: Key, allowed: bool) | Leaves(key: Key) | Creates(key: Key, proprietary: bool, valid: bool) | Serves(step: Step)

  predicate CanMove(cfg: Config, x: Late, id: ID, m: Move) {
    m.Serves? ==> Enabled(cfg, x.s, m.step) && (x.mine ==> m.step != SCloseAgain(id))
  }

  function After(cfg: Config, x: Late, id: ID, m: Move, now: int): Late
    requires CanMove(cfg, x, id, m)
  {
    match m
    case Enters(key, allowed) => LateEnter(x, id, key, allowed, now)
    case Leaves(key) => LateLeave(x, id, key, now)
    case Creates(key, proprietary, valid) => LateCreate(cfg, x, id, key, proprietary, valid, now)
    case Serves(step) => OtherStep(cfg, x, id, step, now)
  }

  predicate IsLateRun(cfg: Config, id: ID, ms: seq<Move>, times: seq<int>, xs: seq<Late>) {
    |times| == |ms| && |xs| == |ms| + 1 && forall i {:trigger ms[i]} :: 0 <= i < |ms| ==>
      CanMove(cfg, xs[i], id, ms[i]) && xs[i + 1] == After(cfg, xs[i], id, ms[i], times[i])
  }

  /** From Break on, through any late messages and whatever else the server does: the tables are sound but for the late
      entries, up to a late departure from a channel that a new owner of the ID lists. */
  lemma {:induction false} LateRun(cfg: Config, id: ID, ms: seq<Move>, times: seq<int>, xs: seq<Late>, n: nat)
    requires IsLateRun(cfg, id, ms, times, xs) && n <= |ms| && Broken(xs[0].s, id) && Sound(xs[0].s) && xs[0] == Start(xs[0].s, id)
    requires forall i :: 0 <= i < n && ms[i].Leaves? ==> !Listed(xs[i].s, id, ms[i].key)
    ensures Fine(xs[n], id)
  {
    if n == 0 {
      StartFine(xs[0].s, id);
    } else {
      LateRun(cfg, id, ms, times, xs, n - 1);
      var x, m, now := xs[n - 1], ms[n - 1], times[n - 1];
      assert CanMove(cfg, x, id, m) && xs[n - 1 + 1] == After(cfg, x, id, m, now);
      match m
      case Enters(key, allowed) => LateEnterFine(x, id, key, allowed, now);
      case Leaves(key) => LateLeaveFine(x, id, key, now);
      case Creates(key, proprietary, valid) => LateCreateFine(cfg, x, id, key, proprietary, valid, now);
      case Serves(step) => OtherFine(cfg, x, id, step, now);
    }
  }

  // ---------- The second Close ----------

  lemma TornStays(s: State, id: ID, key: Key, other: Key, status: Status, now: int)
    requires Torn(s, id, key)
    ensures Torn(LeaveChannel(s, other, id, status, now), id, key)
  {
  }

  lemma ListedStays(s: State, id: ID, key: Key, other: Key, status: Status, now: int)
    requires Listed(s, id, key)
    ensures Listed(LeaveChannel(s, other, id, status, now), id, key)
  {
  }

  lemma {:induction false} LeaveEachUnlisted(s: State, id: ID, order: seq<Key>, now: int, late: set<Key>)
    requires SoundBut(s, id, late) && forall k :: k in order ==> !Listed(s, id, k)
    ensures SoundBut(LeaveEach(s, order, id, Closed, now), id, late - Elements(order))
    ensures forall k :: Listed(LeaveEach(s, order, id, Closed, now), id, k) ==> Listed(s, id, k)
  {
    if order == [] {
      assert late - Elements(order) == late;
    } else {
      var most, last := order[..|order| - 1], order[|order| - 1];
      LeaveEachUnlisted(s, id, most, now, late);
      LeaveUnlisted(LeaveEach(s, most, id, Closed, now), id, last, Closed, now, late - Elements(most));
      assert late - Elements(order) == late - Elements(most) - {last};
    }
  }

  lemma {:induction false} LeaveEachListed(s: State, id: ID, order: seq<Key>, now: int, key: Key)
    requires Listed(s, id, key)
    ensures Listed(LeaveEach(s, order, id, Closed, now), id, key)
    ensures key in order ==> Torn(LeaveEach(s, order, id, Closed, now), id, key)
  {
    if order != [] {
      var most, last := order[..|order| - 1], order[|order| - 1];
      var t := LeaveEach(s, most, id, Closed, now);
      LeaveEachListed(s, id, most, now, key);
      ListedStays(t, id, key, last, Closed, now);
      if last == key { LeaveListed(t, id, key, Closed, now); }
      else if key in most { TornStays(t, id, key, last, Closed, now); }
    }
  }

  /** The second Close makes the tables sound again if and only if no channel entered late is listed by a new owner of the
      ID. Its loop may take any order. */
  lemma SecondCloseExactly(x: Late, id: ID, order: seq<Key>, now: int)
    requires Fine(x, id) && x.own.status == Disconnected && Elements(order) == x.own.channels
    ensures Sound(LastClose(x, id, order, now)) <==> forall k :: k in x.own.channels ==> !Listed(x.s, id, k)
  {
    var s := if x.mine then Buried(Filed(x, id), id) else x.s;
    assert SoundBut(s, id, x.own.channels);
    forall k ensures k in order <==> k in x.own.channels { assert k in order <==> k in Elements(order); }
    if k :| k in x.own.channels && Listed(x.s, id, k) {
      LeaveEachListed(s, id, order, now, k);
    } else {
      LeaveEachUnlisted(s, id, order, now, x.own.channels);
      assert x.own.channels - Elements(order) == {};
      ButNothing(LeaveEach(s, order, id, Closed, now), id);
    }
  }

  /** While nobody has taken the ID over, that is so; and of the channels entered late none is left that the connection
      owns. */
  lemma SecondCloseRepairs(x: Late, id: ID, order: seq<Key>, now: int)
    requires Fine(x, id) && x.own.status == Disconnected && Distinct(order) && Elements(order) == x.own.channels && id !in x.s.conns
    ensures Sound(LastClose(x, id, order, now))
    ensures forall k :: k in x.own.channels && k in LastClose(x, id, order, now).chans ==> !OwnedBy(LastClose(x, id, order, now).chans[k], id)
  {
    SecondCloseExactly(x, id, order, now);
    LeaveEachIsLeaveAll(if x.mine then Buried(Filed(x, id), id) else x.s, order, id, Closed, now);
  }

  /** It is what Close makes of a tombstoned connection, in whatever order; where nothing was entered late, as in every
      run, that is a change of status and no more. */
  lemma LastCloseIsSecondClose(x: Late, id: ID, order: seq<Key>, now: int)
    requires Fine(x, id) && x.mine && Distinct(order) && Elements(order) == x.own.channels
    ensures LastClose(x, id, order, now) == SecondClose(Filed(x, id), id, now)
    ensures x == Start(x.s, id) ==> LastClose(x, id, order, now) == CloseAgain(x.s, id)
  {
    LeaveEachIsLeaveAll(Buried(Filed(x, id), id), order, id, Closed, now);
    if x == Start(x.s, id) {
      assert Filed(x, id).tombs == x.s.tombs;
      LeaveNothing(Buried(x.s, id), id, Closed, now);
    }
  }

  /** Once the tombstone has expired, the second Close does nothing: what is not sound by then stays so. */
  lemma SecondCloseTooLate(x: Late, id: ID, order: seq<Key>, now: int)
    requires Fine(x, id) && x.own.status == Closed
    ensures LastClose(x, id, order, now) == x.s
    ensures Sound(x.s) <==> forall k :: k in x.own.channels + x.lost && k in x.s.chans && id in x.s.chans[k].members ==> Listed(x.s, id, k)
  {
  }

  // ---------- Inputs for which it fails ----------

  /** A late entry that succeeds gives the channel a member that no lookup finds. */
  lemma LateEnterSound(s: State, id: ID, key: Key, allowed: bool, now: int)
    requires Sound(s) && Broken(s, id)
    ensures Sound(LateEnter(Start(s, id), id, key, allowed, now).s) <==> key !in s.chans || !allowed
    ensures var t := LateEnter(Start(s, id), id, key, allowed, now).s;
      t != s ==> key in t.chans && id in t.chans[key].members && id !in t.conns
  {
    if key in s.chans && allowed {
      var t := LateEnter(Start(s, id), id, key, allowed, now).s;
      assert id !in s.chans[key].members && id in t.chans[key].members && id !in t.conns;
    }
  }

  /** A channel that the tombstone lists is entered late, and another connection takes the ID over: all is sound again. */
  lemma TakenOver(cfg: Config, s: State, id: ID, other: ID, key: Key, now: int) returns (y: Late)
    requires Sound(s) && Broken(s, id) && key in s.tombs[id].channels && key in s.chans
    requires Enabled(cfg, s, SReconnect(other, id)) && s.conns[other].ip == s.tombs[id].conn.ip
    ensures var x := LateEnter(Start(s, id), id, key, true, now);
      Enabled(cfg, x.s, SReconnect(other, id)) && y == OtherStep(cfg, x, id, SReconnect(other, id), now)
    ensures Sound(y.s) && Listed(y.s, id, key) && y.own.channels == {key} && y.own.status == Disconnected && !y.mine
    ensures OwnedBy(s.chans[key], id) ==> OwnedBy(y.s.chans[key], id)
  {
    var x := LateEnter(Start(s, id), id, key, true, now);
    y := OtherStep(cfg, x, id, SReconnect(other, id), now);
    FineBehind(cfg, s, id, key, SReconnect(other, id), now);
    assert y.s == Reconnect(x.s, other, id, now);
    assert y.s.conns[id].channels == s.tombs[id].channels * s.chans.Keys;
    OnlyListed(y, id, key);
  }

  lemma FineBehind(cfg: Config, s: State, id: ID, key: Key, step: Step, now: int)
    requires Sound(s) && Broken(s, id) && step != SCloseAgain(id)
    requires Enabled(cfg, LateEnter(Start(s, id), id, key, true, now).s, step)
    ensures Fine(OtherStep(cfg, LateEnter(Start(s, id), id, key, true, now), id, step, now), id)
  {
    StartFine(s, id);
    LateEnterFine(Start(s, id), id, key, true, now);
    OtherFine(cfg, LateEnter(Start(s, id), id, key, true, now), id, step, now);
  }

  lemma OnlyListed(y: Late, id: ID, key: Key)
    requires Fine(y, id) && y.own.channels == {key} && y.lost == {} && Listed(y.s, id, key)
    ensures Sound(y.s)
  {
  }

  /** ... until the second Close of the old one takes the channel from the new one, or closes it if it is theirs. */
  lemma TakenOverTorn(y: Late, id: ID, key: Key, now: int)
    requires Sound(y.s) && Listed(y.s, id, key) && y.own.channels == {key} && y.own.status == Disconnected && !y.mine
    ensures var t := LastClose(y, id, [key], now);
      !Sound(t) && Torn(t, id, key) && (OwnedBy(y.s.chans[key], id) ==> key !in t.chans)
  {
    LeaveEachListed(y.s, id, [key], now, key);
    assert [key][..0] == [] && LeaveEach(y.s, [], id, Closed, now) == y.s;
  }

  /** A channel that the tombstone does not list is entered late, and the tombstone expires: the second Close then does
      nothing, and the membership is never taken back. */
  lemma EntryForgotten(cfg: Config, s: State, id: ID, key: Key, now: int, later: int, order: seq<Key>)
    requires Sound(s) && Broken(s, id) && key !in s.tombs[id].channels && key in s.chans && later > s.tombs[id].expiresAt
    ensures var x := LateEnter(Start(s, id), id, key, true, now);
      && Enabled(cfg, x.s, SExpire(id))
      && var y := OtherStep(cfg, x, id, SExpire(id), later);
        && key in y.s.chans && id in y.s.chans[key].members && id !in y.s.conns
        && LastClose(y, id, order, later) == y.s && !Sound(y.s)
  {
    var x := LateEnter(Start(s, id), id, key, true, now);
    var y := OtherStep(cfg, x, id, SExpire(id), later);
    assert id in x.s.chans[key].members && x.s.tombs == s.tombs && x.s.conns == s.conns;
    assert y.s.tombs == s.tombs - {id} && y.own.status == Closed;
    assert key in y.s.chans && y.s.chans[key] == x.s.chans[key];
  }

  // ---------- Created channels ----------

  /** What is created late is not in the tombstone's count: the quota is covered afterwards exactly when the creation is
      refused or the count had room to spare. */
  lemma LateCreateCovered(cfg: Config, x: Late, id: ID, key: Key, proprietary: bool, valid: bool, now: int)
    requires Ids(x.s) && Covered(cfg, x.s) && id in x.s.tombs
    ensures Covered(cfg, LateCreate(cfg, x, id, key, proprietary, valid, now).s) <==>
      !LateAllowed(cfg, x, key, valid) || |CreatedBy(x.s, id)| < x.s.tombs[id].created
  {
    if LateAllowed(cfg, x, key, valid) { LateCount(cfg, x, id, key, proprietary, now); }
  }

  lemma LateCount(cfg: Config, x: Late, id: ID, key: Key, proprietary: bool, now: int)
    requires LateAllowed(cfg, x, key, true)
    ensures var t := LateCreate(cfg, x, id, key, proprietary, true, now).s;
      && t.conns == x.s.conns && t.tombs == x.s.tombs
      && forall i :: |CreatedBy(t, i)| == |CreatedBy(x.s, i)| + if i == id then 1 else 0
  {
    var t := LateCreate(cfg, x, id, key, proprietary, true, now).s;
    forall i ensures |CreatedBy(t, i)| == |CreatedBy(x.s, i)| + if i == id then 1 else 0 {
      CreatedByAfterCreate(x.s, t, key, id, i);
    }
  }

  /** A creator one short of its limit, with a correct count: one late creation, a reconnect that restores the count, and
      one more creation leave it with one channel more than the limit. */
  lemma LateCreateExceeds(cfg: Config, s: State, id: ID, other: ID, a: Key, b: Key, now: int)
    requires Sound(s) && Broken(s, id) && other in s.conns && s.conns[other].ip == s.tombs[id].conn.ip
    requires |CreatedBy(s, id)| == s.tombs[id].created == s.tombs[id].conn.created == cfg.maxChannels - 1
    requires a !in s.chans && b !in s.chans && a != b
    ensures var t := Reconnect(LateCreate(cfg, Start(s, id), id, a, false, true, now).s, other, id, now);
      id in t.conns && |CreatedBy(CreateChannel(cfg, t, Some(id), b, false, true, now), id)| == cfg.maxChannels + 1
  {
    var l := LateCreate(cfg, Start(s, id), id, a, false, true, now).s;
    LateCount(cfg, Start(s, id), id, a, false, now);
    RestoredCount(l, other, id, now);
    var t := Reconnect(l, other, id, now);
    assert b !in t.chans;
    CreatedByAfterCreate(t, CreateChannel(cfg, t, Some(id), b, false, true, now), b, id, id);
  }

  lemma RestoredCount(s: State, id: ID, prev: ID, now: int)
    requires id in s.conns && prev in s.tombs && s.conns[id].ip == s.tombs[prev].conn.ip && id != prev
    ensures var t := Reconnect(s, id, prev, now);
      && prev in t.conns && t.conns[prev].created == s.tombs[prev].created
      && t.chans.Keys == s.chans.Keys && CreatedBy(t, prev) == CreatedBy(s, prev)
  {
  }

  // ---------- Holding ----------

  /** A channel created late is held by its creator exactly when it is not proprietary, unless the tombstone happens to
      list its key. */
  lemma LateCreateHeld(cfg: Config, s: State, id: ID, key: Key, proprietary: bool, valid: bool, admitted: bool, now: int)
    requires Sound(s) && Held(s) && Broken(s, id)
    ensures Held(LateCreateAndEnter(cfg, Start(s, id), id, key, proprietary, valid, admitted, now).s) <==>
      !LateAllowed(cfg, Start(s, id), key, valid) || !proprietary || key in s.tombs[id].channels
  {
    var t := LateCreateAndEnter(cfg, Start(s, id), id, key, proprietary, valid, admitted, now).s;
    if LateAllowed(cfg, Start(s, id), key, valid) {
      assert t.chans.Keys == s.chans.Keys + {key} && t.chans[key].proprietary == proprietary && t.chans[key].creator == id;
      assert t.tombs == s.tombs && t.conns == s.conns;
      assert HeldBy(t, key, id) <==> key in s.tombs[id].channels;
    }
  }

  /** The second Close ends a late proprietary channel if its creator got in, and only then. */
  lemma LateChannelEnds(cfg: Config, s: State, id: ID, key: Key, admitted: bool, now: int, later: int)
    requires Sound(s) && Broken(s, id) && LateAllowed(cfg, Start(s, id), key, true)
    ensures var x := LateCreateAndEnter(cfg, Start(s, id), id, key, true, true, admitted, now);
      x.mine && (key !in LastClose(x, id, if admitted then [key] else [], later).chans <==> admitted)
  {
    var x := LateCreateAndEnter(cfg, Start(s, id), id, key, true, true, admitted, now);
    var filed := Buried(Filed(x, id), id);
    assert [key][..0] == [] && LeaveEach(filed, [], id, Closed, later) == filed;
    assert LeaveEach(filed, [key], id, Closed, later) == LeaveChannel(filed, key, id, Closed, later);
    assert key in filed.chans && filed.chans[key].proprietary && filed.chans[key].creator == id;
  }
}
