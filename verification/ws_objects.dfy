/** The server's objects: methods that update fields in place, each proved to do to the value of the
    registries what the function of the same name in WsState does. A broadcast has no effect on the
    registries; what it needs - that every member resolves to a live connection - is a precondition. */
module WsObjects {
  import opened Common
  import opened WsState
  import opened WsLeaving
  import opened WsInvariants

  lemma SoundMeansLive(s: State, t: State, id: ID)
    requires Sound(s) && t.conns == s.conns && t.chans == s.chans
    ensures OthersLive(t, id)
  {
  }

  class Connection {
    const ip: string
    var id: ID
    var status: Status
    var channels: set<Key>
    var createdChannels: nat
    var isReadyToClose: bool

    constructor (id: ID, ip: string)
      ensures this.ip == ip && Rec() == Conn(ip, Created, {}, 0, false) && this.id == id
    {
      this.ip, this.id, status, channels, createdChannels, isReadyToClose := ip, id, Created, {}, 0, false;
    }

    /** Handle up to the handshake: nothing changes. */
    method CheckIn(srv: Server) returns (ok: bool)
      requires srv.Wf()
      ensures ok <==> IpAllowed(srv.cfg, srv.Value(), ip)
    {
      ok := srv.connRepo.CheckIPLimit(srv, this);
    }

    /** Handle from the handshake, which may fail like the check of the origin, up to its message loop. */
    method Admit(srv: Server, shaken: bool, originAllowed: bool) returns (ok: bool)
      requires srv.Wf() && Rec() == Conn(ip, Created, {}, 0, false)
      requires id !in srv.connRepo.conns && id !in srv.connRepo.tombstones
      modifies this`status, srv.connRepo
      ensures srv.Wf() && (ok <==> shaken && originAllowed)
      ensures srv.Value() == if ok then WsState.Add(old(srv.Value()), id, ip) else old(srv.Value())
    {
      if !shaken || !originAllowed {
        return false;
      }
      Connect(srv);
      return true;
    }

    method Connect(srv: Server)
      requires srv.Wf() && id !in srv.connRepo.conns && id !in srv.connRepo.tombstones
      modifies this`status, srv.connRepo
      ensures srv.Wf() && srv.Live(this)
      ensures var v := old(srv.Value()); srv.Value() == v.(conns := v.conns[id := old(Rec()).(status := Connecting)],
        ips := v.ips[ip := IpCount(v.ips, ip) + 1], tombs := v.tombs - {id})
    {
      SetLooseStatus(srv, Connecting);
      srv.connRepo.Add(srv, this);
    }

    method EnterChannel(srv: Server, ch: Channel, allowed: bool, now: int) returns (ok: bool)
      requires srv.Wf() && srv.Live(this) && srv.Registered(ch) && srv.MatesLive(ch)
      modifies this`channels, ch
      ensures srv.Wf() && srv.MatesLive(ch) && srv.Live(this)
      ensures ok <==> id in old(ch.connections) || allowed
      ensures srv.Value() == Enter(old(srv.Value()), id, ch.key, allowed, now)
    {
      ok := ch.Enter(srv, this, allowed, now);
      if ok {
        AddOverlay(srv, ch.key);
      }
    }

    method AddOverlay(srv: Server, key: Key)
      requires srv.Wf() && srv.Live(this)
      modifies this`channels
      ensures srv.Wf() && srv.Value() == old(srv.Value()).(conns := old(srv.Value()).conns[id := old(Rec()).(channels := old(channels) + {key})])
    {
      channels := channels + {key};
      srv.LiveChanged(this);
    }

    method DropOverlay(srv: Server, key: Key)
      requires srv.Wf() && srv.Live(this)
      modifies this`channels
      ensures srv.Wf() && srv.Value() == old(srv.Value()).(conns := old(srv.Value()).conns[id := old(Rec()).(channels := old(channels) - {key})])
    {
      channels := channels - {key};
      srv.LiveChanged(this);
    }

    method LeaveChannel(srv: Server, ch: Channel, now: int)
      requires srv.Wf() && srv.Live(this) && srv.Registered(ch) && OthersLive(srv.Value(), id)
      modifies ch, srv.channelRepo, srv.connRepo.conns.Values
      ensures srv.Wf() && srv.SameMates()
      ensures srv.Value() == Leave(old(srv.Value()), id, ch.key, now)
    {
      if id !in ch.connections {
        return;
      }
      DropOverlay(srv, ch.key);
      ch.Leave(srv, this, now);
    }

    method ClearOverlays(srv: Server)
      requires srv.Wf()
      modifies this`channels
      ensures srv.Wf() && channels == {} && srv.Value() == old(srv.Cleared(this))
    {
      channels := {};
      if srv.Live(this) {
        srv.LiveChanged(this);
      } else if id in srv.connRepo.tombstones && srv.connRepo.tombstones[id].conn == this {
        srv.TombChanged(this);
      } else {
        srv.NothingChanged();
      }
    }

    method LeaveKey(srv: Server, key: Key, now: int)
      requires srv.Wf() && OthersLive(srv.Value(), id)
      modifies srv.channelRepo, srv.channelRepo.channels.Values, srv.connRepo.conns.Values
      ensures srv.Wf() && srv.SameMates() && OthersLive(srv.Value(), id) && id == old(id) && status == old(status)
      ensures srv.channelRepo.channels.Values <= old(srv.channelRepo.channels.Values)
      ensures srv.Value() == WsState.LeaveChannel(old(srv.Value()), key, id, status, now)
    {
      OthersStayLive(srv.Value(), key, id, status, now);
      if key in srv.channelRepo.channels {
        srv.channelRepo.channels[key].Leave(srv, this, now);
      }
    }

    method LeaveKeys(srv: Server, keys: set<Key>, now: int) returns (ghost order: seq<Key>)
      requires srv.Wf() && OthersLive(srv.Value(), id)
      modifies srv.channelRepo, srv.channelRepo.channels.Values, srv.connRepo.conns.Values
      ensures srv.Wf() && srv.SameMates() && srv.channelRepo.channels.Values <= old(srv.channelRepo.channels.Values)
      ensures id == old(id) && status == old(status)
      ensures Elements(order) == keys && Distinct(order)
      ensures srv.Value() == LeaveEach(old(srv.Value()), order, id, status, now)
    {
      var rest := keys;
      order := [];
      while rest != {}
        invariant rest <= keys && Elements(order) == keys - rest
        invariant Distinct(order) && id == old(id) && status == old(status)
        invariant srv.Wf() && srv.SameMates() && OthersLive(srv.Value(), id)
        invariant srv.channelRepo.channels.Values <= old(srv.channelRepo.channels.Values)
        invariant srv.Value() == LeaveEach(old(srv.Value()), order, id, status, now)
      {
        var key :| key in rest;
        LeaveKey(srv, key, now);
        OneMoreKey(order, key);
        order, rest := order + [key], rest - {key};
      }
    }

    /** Live, tombstoned or neither; another connection may have the ID. */
    method LeaveAllChannels(srv: Server, now: int) returns (ghost order: seq<Key>)
      requires srv.Wf() && OthersLive(srv.Value(), id)
      modifies this`channels, srv.channelRepo, srv.channelRepo.channels.Values, srv.connRepo.conns.Values
      ensures srv.Wf() && srv.SameMates() && id == old(id) && status == old(status)
      ensures old(!srv.Live(this)) ==> channels == {}
      ensures srv.channelRepo.channels.Values <= old(srv.channelRepo.channels.Values)
      ensures Distinct(order) && Elements(order) == old(channels)
      ensures srv.Value() == LeaveEach(old(srv.Cleared(this)), order, id, status, now)
      ensures id !in srv.connRepo.conns ==> srv.Value() == LeaveAll(old(srv.Cleared(this)), old(channels), id, status, now)
    {
      var keys := channels;
      ClearOverlays(srv);
      order := LeaveKeys(srv, keys, now);
      if id !in srv.connRepo.conns {
        LeaveEachIsLeaveAll(old(srv.Cleared(this)), order, id, status, now);
      }
    }

    method SetTombStatus(srv: Server, status: Status)
      requires srv.Wf() && srv.Tombstoned(this)
      modifies this`status
      ensures srv.Wf() && this.status == status
      ensures srv.Value() == old(srv.Value()).(tombs := old(srv.Value()).tombs[id := old(srv.Value()).tombs[id].(conn := old(Rec()).(status := status))])
    {
      this.status := status;
      srv.TombChanged(this);
    }

    method SetLooseStatus(srv: Server, status: Status)
      requires srv.Wf() && !srv.Live(this) && !srv.Tombstoned(this)
      modifies this`status
      ensures srv.Wf() && this.status == status && srv.Value() == old(srv.Value())
    {
      this.status := status;
      srv.NothingChanged();
    }

    method GoForGood(srv: Server)
      requires srv.Wf() && srv.Live(this) && OthersLive(srv.Value(), id)
      modifies this`status, srv.connRepo
      ensures srv.Wf() && id !in srv.connRepo.conns && status == Closed && OthersLive(srv.Value(), id)
      ensures srv.connRepo.conns.Values <= old(srv.connRepo.conns.Values)
      ensures srv.Value() == WsState.RemoveImmediate(old(srv.Value()), id) == srv.Cleared(this)
    {
      srv.connRepo.RemoveImmediate(srv, this);
      SetLooseStatus(srv, Closed);
    }

    method GoForNow(srv: Server, now: int)
      requires srv.Wf() && srv.Live(this) && OthersLive(srv.Value(), id)
      modifies this`status, srv.connRepo
      ensures srv.Wf() && id !in srv.connRepo.conns && status == Disconnected && OthersLive(srv.Value(), id)
      ensures srv.connRepo.conns.Values <= old(srv.connRepo.conns.Values)
      ensures var m := WsState.MarkDisconnected(srv.cfg, old(srv.Value()), id, now);
        srv.Cleared(this) == m.(tombs := m.tombs[id := m.tombs[id].(conn := old(Rec()).(status := Disconnected, channels := {}))])
    {
      srv.connRepo.MarkDisconnected(srv, this, now);
      SetTombStatus(srv, Disconnected);
      OthersLiveWithout(old(srv.Value()), srv.Value(), id);
    }

    method CloseForGood(srv: Server, now: int)
      requires srv.Wf() && srv.Live(this) && OthersLive(srv.Value(), id) && id in srv.Value().conns && isReadyToClose
      modifies this`status, this`channels, srv.connRepo, srv.channelRepo, srv.channelRepo.channels.Values, srv.connRepo.conns.Values
      ensures srv.Wf() && srv.Value() == WsState.Close(srv.cfg, old(srv.Value()), old(id), now)
      ensures srv.channelRepo.channels.Values <= old(srv.channelRepo.channels.Values)
    {
      assert srv.Value().conns[id] == Rec();
      GoForGood(srv);
      ghost var order := LeaveAllChannels(srv, now);
    }

    method CloseForNow(srv: Server, now: int)
      requires srv.Wf() && srv.Live(this) && OthersLive(srv.Value(), id) && id in srv.Value().conns && !isReadyToClose
      modifies this`status, this`channels, srv.connRepo, srv.channelRepo, srv.channelRepo.channels.Values, srv.connRepo.conns.Values
      ensures srv.Wf() && srv.Value() == WsState.Close(srv.cfg, old(srv.Value()), old(id), now)
      ensures srv.channelRepo.channels.Values <= old(srv.channelRepo.channels.Values)
    {
      assert srv.Value().conns[id] == Rec();
      GoForNow(srv, now);
      ghost var order := LeaveAllChannels(srv, now);
    }

    /** The second Close: what Handle defers after Break, and what the sweep calls on an expired tombstone. */
    method CloseAgain(srv: Server, now: int) returns (ghost order: seq<Key>)
      requires srv.Wf() && !srv.Live(this) && OthersLive(srv.Value(), id) && (srv.Tombstoned(this) ==> id in srv.Value().tombs)
      modifies this`status, this`channels, srv.channelRepo, srv.channelRepo.channels.Values, srv.connRepo.conns.Values
      ensures srv.Wf() && srv.SameMates() && srv.channelRepo.channels.Values <= old(srv.channelRepo.channels.Values)
      ensures old(srv.Tombstoned(this)) ==> srv.Value() == LeaveAll(Buried(old(srv.Value()), id), old(channels), id, Closed, now)
      ensures old(!srv.Tombstoned(this)) ==>
        srv.Value() == LeaveEach(old(srv.Value()), order, id, Closed, now) && Distinct(order) && Elements(order) == old(channels)
    {
      Bury(srv);
      order := LeaveAllChannels(srv, now);
    }

    method Bury(srv: Server)
      requires srv.Wf() && !srv.Live(this) && (srv.Tombstoned(this) ==> id in srv.Value().tombs)
      modifies this`status
      ensures srv.Wf() && status == Closed && srv.Tombstoned(this) == old(srv.Tombstoned(this))
      ensures srv.Cleared(this) == if srv.Tombstoned(this) then Buried(old(srv.Value()), id) else old(srv.Value())
      ensures srv.Value().chans == old(srv.Value()).chans && srv.Value().conns == old(srv.Value()).conns
    {
      ghost var v := srv.Value();
      assert srv.Tombstoned(this) ==> v.tombs[id].conn == Rec();
      status := Closed;
      if srv.Tombstoned(this) { srv.TombChanged(this); } else { srv.NothingChanged(); }
    }

    method Close(srv: Server, now: int) returns (ghost order: seq<Key>)
      requires srv.Wf() && OthersLive(srv.Value(), id)
      requires match status
        case Closed => true
        case Disconnected => !srv.Live(this) && (srv.Tombstoned(this) ==> id in srv.Value().tombs)
        case _ => (srv.Live(this) && id in srv.Value().conns) || (id !in srv.connRepo.conns && id !in srv.connRepo.tombstones)
      modifies this`status, this`channels, srv.connRepo, srv.channelRepo, srv.channelRepo.channels.Values, srv.connRepo.conns.Values
      ensures srv.Wf()
      ensures var v := old(srv.Value()); srv.Value() == match old(status)
        case Closed => v
        case Disconnected => if old(srv.Tombstoned(this)) then SecondClose(v, old(id), now) else LeaveEach(v, order, old(id), Closed, now)
        case _ => if old(id) in v.conns then WsState.Close(srv.cfg, v, old(id), now)
                  else LeaveAll(v, old(channels), old(id), old(status), now)
      ensures old(status) == Disconnected && old(!srv.Tombstoned(this)) ==> Distinct(order) && Elements(order) == old(channels)
      ensures old(status) == Closed || old(status) == Disconnected ==>
        srv.connRepo.conns == old(srv.connRepo.conns) && srv.connRepo.tombstones == old(srv.connRepo.tombstones)
      ensures srv.channelRepo.channels.Values <= old(srv.channelRepo.channels.Values)
    {
      order := [];
      if status == Closed {
        return;
      }
      if status == Disconnected {
        assert srv.Tombstoned(this) ==> srv.Value().tombs[id].conn == Rec();
        order := CloseAgain(srv, now);
        return;
      }
      if id !in srv.connRepo.conns {
        order := LeaveAllChannels(srv, now);
      } else if isReadyToClose {
        CloseForGood(srv, now);
      } else {
        CloseForNow(srv, now);
      }
    }

    method IncrementCreatedChannels(srv: Server)
      requires srv.Wf() && srv.Live(this)
      modifies this`createdChannels
      ensures srv.Wf() && srv.Value() == old(srv.Value()).(conns := old(srv.Value()).conns[id := old(Rec()).(created := old(createdChannels) + 1)])
    {
      createdChannels := createdChannels + 1;
      srv.LiveChanged(this);
    }

    method DecrementCreatedChannels()
      modifies this`createdChannels
      ensures createdChannels == if old(createdChannels) > 0 then old(createdChannels) - 1 else 0
    {
      if createdChannels > 0 {
        createdChannels := createdChannels - 1;
      }
    }

    function Rec(): Conn reads this {
      Conn(ip, status, channels, createdChannels, isReadyToClose)
    }
  }

  class Channel {
    const key: Key
    const proprietary: bool
    const creatorID: ID
    var connections: set<ID>
    var emptySince: Option<int>
    var closed: bool

    constructor (key: Key, proprietary: bool, creatorID: ID, now: int)
      ensures this.key == key && Rec() == Chan(proprietary, creatorID, {}, Some(now)) && !closed
    {
      this.key, this.proprietary, this.creatorID := key, proprietary, creatorID;
      connections, emptySince, closed := {}, Some(now), false;
    }

    function Rec(): Chan reads this {
      Chan(proprietary, creatorID, connections, emptySince)
    }

    predicate IsAutoCloseDue(ttl: int, now: int) reads this {
      !(proprietary || connections != {} || emptySince.None?) && now - emptySince.value >= ttl
    }

    method RefreshEmptySince(now: int)
      modifies this`emptySince
      ensures emptySince == WithMembers(old(Rec()), connections, now).emptySince
    {
      if connections == {} {
        if emptySince.None? {
          emptySince := Some(now);
        }
      } else {
        emptySince := None;
      }
    }

    method AddConnection(srv: Server, conn: Connection, now: int)
      requires srv.Wf() && srv.Registered(this) && conn.id in srv.connRepo.conns && srv.MatesLive(this)
      modifies this
      ensures srv.Wf() && srv.Value() == AddMember(old(srv.Value()), key, conn.id, now)
      ensures srv.MatesLive(this)
    {
      connections := connections + {conn.id};
      RefreshEmptySince(now);
      srv.ChannelChanged(this);
    }

    method Enter(srv: Server, conn: Connection, allowed: bool, now: int) returns (ok: bool)
      requires srv.Wf() && srv.Registered(this) && conn.id in srv.connRepo.conns && srv.MatesLive(this)
      modifies this
      ensures srv.Wf() && srv.MatesLive(this)
      ensures ok <==> conn.id in old(connections) || allowed
      ensures srv.Value() == if ok && conn.id !in old(connections) then AddMember(old(srv.Value()), key, conn.id, now) else old(srv.Value())
    {
      if conn.id in connections {
        return true;
      }
      if !allowed {
        return false;
      }
      AddConnection(srv, conn, now);
      return true;
    }

    method Drop(srv: Server, id: ID, now: int)
      requires srv.Wf() && srv.Registered(this)
      modifies this
      ensures srv.Wf() && connections == old(connections) - {id}
      ensures srv.Value() == old(srv.Value()).(chans := old(srv.Value()).chans[key := WithMembers(old(Rec()), connections, now)])
    {
      connections := connections - {id};
      RefreshEmptySince(now);
      srv.ChannelChanged(this);
    }

    method Leave(srv: Server, conn: Connection, now: int)
      requires srv.Wf() && srv.Registered(this) && OthersLive(srv.Value(), conn.id)
      modifies this, srv.channelRepo, srv.connRepo.conns.Values
      ensures srv.Wf() && srv.Value() == WsState.LeaveChannel(old(srv.Value()), key, conn.id, old(conn.status), now)
      ensures srv.SameMates() && srv.channelRepo.channels.Values <= old(srv.channelRepo.channels.Values)
    {
      Drop(srv, conn.id, now);
      if proprietary && creatorID == conn.id && conn.status != Disconnected {
        Close(srv);
      } else {
        assert old(srv.Value()).chans[key].members == old(connections);
        assert forall i :: i in connections ==> i in srv.Value().conns;
        assert srv.MatesLive(this);
      }
    }

    method KickMember(srv: Server, id: ID)
      requires srv.Keyed()
      modifies srv.connRepo.conns.Values
      ensures srv.Keyed() && srv.Value() == old(srv.Value()).(conns := Kick(old(srv.Value()).conns, {id}, key))
      ensures srv.SameMates()
    {
      KickOne(srv.Value().conns, {}, id, key);
      KickNone(srv.Value().conns, key);
      if id in srv.connRepo.conns {
        var mate := srv.connRepo.conns[id];
        mate.channels := mate.channels - {key};
        srv.LiveChanged(mate);
      }
    }

    method KickAll(srv: Server, members: set<ID>)
      requires srv.Keyed()
      modifies srv.connRepo.conns.Values
      ensures srv.Keyed() && srv.Value() == old(srv.Value()).(conns := Kick(old(srv.Value()).conns, members, key))
      ensures srv.SameMates()
    {
      ghost var v := srv.Value();
      var rest := members;
      KickNone(v.conns, key);
      while rest != {}
        invariant rest <= members && srv.Keyed() && srv.SameMates()
        invariant srv.Value() == v.(conns := Kick(v.conns, members - rest, key))
      {
        var id :| id in rest;
        KickMember(srv, id);
        KickTwice(v.conns, members - rest, {id}, key);
        assert members - (rest - {id}) == members - rest + {id};
        rest := rest - {id};
      }
    }

    method CreditCreator(srv: Server)
      requires srv.Keyed()
      modifies srv.connRepo.conns.Values
      ensures srv.Keyed() && srv.Value() == old(srv.Value()).(conns := Credit(old(srv.Value()).conns, creatorID))
      ensures srv.SameMates()
    {
      if creatorID != "" && creatorID in srv.connRepo.conns {
        var creator := srv.connRepo.conns[creatorID];
        creator.DecrementCreatedChannels();
        srv.LiveChanged(creator);
      }
    }

    method Close(srv: Server)
      requires srv.Keyed() && (!closed ==> srv.Wf() && srv.Registered(this))
      modifies this, srv.channelRepo, srv.connRepo.conns.Values
      ensures srv.Keyed() && (old(srv.Wf()) ==> srv.Wf()) && srv.SameMates()
      ensures srv.channelRepo.channels.Values <= old(srv.channelRepo.channels.Values)
      ensures srv.Value() == if old(closed) then old(srv.Value()) else CloseChannel(old(srv.Value()), key)
    {
      if closed {
        return;
      }
      ghost var v := srv.Value();
      var remaining := Empty(srv);
      assert v.chans[key] == old(Rec());
      ClearOut(srv, remaining);
      assert srv.Value().chans == v.chans - {key};
    }

    method Empty(srv: Server) returns (remaining: set<ID>)
      requires srv.Wf() && srv.Registered(this)
      modifies this
      ensures srv.Keyed() && closed && remaining == old(connections)
      ensures srv.Value() == old(srv.Value()).(chans := old(srv.Value()).chans[key := old(Rec()).(members := {})])
    {
      remaining := connections;
      closed, connections := true, {};
      srv.ChannelChanged(this);
    }

    method ClearOut(srv: Server, remaining: set<ID>)
      requires srv.Keyed()
      modifies srv.channelRepo, srv.connRepo.conns.Values
      ensures srv.Keyed() && srv.SameMates() && srv.channelRepo.channels == old(srv.channelRepo.channels) - {key}
      ensures srv.Value() == old(srv.Value()).(conns := Credit(Kick(old(srv.Value()).conns, remaining, key), creatorID),
                                               chans := old(srv.Value()).chans - {key})
    {
      KickAll(srv, remaining);
      CreditCreator(srv);
      Unregister(srv);
    }

    method Unregister(srv: Server)
      requires srv.Keyed()
      modifies srv.channelRepo
      ensures srv.Keyed() && srv.channelRepo.channels == old(srv.channelRepo.channels) - {key}
      ensures srv.Value() == old(srv.Value()).(chans := old(srv.Value()).chans - {key})
    {
      srv.channelRepo.Remove(key);
      srv.ChannelDropped(key);
    }
  }

  datatype Tombstone = Tombstone(conn: Connection, channels: set<Key>, createdChannels: nat, expiresAt: int)

  class ConnRepo {
    var conns: map<ID, Connection>
    var tombstones: map<ID, Tombstone>
    var reqStat: map<ID, Option<ReqCounter>>
    var IPs: map<string, int>

    constructor ()
      ensures conns == map[] && tombstones == map[] && reqStat == map[] && IPs == map[]
    {
      conns, tombstones, reqStat, IPs := map[], map[], map[], map[];
    }

    predicate CheckIPLimit(srv: Server, c: Connection)
      requires srv.connRepo == this
      reads this, srv
    {
      srv.cfg.maxPerIp == 0 || (if c.ip in IPs then IPs[c.ip] else 0) < srv.cfg.maxPerIp
    }

    method CheckRequestLimit(srv: Server, c: Connection, now: int) returns (ok: bool)
      requires srv.connRepo == this && (c.id in reqStat ==> reqStat[c.id].Some?)
      modifies this`reqStat
      ensures srv.Value() == Request(srv.cfg, old(srv.Value()), c.id, now)
      ensures ok == (srv.cfg.maxRequests == 0 ||
        CountRequest(srv.cfg.maxRequests, if c.id in old(reqStat) then old(reqStat)[c.id] else None, now).1)
    {
      if srv.cfg.maxRequests == 0 {
        return true;
      }
      var windowStart := now - MINUTE;
      var history;
      if c.id !in reqStat || reqStat[c.id].value.last < windowStart {
        history := ReqCounter(now, 1);
      } else {
        history := reqStat[c.id].value.(cnt := reqStat[c.id].value.cnt + 1);
      }
      reqStat := reqStat[c.id := Some(history)];
      return history.cnt <= srv.cfg.maxRequests;
    }

    method Add(srv: Server, c: Connection)
      requires srv.Wf() && srv.connRepo == this
      modifies this
      ensures srv.Wf() && srv.Live(c)
      ensures var v := old(srv.Value()); srv.Value() == v.(conns := v.conns[c.id := c.Rec()], ips := v.ips[c.ip := IpCount(v.ips, c.ip) + 1], tombs := v.tombs - {c.id})
    {
      conns := conns[c.id := c];
      IPs := IPs[c.ip := (if c.ip in IPs then IPs[c.ip] else 0) + 1];
      tombstones := tombstones - {c.id};
      srv.ConnAdded(c);
    }

    method DropIP(c: Connection)
      modifies this`IPs
      ensures IPs == WsState.DropIp(old(IPs), c.ip)
    {
      IPs := IPs[c.ip := (if c.ip in IPs then IPs[c.ip] else 0) - 1];
      if IPs[c.ip] == 0 {
        IPs := IPs - {c.ip};
      }
      assert IPs == WsState.DropIp(old(IPs), c.ip);
    }

    method RemoveImmediate(srv: Server, c: Connection)
      requires srv.Wf() && srv.connRepo == this
      modifies this
      ensures srv.Wf() && c.id !in conns && c.id !in tombstones
      ensures conns == old(conns) - {c.id}
      ensures var v := old(srv.Value()); srv.Value() == v.(conns := v.conns - {c.id}, ips := WsState.DropIp(v.ips, c.ip),
        tombs := v.tombs - {c.id}, requests := v.requests - {c.id})
      ensures old(srv.Live(c)) ==> srv.Value() == WsState.RemoveImmediate(old(srv.Value()), c.id)
    {
      assert srv.Live(c) ==> srv.Value().conns[c.id] == c.Rec();
      conns := conns - {c.id};
      DropIP(c);
      tombstones := tombstones - {c.id};
      reqStat := reqStat - {c.id};
      srv.ConnsDropped({c.id}, {c.id});
    }

    /** A connection that is not live gets a tombstone all the same. */
    method MarkDisconnected(srv: Server, c: Connection, now: int)
      requires srv.Wf() && srv.connRepo == this && (c.id in conns ==> srv.Live(c))
      modifies this
      ensures srv.Wf() && c.id !in conns && srv.Tombstoned(c)
      ensures conns == old(conns) - {c.id}
      ensures old(srv.Live(c)) ==> srv.Value() == WsState.MarkDisconnected(srv.cfg, old(srv.Value()), c.id, now)
      ensures var v := old(srv.Value()); !old(srv.Live(c)) ==>
        srv.Value() == v.(tombs := v.tombs[c.id := Tomb(c.Rec(), c.channels, c.createdChannels, now + srv.cfg.reconnection)])
    {
      assert srv.Live(c) ==> srv.Value().conns[c.id] == c.Rec();
      if c.id in conns && conns[c.id] == c {
        DropLive(srv, c);
      }
      AddTombstone(srv, c, now);
    }

    /** One expired entry of the sweep: the entry goes last, after the connection has left its channels. */
    method ExpireEntry(srv: Server, id: ID, now: int)
      requires srv.Wf() && srv.connRepo == this && id in tombstones && now > tombstones[id].expiresAt
      requires Sound(srv.Value()) && id in srv.Value().tombs
      modifies this, tombstones[id].conn, srv.channelRepo, srv.channelRepo.channels.Values, conns.Values
      ensures srv.Wf() && tombstones == old(tombstones) - {id} && conns == old(conns)
      ensures srv.channelRepo.channels.Values <= old(srv.channelRepo.channels.Values)
      ensures srv.Value() == Expire(old(srv.Value()), id, now)
    {
      ExpireInSteps(srv.Value(), id, now);
      var conn := tombstones[id].conn;
      Restore(srv, id);
      ghost var order := conn.Close(srv, now);
      DropTomb(srv, id);
    }

    method Restore(srv: Server, id: ID)
      requires srv.Wf() && srv.connRepo == this && id in tombstones && Sound(srv.Value()) && id in srv.Value().tombs
      modifies this, tombstones[id].conn`channels
      ensures srv.Wf() && tombstones == old(tombstones) && conns == old(conns)
      ensures tombstones[id].conn.channels == old(srv.Value()).tombs[id].channels
      ensures tombstones[id].conn.status == old(srv.Value()).tombs[id].conn.status
      ensures srv.Value() == Restored(old(srv.Value()), id) && OthersLive(srv.Value(), id)
    {
      Forget(srv, id);
      RestoreOverlays(srv, id);
      SoundMeansLive(old(srv.Value()), srv.Value(), id);
    }

    method Forget(srv: Server, id: ID)
      requires srv.Wf() && srv.connRepo == this && id in tombstones
      modifies this
      ensures srv.Wf() && tombstones == old(tombstones) && conns == old(conns)
      ensures srv.Value() == old(srv.Value()).(requests := old(srv.Value()).requests - {id})
    {
      conns := conns - {id};
      assert conns == old(conns);  // a tombstone's ID is never live
      reqStat := reqStat - {id};
      srv.ConnsDropped({}, {});
    }

    method RestoreOverlays(srv: Server, id: ID)
      requires srv.Wf() && srv.connRepo == this && id in tombstones && id in srv.Value().tombs
      modifies tombstones[id].conn`channels
      ensures srv.Wf() && tombstones[id].conn.channels == tombstones[id].channels
      ensures var v := old(srv.Value());
        srv.Value() == v.(tombs := v.tombs[id := v.tombs[id].(conn := v.tombs[id].conn.(channels := v.tombs[id].channels))])
    {
      var conn := tombstones[id].conn;
      conn.channels := tombstones[id].channels;
      srv.TombChanged(conn);
    }

    method DropTomb(srv: Server, id: ID)
      requires srv.Wf() && srv.connRepo == this
      modifies this`tombstones
      ensures srv.Wf() && tombstones == old(tombstones) - {id} && conns == old(conns)
      ensures srv.Value() == old(srv.Value()).(tombs := old(srv.Value()).tombs - {id})
    {
      tombstones := tombstones - {id};
      srv.ConnsDropped({}, {id});
    }

    /** The sweep has dealt with `order` and has `rest` of the entries `all` before it. */
    ghost predicate Swept(srv: Server, before: State, all: set<ID>, order: seq<ID>, rest: set<ID>, now: int)
      reads srv, srv.connRepo, srv.channelRepo, srv.connRepo.conns.Values, srv.TombConns(), srv.channelRepo.channels.Values
    {
      && srv.connRepo == this && srv.Wf() && Sound(srv.Value())
      && rest <= srv.connRepo.tombstones.Keys && Elements(order) + rest == all
      && srv.Value() == ExpireEach(before, order, now)
    }

    method Sweep(srv: Server, now: int) returns (ghost order: seq<ID>)
      requires srv.Wf() && srv.connRepo == this && Sound(srv.Value())
      modifies this, srv.TombConns(), srv.channelRepo, srv.channelRepo.channels.Values, conns.Values
      ensures srv.Wf() && Sound(srv.Value()) && Elements(order) == old(tombstones).Keys
      ensures srv.Value() == ExpireEach(old(srv.Value()), order, now)
    {
      var rest := tombstones.Keys;
      order := [];
      while rest != {}
        invariant Swept(srv, old(srv.Value()), old(tombstones).Keys, order, rest, now)
        invariant srv.TombConns() <= old(srv.TombConns()) && conns == old(conns)
        invariant srv.channelRepo.channels.Values <= old(srv.channelRepo.channels.Values)
      {
        var id :| id in rest;
        SweepEntry(srv, old(srv.Value()), old(tombstones).Keys, order, rest, id, now);
        order, rest := order + [id], rest - {id};
      }
    }

    method SweepEntry(srv: Server, ghost before: State, ghost all: set<ID>, ghost order: seq<ID>, ghost rest: set<ID>, id: ID, now: int)
      requires Swept(srv, before, all, order, rest, now) && id in rest
      modifies this, srv.TombConns(), srv.channelRepo, srv.channelRepo.channels.Values, conns.Values
      ensures Swept(srv, before, all, order + [id], rest - {id}, now)
      ensures srv.TombConns() <= old(srv.TombConns()) && conns == old(conns)
      ensures srv.channelRepo.channels.Values <= old(srv.channelRepo.channels.Values)
    {
      OneMoreKey(order, id);
      assert id in srv.Value().tombs;
      SoundExpire(srv.Value(), id, now);
      if now > tombstones[id].expiresAt {
        ExpireEntry(srv, id, now);
      }
    }

    method Reconnect(srv: Server, conn: Connection, prev: ID, now: int) returns (ok: bool)
      requires srv.Wf() && srv.connRepo == this && srv.Live(conn) && conn.id in srv.Value().conns
      requires Sound(srv.Value()) && conn.channels == {}
      modifies this, conn, srv.channelRepo.channels.Values
      ensures srv.Wf() && (ok <==> prev in old(tombstones) && old(tombstones)[prev].conn.ip == conn.ip)
      ensures srv.Value() == WsState.Reconnect(old(srv.Value()), old(conn.id), prev, now)
    {
      TombView(srv, conn, prev);
      if prev !in tombstones || tombstones[prev].conn.ip != conn.ip {
        return false;
      }
      TakeOver(srv, conn, prev, now);
      return true;
    }

    /** Re-keyed and then joined to the channels that its tombstone held, the connection is reconnected. */
    static ghost predicate InTwoSteps(v: State, id: ID, prev: ID, now: int)
      requires id in v.conns && prev in v.tombs
    {
      var r, t := Rekeyed(v, id, prev), v.tombs[prev];
      AllLive(r) && prev in r.conns && WsState.Reconnect(v, id, prev, now) ==
        r.(chans := JoinAll(r.chans, t.channels, prev, now),
           conns := r.conns[prev := r.conns[prev].(channels := t.channels * r.chans.Keys, created := t.created)])
    }

    static lemma PlanReconnect(v: State, id: ID, prev: ID, now: int)
      requires Sound(v) && id in v.conns && v.conns[id].channels == {} && prev in v.tombs && v.tombs[prev].conn.ip == v.conns[id].ip
      ensures InTwoSteps(v, id, prev, now)
    {
      ReconnectInSteps(v, id, prev, now);
      RekeyedLive(v, id, prev);
    }

    lemma TombView(srv: Server, conn: Connection, prev: ID)
      requires srv.Wf() && srv.connRepo == this && srv.Live(conn) && conn.id in srv.Value().conns
      ensures var v := srv.Value();
        && v.conns[conn.id] == conn.Rec()
        && (prev in v.tombs <==> prev in tombstones)
        && (prev in v.tombs ==> v.tombs[prev].conn.ip == tombstones[prev].conn.ip && prev !in v.conns)
        && (prev in v.tombs ==> v.tombs[prev].channels == tombstones[prev].channels && v.tombs[prev].created == tombstones[prev].createdChannels)
    {
    }

    method TakeOver(srv: Server, conn: Connection, prev: ID, now: int)
      requires srv.Wf() && srv.connRepo == this && srv.Live(conn) && conn.id in srv.Value().conns
      requires Sound(srv.Value()) && conn.channels == {} && prev in tombstones && tombstones[prev].conn.ip == conn.ip
      modifies this, conn, srv.channelRepo.channels.Values
      ensures srv.Wf() && srv.Value() == WsState.Reconnect(old(srv.Value()), old(conn.id), prev, now)
    {
      TombView(srv, conn, prev);
      PlanReconnect(srv.Value(), conn.id, prev, now);
      RekeyAndResume(srv, conn, prev, now);
    }

    method RekeyAndResume(srv: Server, conn: Connection, prev: ID, now: int)
      requires srv.Wf() && srv.connRepo == this && srv.Live(conn) && conn.id in srv.Value().conns
      requires prev in tombstones && prev in srv.Value().tombs && InTwoSteps(srv.Value(), conn.id, prev, now)
      requires srv.Value().tombs[prev].channels == tombstones[prev].channels
      requires srv.Value().tombs[prev].created == tombstones[prev].createdChannels
      modifies this, conn, srv.channelRepo.channels.Values
      ensures srv.Wf() && srv.Value() == WsState.Reconnect(old(srv.Value()), old(conn.id), prev, now)
    {
      ghost var v, id := srv.Value(), conn.id;
      var channels, created := tombstones[prev].channels, tombstones[prev].createdChannels;
      Rekey(srv, conn, prev);
      ResumeAs(srv, conn, channels, created, now, v, id, prev);
    }

    /** The second half of a reconnect: the connection is re-keyed, and takes over what its tombstone held. */
    method ResumeAs(srv: Server, conn: Connection, channels: set<Key>, created: nat, now: int, ghost v: State, ghost id: ID, ghost prev: ID)
      requires srv.Wf() && srv.connRepo == this && srv.Live(conn) && id in v.conns && srv.Value() == Rekeyed(v, id, prev)
      requires conn.id == prev && prev in v.tombs && channels == v.tombs[prev].channels && created == v.tombs[prev].created
      requires InTwoSteps(v, id, prev, now)
      modifies conn`channels, conn`createdChannels, srv.channelRepo.channels.Values
      ensures srv.Wf() && srv.Value() == WsState.Reconnect(v, id, prev, now)
    {
      Resume(srv, conn, channels, created, now);
    }

    method Resume(srv: Server, conn: Connection, channels: set<Key>, created: nat, now: int)
      requires srv.Wf() && srv.connRepo == this && srv.Live(conn) && AllLive(srv.Value()) && conn.id in srv.Value().conns
      modifies conn`channels, conn`createdChannels, srv.channelRepo.channels.Values
      ensures srv.Wf()
      ensures var r := old(srv.Value()); srv.Value() == r.(
        chans := JoinAll(r.chans, channels, conn.id, now),
        conns := r.conns[conn.id := r.conns[conn.id].(channels := channels * r.chans.Keys, created := created)])
    {
      assert srv.Value().conns[conn.id] == conn.Rec();
      var kept := Rejoin(srv, conn, channels, now);
      RestoreState(srv, conn, kept, created);
    }

    method Rekey(srv: Server, conn: Connection, prev: ID)
      requires srv.Wf() && srv.connRepo == this && srv.Live(conn) && conn.id in srv.Value().conns && prev in tombstones
      modifies this, conn`id, conn`status
      ensures srv.Wf() && srv.Live(conn) && conn.id == prev
      ensures srv.Value() == Rekeyed(old(srv.Value()), old(conn.id), prev)
    {
      DropTomb(srv, prev);
      Move(srv, conn, prev);
    }

    method Move(srv: Server, conn: Connection, prev: ID)
      requires srv.Wf() && srv.connRepo == this && srv.Live(conn) && conn.id in srv.Value().conns
      requires prev !in conns && prev !in tombstones
      modifies this`reqStat, this`conns, conn`id, conn`status
      ensures srv.Wf() && srv.Live(conn) && conn.id == prev
      ensures var v, id := old(srv.Value()), old(conn.id); srv.Value() == v.(
        requests := v.requests[prev := if id in v.requests then v.requests[id] else None] - {id},
        conns := v.conns[prev := v.conns[id].(status := Reconnecting)] - {id})
    {
      assert srv.Value().conns[conn.id] == conn.Rec();
      reqStat, conns :=
        reqStat[prev := if conn.id in reqStat then reqStat[conn.id] else None] - {conn.id},
        conns[prev := conns[conn.id]] - {conn.id};
      conn.id, conn.status := prev, Reconnecting;
      srv.LiveRekeyed(conn);
    }

    ghost predicate Rejoined(srv: Server, before: State, done: set<Key>, id: ID, now: int)
      reads srv, srv.connRepo, srv.channelRepo, srv.connRepo.conns.Values, srv.TombConns(), srv.channelRepo.channels.Values
    {
      && srv.connRepo == this && srv.Wf() && AllLive(srv.Value()) && id in conns
      && srv.Value() == before.(chans := JoinAll(before.chans, done, id, now))
    }

    method Rejoin(srv: Server, conn: Connection, keys: set<Key>, now: int) returns (kept: set<Key>)
      requires srv.Wf() && srv.connRepo == this && srv.Live(conn) && AllLive(srv.Value())
      modifies srv.channelRepo.channels.Values
      ensures srv.Wf() && srv.Live(conn) && kept == keys * srv.Value().chans.Keys
      ensures srv.Value() == old(srv.Value()).(chans := JoinAll(old(srv.Value()).chans, keys, conn.id, now))
    {
      ghost var before := srv.Value();
      JoinNone(before.chans, conn.id, now);
      var rest := keys;
      kept := {};
      while rest != {}
        invariant rest <= keys && kept == (keys - rest) * before.chans.Keys
        invariant Rejoined(srv, before, keys - rest, conn.id, now)
      {
        var key :| key in rest;
        assert keys - (rest - {key}) == keys - rest + {key};
        if key in srv.channelRepo.channels {
          kept := kept + {key};
        }
        RejoinOne(srv, conn, before, keys - rest, key, now);
        rest := rest - {key};
      }
    }

    method RejoinOne(srv: Server, conn: Connection, ghost before: State, ghost done: set<Key>, key: Key, now: int)
      requires Rejoined(srv, before, done, conn.id, now) && key !in done
      modifies srv.channelRepo.channels.Values
      ensures Rejoined(srv, before, done + {key}, conn.id, now)
      ensures key in before.chans <==> key in srv.channelRepo.channels
    {
      assert srv.Value().chans.Keys == before.chans.Keys;
      if key in srv.channelRepo.channels {
        var ch := srv.channelRepo.channels[key];
        assert srv.Value().chans[key].members == ch.connections;
        forall i | i in ch.connections ensures i in srv.connRepo.conns { assert i in srv.Value().conns; }
        JoinOneMore(srv.Value(), before.chans, done, key, conn.id, now);
        ch.AddConnection(srv, conn, now);
      } else {
        assert JoinAll(before.chans, done + {key}, conn.id, now) == JoinAll(before.chans, done, conn.id, now);
      }
    }

    method RestoreState(srv: Server, conn: Connection, channels: set<Key>, created: nat)
      requires srv.Wf() && srv.connRepo == this && srv.Live(conn)
      modifies conn`channels, conn`createdChannels
      ensures srv.Wf() && srv.Value() == old(srv.Value()).(conns := old(srv.Value()).conns[conn.id := old(conn.Rec()).(channels := channels, created := created)])
    {
      conn.channels := channels;
      conn.createdChannels := created;
      srv.LiveChanged(conn);
    }

    method DropLive(srv: Server, c: Connection)
      requires srv.Wf() && srv.connRepo == this && srv.Live(c)
      modifies this
      ensures srv.Wf() && conns == old(conns) - {c.id} && tombstones == old(tombstones)
      ensures var v := old(srv.Value());
        srv.Value() == v.(conns := v.conns - {c.id}, ips := WsState.DropIp(v.ips, c.ip), requests := v.requests - {c.id})
    {
      conns := conns - {c.id};
      DropIP(c);
      reqStat := reqStat - {c.id};
      srv.ConnsDropped({c.id}, {});
    }

    method AddTombstone(srv: Server, c: Connection, now: int)
      requires srv.Wf() && srv.connRepo == this && c.id !in conns
      modifies this`tombstones
      ensures srv.Wf() && srv.Tombstoned(c) && conns == old(conns)
      ensures srv.Value() == old(srv.Value()).(tombs := old(srv.Value()).tombs[c.id := Tomb(c.Rec(), c.channels, c.createdChannels, now + srv.cfg.reconnection)])
    {
      tombstones := tombstones[c.id := Tombstone(c, c.channels, c.createdChannels, now + srv.cfg.reconnection)];
      assert srv.Conns() == old(srv.Conns());
      assert c.id in srv.connRepo.tombstones;
      assert srv.Tombs() == old(srv.Tombs())[c.id := Tomb(c.Rec(), c.channels, c.createdChannels, now + srv.cfg.reconnection)];
      assert srv.Chans() == old(srv.Chans());
    }
  }

  class ChannelRepo {
    var channels: map<Key, Channel>

    constructor ()
      ensures channels == map[]
    {
      channels := map[];
    }

    method Remove(key: Key)
      modifies this
      ensures channels == old(channels) - {key}
    {
      channels := channels - {key};
    }

    method Init(srv: Server, now: int)
      requires srv.Wf() && srv.channelRepo == this && srv.Value() == State(map[], map[], map[], map[], map[])
      modifies this
      ensures srv.Wf() && srv.Value() == WsState.Init(srv.cfg, now)
    {
      if srv.cfg.defaultKey != "" {
        var ch := Insert(srv, srv.cfg.defaultKey, false, "", now);
      }
    }

    method Insert(srv: Server, key: Key, proprietary: bool, creatorID: ID, now: int) returns (ch: Channel)
      requires srv.Wf() && srv.channelRepo == this
      modifies this
      ensures fresh(ch) && srv.Wf() && ch.key == key && srv.Registered(ch)
      ensures srv.Value() == old(srv.Value()).(chans := old(srv.Value()).chans[key := Chan(proprietary, creatorID, {}, Some(now))])
    {
      ch := new Channel(key, proprietary, creatorID, now);
      channels := channels[key := ch];
      srv.ChannelAdded(ch);
    }

    method CreateChannel(srv: Server, creator: Connection?, key: Key, proprietary: bool, valid: bool, now: int) returns (ch: Channel?)
      requires srv.Wf() && srv.channelRepo == this
      requires creator != null ==> srv.Live(creator) && creator.id in srv.Value().conns && srv.Value().conns[creator.id] == creator.Rec()
      modifies this, if creator == null then {} else {creator}
      ensures srv.Wf()
      ensures var who := if creator == null then None else Some(old(creator.id));
        && (ch != null <==> CreateAllowed(srv.cfg, old(srv.Value()), who, key, valid))
        && srv.Value() == WsState.CreateChannel(srv.cfg, old(srv.Value()), who, key, proprietary, valid, now)
    {
      assert key in channels <==> key in srv.Value().chans;
      if (creator != null && srv.cfg.maxChannels > 0 && creator.createdChannels >= srv.cfg.maxChannels) || key in channels {
        return null;
      }
      if creator == null {
        ch := Establish(srv, key, proprietary, "", valid, now);
      } else {
        ch := EstablishFor(srv, creator, key, proprietary, valid, now);
      }
    }

    method EstablishFor(srv: Server, creator: Connection, key: Key, proprietary: bool, valid: bool, now: int) returns (ch: Channel?)
      requires srv.Wf() && srv.channelRepo == this && key !in channels
      requires srv.Live(creator) && creator.id in srv.Value().conns && srv.Value().conns[creator.id] == creator.Rec()
      modifies this, creator`createdChannels
      ensures srv.Wf() && (ch != null <==> valid)
      ensures var v, id := old(srv.Value()), creator.id; srv.Value() == if !valid then v else v.(
        chans := v.chans[key := Chan(proprietary, id, {}, Some(now))],
        conns := v.conns[id := v.conns[id].(created := v.conns[id].created + 1)])
    {
      ch := Establish(srv, key, proprietary, creator.id, valid, now);
      if ch != null {
        creator.IncrementCreatedChannels(srv);
      }
    }

    /** A refused validation rolls the registration back. */
    method Establish(srv: Server, key: Key, proprietary: bool, creatorID: ID, valid: bool, now: int) returns (ch: Channel?)
      requires srv.Wf() && srv.channelRepo == this && key !in channels
      modifies this
      ensures srv.Wf() && (ch != null <==> valid)
      ensures srv.Value() == if valid then old(srv.Value()).(chans := old(srv.Value()).chans[key := Chan(proprietary, creatorID, {}, Some(now))])
                             else old(srv.Value())
    {
      ghost var v := srv.Value();
      ch := Insert(srv, key, proprietary, creatorID, now);
      if !valid {
        ch.Unregister(srv);
        assert v.chans[key := Chan(proprietary, creatorID, {}, Some(now))] - {key} == v.chans;
        return null;
      }
    }

    ghost predicate Sweeping(srv: Server, before: State, due: set<Key>, order: seq<Key>, rest: set<Key>, now: int)
      reads srv, srv.connRepo, srv.channelRepo, srv.connRepo.conns.Values, srv.TombConns(), srv.channelRepo.channels.Values
    {
      && srv.channelRepo == this && srv.Wf() && rest <= due && Elements(order) + rest == due && Elements(order) !! rest
      && (forall k :: k in rest ==> Due(srv.cfg, srv.Value(), k, now))
      && srv.Value() == SweepEach(srv.cfg, before, order, now)
    }

    method Sweep(srv: Server, now: int) returns (ghost order: seq<Key>)
      requires srv.Wf() && srv.channelRepo == this
      modifies this, channels.Values, srv.connRepo.conns.Values
      ensures srv.Wf() && Elements(order) == set k | k in old(channels) && Due(srv.cfg, old(srv.Value()), k, now)
      ensures srv.Value() == SweepEach(srv.cfg, old(srv.Value()), order, now)
    {
      order := [];
      var due := set k | k in channels && srv.cfg.emptyTtl > 0 && k != srv.cfg.defaultKey && channels[k].IsAutoCloseDue(srv.cfg.emptyTtl * SECOND, now);
      var rest := due;
      while rest != {}
        invariant Sweeping(srv, old(srv.Value()), due, order, rest, now)
        invariant channels.Values <= old(channels.Values) && srv.connRepo.conns == old(srv.connRepo.conns)
      {
        var key :| key in rest;
        SweepOne(srv, old(srv.Value()), due, order, rest, key, now);
        order, rest := order + [key], rest - {key};
      }
    }

    method SweepOne(srv: Server, ghost before: State, ghost due: set<Key>, ghost order: seq<Key>, ghost rest: set<Key>, key: Key, now: int)
      requires Sweeping(srv, before, due, order, rest, now) && key in rest
      modifies this, channels.Values, srv.connRepo.conns.Values
      ensures Sweeping(srv, before, due, order + [key], rest - {key}, now)
      ensures channels.Values <= old(channels.Values) && srv.connRepo.conns == old(srv.connRepo.conns)
    {
      OneMoreKey(order, key);
      assert Due(srv.cfg, srv.Value(), key, now);
      channels[key].Close(srv);
    }
  }

  class Server {
    const cfg: Config
    const connRepo: ConnRepo
    const channelRepo: ChannelRepo

    constructor (cfg: Config)
      ensures this.cfg == cfg && fresh(connRepo) && fresh(channelRepo) && Wf()
      ensures Value() == State(map[], map[], map[], map[], map[])
    {
      this.cfg := cfg;
      connRepo := new ConnRepo();
      channelRepo := new ChannelRepo();
    }

    ghost function TombConns(): set<Connection> reads connRepo {
      set id | id in connRepo.tombstones :: connRepo.tombstones[id].conn
    }

    /** Every object is registered under its own key, and no connection is both live and tombstoned. */
    ghost predicate Keyed()
      reads this, connRepo, channelRepo, connRepo.conns.Values, TombConns()
    {
      && (forall id :: id in connRepo.conns ==> connRepo.conns[id].id == id)
      && (forall id :: id in connRepo.tombstones ==> connRepo.tombstones[id].conn.id == id)
      && connRepo.conns.Keys !! connRepo.tombstones.Keys
      && (forall k :: k in channelRepo.channels ==> channelRepo.channels[k].key == k)
    }

    ghost predicate Wf()
      reads this, connRepo, channelRepo, connRepo.conns.Values, TombConns(), channelRepo.channels.Values
    {
      Keyed() && forall k :: k in channelRepo.channels ==> !channelRepo.channels[k].closed
    }

    ghost predicate Registered(ch: Channel) reads channelRepo {
      ch.key in channelRepo.channels && channelRepo.channels[ch.key] == ch
    }

    ghost predicate Live(c: Connection) reads connRepo, c {
      c.id in connRepo.conns && connRepo.conns[c.id] == c
    }

    ghost predicate Tombstoned(c: Connection) reads connRepo, c {
      c.id in connRepo.tombstones && connRepo.tombstones[c.id].conn == c
    }

    ghost function Conns(): map<ID, Conn> reads connRepo, connRepo.conns.Values {
      map id | id in connRepo.conns :: connRepo.conns[id].Rec()
    }

    ghost function Tombs(): map<ID, Tomb> reads connRepo, TombConns() {
      map id | id in connRepo.tombstones :: var t := connRepo.tombstones[id];
        Tomb(t.conn.Rec(), t.channels, t.createdChannels, t.expiresAt)
    }

    ghost function Chans(): map<Key, Chan> reads channelRepo, channelRepo.channels.Values {
      map k | k in channelRepo.channels :: channelRepo.channels[k].Rec()
    }

    ghost function Value(): State
      reads this, connRepo, channelRepo, connRepo.conns.Values, TombConns(), channelRepo.channels.Values
    {
      State(Conns(), Tombs(), connRepo.IPs, connRepo.reqStat, Chans())
    }

    /** The live connections are the same objects with the same ID and status. */
    twostate predicate SameMates() reads connRepo, connRepo.conns.Values {
      connRepo.conns == old(connRepo.conns) &&
      forall id :: id in connRepo.conns ==> connRepo.conns[id].id == old(connRepo.conns[id].id) && connRepo.conns[id].status == old(connRepo.conns[id].status)
    }

    ghost predicate MatesLive(ch: Channel) reads ch, connRepo {
      forall id :: id in ch.connections ==> id in connRepo.conns
    }

    /** The value once a connection's own record lists no channels. */
    ghost function Cleared(c: Connection): State
      reads this, connRepo, channelRepo, connRepo.conns.Values, TombConns(), channelRepo.channels.Values, c
    {
      if Tombstoned(c) then Value().(tombs := Value().tombs[c.id := Value().tombs[c.id].(conn := c.Rec().(channels := {}))])
      else if Live(c) then Value().(conns := Value().conns[c.id := c.Rec().(channels := {})])
      else Value()
    }

    twostate lemma NothingChanged()
      requires old(Keyed()) && unchanged(connRepo, channelRepo)
      requires unchanged(connRepo.conns.Values) && unchanged(TombConns()) && unchanged(channelRepo.channels.Values)
      ensures Keyed() && Value() == old(Value())
    {
      assert Conns() == old(Conns());
      assert Tombs() == old(Tombs());
      assert Chans() == old(Chans());
    }

    /** One registered channel changed in place and nothing else did. */
    twostate lemma ChannelChanged(ch: Channel)
      requires old(Keyed()) && Registered(ch)
      requires unchanged(connRepo, channelRepo) && unchanged(connRepo.conns.Values) && unchanged(TombConns())
      requires forall k :: k in channelRepo.channels && k != ch.key ==> unchanged(channelRepo.channels[k])
      ensures Keyed() && Value() == old(Value()).(chans := old(Value()).chans[ch.key := ch.Rec()])
    {
      assert Conns() == old(Conns());
      assert Tombs() == old(Tombs());
      assert Chans() == old(Chans())[ch.key := ch.Rec()];
    }

    /** One live connection changed in place, but for its ID, and nothing else did. */
    twostate lemma LiveChanged(c: Connection)
      requires old(Keyed()) && Live(c) && c.id == old(c.id)
      requires unchanged(connRepo, channelRepo) && unchanged(channelRepo.channels.Values) && unchanged(TombConns())
      requires forall id :: id in connRepo.conns && id != c.id ==> unchanged(connRepo.conns[id])
      ensures Keyed() && Value() == old(Value()).(conns := old(Value()).conns[c.id := c.Rec()])
    {
      assert Conns() == old(Conns())[c.id := c.Rec()];
      assert Tombs() == old(Tombs());
      assert Chans() == old(Chans());
    }

    /** One tombstoned connection changed in place, but for its ID, and nothing else did. */
    twostate lemma TombChanged(c: Connection)
      requires old(Keyed()) && Tombstoned(c) && c.id == old(c.id)
      requires unchanged(connRepo, channelRepo) && unchanged(channelRepo.channels.Values) && unchanged(connRepo.conns.Values)
      requires forall id :: id in connRepo.tombstones && id != c.id ==> unchanged(connRepo.tombstones[id].conn)
      ensures Keyed() && Value() == old(Value()).(tombs := old(Value()).tombs[c.id := old(Value()).tombs[c.id].(conn := c.Rec())])
    {
      assert Conns() == old(Conns());
      assert Tombs() == old(Tombs())[c.id := old(Tombs())[c.id].(conn := c.Rec())];
      assert Chans() == old(Chans());
    }

    /** A connection became live, in the place of any other with its ID; no object changed. */
    twostate lemma ConnAdded(c: Connection)
      requires old(Keyed()) && unchanged(channelRepo) && unchanged(channelRepo.channels.Values) && unchanged(c)
      requires connRepo.conns == old(connRepo.conns)[c.id := c]
      requires connRepo.tombstones == old(connRepo.tombstones) - {c.id}
      requires forall id :: id in old(connRepo.conns) ==> unchanged(old(connRepo.conns)[id])
      requires forall id :: id in old(connRepo.tombstones) ==> unchanged(old(connRepo.tombstones)[id].conn)
      ensures Keyed()
      ensures Value() == State(old(Value()).conns[c.id := c.Rec()], old(Value()).tombs - {c.id}, connRepo.IPs, connRepo.reqStat, old(Value()).chans)
    {
      assert c.id in connRepo.conns;
      assert Conns() == old(Conns())[c.id := c.Rec()];
      assert Tombs() == old(Tombs()) - {c.id};
      assert Chans() == old(Chans());
    }

    /** A live connection took over an ID that nobody held. */
    twostate lemma LiveRekeyed(conn: Connection)
      requires old(Keyed()) && old(Live(conn)) && conn.id !in old(connRepo.conns) && conn.id !in old(connRepo.tombstones)
      requires unchanged(channelRepo) && unchanged(channelRepo.channels.Values)
      requires connRepo.conns == old(connRepo.conns)[conn.id := conn] - {old(conn.id)}
      requires connRepo.tombstones == old(connRepo.tombstones) && unchanged(TombConns())
      requires forall id :: id in old(connRepo.conns) && id != old(conn.id) ==> unchanged(old(connRepo.conns)[id])
      ensures Keyed()
      ensures Value() == State(old(Value()).conns[conn.id := conn.Rec()] - {old(conn.id)}, old(Value()).tombs,
                               connRepo.IPs, connRepo.reqStat, old(Value()).chans)
    {
      assert conn.id in connRepo.conns;
      assert Conns() == old(Conns())[conn.id := conn.Rec()] - {old(conn.id)};
      assert Tombs() == old(Tombs());
      assert Chans() == old(Chans());
    }

    /** A new channel was registered; no other object changed. */
    twostate lemma ChannelAdded(new ch: Channel)
      requires old(Keyed()) && unchanged(connRepo) && unchanged(connRepo.conns.Values) && unchanged(TombConns())
      requires channelRepo.channels == old(channelRepo.channels)[ch.key := ch]
      requires forall k :: k in old(channelRepo.channels) ==> unchanged(old(channelRepo.channels)[k])
      ensures Keyed() && Value() == old(Value()).(chans := old(Value()).chans[ch.key := ch.Rec()])
    {
      assert ch.key in channelRepo.channels;
      assert Conns() == old(Conns());
      assert Tombs() == old(Tombs());
      assert Chans() == old(Chans())[ch.key := ch.Rec()];
    }

    /** Connections and tombstones were taken out of their maps; no object changed. */
    twostate lemma ConnsDropped(new ids: set<ID>, new dead: set<ID>)
      requires old(Keyed()) && unchanged(channelRepo) && unchanged(channelRepo.channels.Values)
      requires connRepo.conns == old(connRepo.conns) - ids && connRepo.tombstones == old(connRepo.tombstones) - dead
      requires forall id :: id in old(connRepo.conns) ==> unchanged(old(connRepo.conns)[id])
      requires forall id :: id in old(connRepo.tombstones) ==> unchanged(old(connRepo.tombstones)[id].conn)
      ensures Keyed()
      ensures Value() == State(old(Value()).conns - ids, old(Value()).tombs - dead, connRepo.IPs, connRepo.reqStat, old(Value()).chans)
    {
      assert Conns() == old(Conns()) - ids;
      assert Tombs() == old(Tombs()) - dead;
      assert Chans() == old(Chans());
    }

    /** A channel was taken out of the registry; no object changed. */
    twostate lemma ChannelDropped(key: Key)
      requires old(Keyed()) && unchanged(connRepo) && channelRepo.channels == old(channelRepo.channels) - {key}
      requires unchanged(connRepo.conns.Values) && unchanged(TombConns()) && unchanged(channelRepo.channels.Values)
      ensures Keyed() && Value() == old(Value()).(chans := old(Value()).chans - {key})
    {
      assert Conns() == old(Conns());
      assert Tombs() == old(Tombs());
      assert Chans() == old(Chans()) - {key};
    }
  }
}
