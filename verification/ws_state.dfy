/** The registries of the WebSocket server as one value, and every registry operation as a function
    on that value. Objects that the server shares by pointer (connections, channels) are records
    here; ws_objects.dfy has the classes and proves that their methods compute these functions. */
module WsState {
  import opened Common

  type ID = string
  type Key = string

  datatype Status = Created | Connecting | Active | Disconnected | Reconnecting | Closed

  datatype Conn = Conn(ip: string, status: Status, channels: set<Key>, created: nat, ready: bool)

  /** A dropped connection that may still come back: its record, and what it held when it dropped. */
  datatype Tomb = Tomb(conn: Conn, channels: set<Key>, created: nat, expiresAt: int)

  datatype Chan = Chan(proprietary: bool, creator: ID, members: set<ID>, emptySince: Option<int>)

  datatype ReqCounter = ReqCounter(last: int, cnt: nat)

  /** Zero means "no limit" for the first four, and the empty key means "no default channel". */
  datatype Config = Config(maxRequests: nat, maxPerIp: nat, maxChannels: nat, emptyTtl: int,
                           defaultKey: Key, reconnection: int)

  /** A request entry may hold no counter at all: re-keying copies a missing entry as nil. */
  datatype State = State(conns: map<ID, Conn>, tombs: map<ID, Tomb>, ips: map<string, int>,
                         requests: map<ID, Option<ReqCounter>>, chans: map<Key, Chan>)

  const SECOND: int := 1_000_000_000
  const MINUTE: int := 60 * SECOND

  // ---------- Channel ----------

  function WithMembers(ch: Chan, members: set<ID>, now: int): Chan {
    var since := if members != {} then None
                 else if ch.emptySince == None then Some(now)
                 else ch.emptySince;
    ch.(members := members, emptySince := since)
  }

  predicate AutoCloseDue(ch: Chan, ttl: int, now: int) {
    !ch.proprietary && ch.members == {} && ch.emptySince.Some? && now - ch.emptySince.value >= ttl
  }

  function AddMember(s: State, key: Key, id: ID, now: int): State
    requires key in s.chans
  {
    s.(chans := s.chans[key := WithMembers(s.chans[key], s.chans[key].members + {id}, now)])
  }

  function Kick(conns: map<ID, Conn>, members: set<ID>, key: Key): map<ID, Conn> {
    map id | id in conns ::
      if id in members then conns[id].(channels := conns[id].channels - {key}) else conns[id]
  }

  function Credit(conns: map<ID, Conn>, creator: ID): map<ID, Conn> {
    if creator != "" && creator in conns then
      var c := conns[creator];
      conns[creator := c.(created := if c.created > 0 then c.created - 1 else 0)]
    else
      conns
  }

  function CloseChannel(s: State, key: Key): State {
    if key !in s.chans then s
    else
      var ch := s.chans[key];
      s.(conns := Credit(Kick(s.conns, ch.members, key), ch.creator), chans := s.chans - {key})
  }

  function LeaveChannel(s: State, key: Key, id: ID, status: Status, now: int): State {
    if key !in s.chans then s
    else
      var ch := s.chans[key];
      var left := s.(chans := s.chans[key := WithMembers(ch, ch.members - {id}, now)]);
      if ch.proprietary && ch.creator == id && status != Disconnected
      then CloseChannel(left, key) else left
  }

  /** Connection.LeaveAllChannels: the keys come in whatever order the map yields them. */
  function LeaveEach(s: State, keys: seq<Key>, id: ID, status: Status, now: int): State {
    if keys == [] then s
    else LeaveChannel(LeaveEach(s, keys[..|keys| - 1], id, status, now), keys[|keys| - 1], id, status, now)
  }

  /** The channels that close when `id` leaves `keys` with `status`. */
  function Doomed(s: State, keys: set<Key>, id: ID, status: Status): set<Key> {
    set k | k in s.chans && k in keys && s.chans[k].proprietary && s.chans[k].creator == id && status != Disconnected
  }

  /** The order-free result of LeaveEach for a connection that is no longer live. */
  function LeaveAll(s: State, keys: set<Key>, id: ID, status: Status, now: int): State {
    var doomed := Doomed(s, keys, id, status);
    s.(conns := map i | i in s.conns ::
                  s.conns[i].(channels := set k | k in s.conns[i].channels && !(k in doomed && i in s.chans[k].members)),
       chans := map k | k in s.chans && k !in doomed ::
                  if k in keys then WithMembers(s.chans[k], s.chans[k].members - {id}, now) else s.chans[k])
  }

  // ---------- ConnRepo ----------

  function IpCount(ips: map<string, int>, ip: string): int {
    if ip in ips then ips[ip] else 0
  }

  predicate IpAllowed(cfg: Config, s: State, ip: string) {
    cfg.maxPerIp == 0 || IpCount(s.ips, ip) < cfg.maxPerIp
  }

  function DropIp(ips: map<string, int>, ip: string): map<string, int> {
    var n := IpCount(ips, ip) - 1;
    if n == 0 then ips - {ip} else ips[ip := n]
  }

  /** Handle behind the handshake: Add, which looks at no limit. The check of the IP came before the handshake. */
  function Add(s: State, id: ID, ip: string): State {
    s.(conns := s.conns[id := Conn(ip, Connecting, {}, 0, false)], ips := s.ips[ip := IpCount(s.ips, ip) + 1],
       tombs := s.tombs - {id})
  }

  function RemoveImmediate(s: State, id: ID): State
    requires id in s.conns
  {
    s.(conns := s.conns - {id}, ips := DropIp(s.ips, s.conns[id].ip),
       tombs := s.tombs - {id}, requests := s.requests - {id})
  }

  function MarkDisconnected(cfg: Config, s: State, id: ID, now: int): State
    requires id in s.conns
  {
    var c := s.conns[id];
    s.(conns := s.conns - {id}, ips := DropIp(s.ips, c.ip), requests := s.requests - {id},
       tombs := s.tombs[id := Tomb(c, c.channels, c.created, now + cfg.reconnection)])
  }

  function Reconnect(s: State, id: ID, prev: ID, now: int): State
    requires id in s.conns
  {
    if prev !in s.tombs || s.tombs[prev].conn.ip != s.conns[id].ip then s
    else
      var t := s.tombs[prev];
      var entry := if id in s.requests then s.requests[id] else None;
      var back := s.conns[id].(status := Reconnecting, channels := t.channels * s.chans.Keys, created := t.created);
      s.(tombs := s.tombs - {prev},
         requests := s.requests[prev := entry] - {id},
         conns := s.conns[prev := back] - {id},
         chans := map k | k in s.chans ::
                    if k in t.channels then WithMembers(s.chans[k], s.chans[k].members + {prev}, now) else s.chans[k])
  }

  /** One pass of the tombstone sweep over one entry. */
  function Expire(s: State, id: ID, now: int): State
    requires id in s.tombs
  {
    var t := s.tombs[id];
    if now <= t.expiresAt then s
    else
      var gone := s.(conns := s.conns - {id}, requests := s.requests - {id}, tombs := s.tombs - {id});
      if t.conn.status == Closed then gone  // Connection.Close returns at once
      else LeaveAll(gone, t.channels, id, if t.conn.status == Disconnected then Closed else t.conn.status, now)
  }

  // ---------- Connection ----------

  function Enter(s: State, id: ID, key: Key, allowed: bool, now: int): State
    requires id in s.conns
  {
    if key !in s.chans || (id !in s.chans[key].members && !allowed) then s
    else
      var t := if id in s.chans[key].members then s else AddMember(s, key, id, now);
      t.(conns := t.conns[id := t.conns[id].(channels := t.conns[id].channels + {key})])
  }

  function Leave(s: State, id: ID, key: Key, now: int): State
    requires id in s.conns
  {
    if key !in s.chans || id !in s.chans[key].members then s
    else
      var c := s.conns[id];
      LeaveChannel(s.(conns := s.conns[id := c.(channels := c.channels - {key})]), key, id, c.status, now)
  }

  /** Connection.Close on a live connection. */
  function Close(cfg: Config, s: State, id: ID, now: int): State
    requires id in s.conns
  {
    var c := s.conns[id];
    if c.ready then
      LeaveAll(RemoveImmediate(s, id), c.channels, id, Closed, now)
    else
      var m := MarkDisconnected(cfg, s, id, now);
      var t := m.tombs[id];
      var m' := m.(tombs := m.tombs[id := t.(conn := c.(status := Disconnected, channels := {}))]);
      LeaveAll(m', c.channels, id, Disconnected, now)
  }

  /** The second Close that Handle defers after Break has already closed: it finds the status
      Disconnected, no channels left, and only moves the tombstoned connection on to Closed. */
  function CloseAgain(s: State, id: ID): State
    requires id in s.tombs
  {
    var t := s.tombs[id];
    if t.conn.status == Disconnected then s.(tombs := s.tombs[id := t.(conn := t.conn.(status := Closed))]) else s
  }

  // ---------- ChannelRepo ----------

  predicate CreateAllowed(cfg: Config, s: State, creator: Option<ID>, key: Key, valid: bool)
    requires creator.Some? ==> creator.value in s.conns
  {
    && (creator.Some? && cfg.maxChannels > 0 ==> s.conns[creator.value].created < cfg.maxChannels)
    && key !in s.chans
    && valid
  }

  function CreateChannel(cfg: Config, s: State, creator: Option<ID>, key: Key, proprietary: bool, valid: bool, now: int): State
    requires creator.Some? ==> creator.value in s.conns
  {
    if !CreateAllowed(cfg, s, creator, key, valid) then s
    else
      var who := if creator.Some? then creator.value else "";
      var t := s.(chans := s.chans[key := Chan(proprietary, who, {}, Some(now))]);
      if creator.Some? then
        t.(conns := t.conns[who := t.conns[who].(created := t.conns[who].created + 1)])
      else t
  }

  /** A channel created on behalf of a connection, which then enters it (Connection.createChannel). */
  function CreateAndEnter(cfg: Config, s: State, id: ID, key: Key, proprietary: bool, valid: bool, admitted: bool, now: int): State
    requires id in s.conns
  {
    if !CreateAllowed(cfg, s, Some(id), key, valid) then s
    else Enter(CreateChannel(cfg, s, Some(id), key, proprietary, valid, now), id, key, admitted, now)
  }

  /** One entry of the empty-channel sweep. */
  function SweepChannel(cfg: Config, s: State, key: Key, now: int): State {
    if cfg.emptyTtl > 0 && key in s.chans && key != cfg.defaultKey && AutoCloseDue(s.chans[key], cfg.emptyTtl * SECOND, now)
    then CloseChannel(s, key) else s
  }

  /** The state after ChannelRepo.Init. */
  function Init(cfg: Config, now: int): State {
    State(map[], map[], map[], map[],
          if cfg.defaultKey == "" then map[] else map[cfg.defaultKey := Chan(false, "", {}, Some(now))])
  }

  // ---------- Requests ----------

  /** CheckRequestLimit: the new counter and the verdict. */
  function CountRequest(maxRequests: nat, history: Option<ReqCounter>, now: int): (ReqCounter, bool)
  {
    var c := if history.None? || history.value.last < now - MINUTE then ReqCounter(now, 1)
             else history.value.(cnt := history.value.cnt + 1);
    (c, c.cnt <= maxRequests)
  }

  function Request(cfg: Config, s: State, id: ID, now: int): State {
    if cfg.maxRequests == 0 then s
    else
      var history := if id in s.requests then s.requests[id] else None;
      s.(requests := s.requests[id := Some(CountRequest(cfg.maxRequests, history, now).0)])
  }
}
