/** Whole runs of the server: any number of steps, in any order, from the state after start-up. */
module WsRuns {
  import opened Common
  import opened WsState
  import opened WsInvariants
  import opened WsAccounting

  // ---------- When channels end ----------

  predicate OwnedBy(ch: Chan, id: ID) {
    ch.proprietary && ch.creator == id
  }

  /** The one step that ends channel k in state s, if it is the step at hand. */
  predicate Ends(cfg: Config, s: State, step: Step, now: int, k: Key)
    requires Enabled(cfg, s, step) && k in s.chans
  {
    var ch := s.chans[k];
    match step
    case SCloseChannel(key) => key == k
    case SSweepChannel(key) => key == k && k != cfg.defaultKey && cfg.emptyTtl > 0 && AutoCloseDue(ch, cfg.emptyTtl * SECOND, now)
    case SLeave(id, key) => key == k && OwnedBy(ch, id) && id in ch.members
    case SClose(id) => s.conns[id].ready && OwnedBy(ch, id) && k in s.conns[id].channels
    case SExpire(id) =>
      var t := s.tombs[id];
      now > t.expiresAt && t.conn.status == Disconnected && OwnedBy(ch, id) && k in t.channels
    case _ => false
  }

  lemma EndsAtClose(cfg: Config, s: State, id: ID, now: int, k: Key)
    requires id in s.conns && k in s.chans
    ensures k !in Close(cfg, s, id, now).chans <==> Ends(cfg, s, SClose(id), now, k)
    ensures k in Close(cfg, s, id, now).chans ==> SameTerms(s.chans[k], Close(cfg, s, id, now).chans[k])
  {
  }

  lemma EndsAtLeave(cfg: Config, s: State, id: ID, key: Key, now: int, k: Key)
    requires Sound(s) && id in s.conns && k in s.chans
    ensures k !in Leave(s, id, key, now).chans <==> Ends(cfg, s, SLeave(id, key), now, k)
    ensures k in Leave(s, id, key, now).chans ==> SameTerms(s.chans[k], Leave(s, id, key, now).chans[k])
  {
  }

  lemma EndsAtExpire(cfg: Config, s: State, id: ID, now: int, k: Key)
    requires Sound(s) && id in s.tombs && k in s.chans
    ensures k !in Expire(s, id, now).chans <==> Ends(cfg, s, SExpire(id), now, k)
    ensures k in Expire(s, id, now).chans ==> SameTerms(s.chans[k], Expire(s, id, now).chans[k])
  {
  }

  lemma EndsAtEntry(cfg: Config, s: State, step: Step, now: int, k: Key)
    requires Enabled(cfg, s, step) && k in s.chans && (step.SEnter? || step.SCreate? || step.SCreateAndEnter? || step.SReconnect?)
    ensures k in Apply(cfg, s, step, now).chans && SameTerms(s.chans[k], Apply(cfg, s, step, now).chans[k])
  {
  }

  predicate SameTerms(a: Chan, b: Chan) {
    a.proprietary == b.proprietary && a.creator == b.creator
  }

  lemma EndsExactly(cfg: Config, s: State, step: Step, now: int, k: Key)
    requires Sound(s) && Enabled(cfg, s, step) && k in s.chans
    ensures k !in Apply(cfg, s, step, now).chans <==> Ends(cfg, s, step, now, k)
    ensures k in Apply(cfg, s, step, now).chans ==>
      SameTerms(s.chans[k], Apply(cfg, s, step, now).chans[k])
  {
    match step
    case SClose(id) => EndsAtClose(cfg, s, id, now, k);
    case SLeave(id, key) => EndsAtLeave(cfg, s, id, key, now, k);
    case SExpire(id) => EndsAtExpire(cfg, s, id, now, k);
    case SEnter(_, _, _) => EndsAtEntry(cfg, s, step, now, k);
    case SCreate(_, _, _, _) => EndsAtEntry(cfg, s, step, now, k);
    case SCreateAndEnter(_, _, _, _, _) => EndsAtEntry(cfg, s, step, now, k);
    case SReconnect(_, _) => EndsAtEntry(cfg, s, step, now, k);
    case _ =>
  }

  // ---------- Proprietary channels and their creators ----------

  predicate HeldBy(s: State, k: Key, id: ID) {
    (id in s.conns && k in s.conns[id].channels) || (id in s.tombs && k in s.tombs[id].channels)
  }

  /** Every proprietary channel with a creator has it as a live member or in a tombstone that lists it. */
  predicate Held(s: State) {
    forall k :: k in s.chans && s.chans[k].proprietary && s.chans[k].creator != "" ==> HeldBy(s, k, s.chans[k].creator)
  }

  /** The steps after which a proprietary channel has no creator to close it: creating one without
      its creator getting in, and expiring the tombstone of a creator that was closed twice. */
  predicate Orphans(cfg: Config, s: State, step: Step, now: int)
    requires Enabled(cfg, s, step)
  {
    match step
    case SCreate(creator, key, proprietary, valid) =>
      proprietary && creator.Some? && CreateAllowed(cfg, s, creator, key, valid)
    case SCreateAndEnter(id, key, proprietary, valid, admitted) =>
      proprietary && !admitted && CreateAllowed(cfg, s, Some(id), key, valid)
    case SExpire(id) =>
      var t := s.tombs[id];
      now > t.expiresAt && t.conn.status == Closed && exists k :: k in t.channels && k in s.chans && OwnedBy(s.chans[k], id)
    case _ => false
  }

  predicate HeldBut(s: State, key: Key) {
    forall k :: k in s.chans && k != key && s.chans[k].proprietary && s.chans[k].creator != "" ==> HeldBy(s, k, s.chans[k].creator)
  }

  lemma CreateHoldsOthers(cfg: Config, s: State, creator: Option<ID>, key: Key, proprietary: bool, now: int)
    requires Sound(s) && Held(s) && (creator.Some? ==> creator.value in s.conns) && CreateAllowed(cfg, s, creator, key, true)
    ensures var t := CreateChannel(cfg, s, creator, key, proprietary, true, now);
      && HeldBut(t, key) && key in t.chans && t.chans[key].members == {}
      && t.chans[key].proprietary == proprietary && t.chans[key].creator == (if creator.Some? then creator.value else "")
      && forall id :: !HeldBy(t, key, id) || (id in s.tombs && key in s.tombs[id].channels && id !in s.conns)
  {
  }

  lemma EnterHolds(s: State, id: ID, key: Key, now: int)
    requires HeldBut(s, key) && id in s.conns && key in s.chans && s.chans[key].creator == id
    ensures Held(Enter(s, id, key, true, now))
  {
  }

  lemma HeldCreate(cfg: Config, s: State, step: Step, now: int)
    requires Sound(s) && Held(s) && Enabled(cfg, s, step) && (step.SCreate? || step.SCreateAndEnter?)
    ensures Held(Apply(cfg, s, step, now)) <==> !Orphans(cfg, s, step, now)
  {
    var creator := if step.SCreate? then step.creator else Some(step.id);
    if CreateAllowed(cfg, s, creator, step.key, step.valid) {
      CreateHoldsOthers(cfg, s, creator, step.key, step.proprietary, now);
      if step.SCreateAndEnter? && step.admitted {
        EnterHolds(CreateChannel(cfg, s, creator, step.key, step.proprietary, true, now), step.id, step.key, now);
      }
    }
  }

  lemma HeldExpire(cfg: Config, s: State, id: ID, now: int)
    requires Sound(s) && Held(s) && id in s.tombs
    ensures Held(Expire(s, id, now)) <==> !Orphans(cfg, s, SExpire(id), now)
  {
  }

  lemma HeldClose(cfg: Config, s: State, id: ID, now: int)
    requires Sound(s) && Held(s) && id in s.conns
    ensures Held(Close(cfg, s, id, now))
  {
  }

  lemma HeldReconnect(s: State, id: ID, prev: ID, now: int)
    requires Sound(s) && Held(s) && id in s.conns && s.conns[id].channels == {}
    ensures Held(Reconnect(s, id, prev, now))
  {
  }

  lemma HeldLeave(s: State, id: ID, key: Key, now: int)
    requires Sound(s) && Held(s) && id in s.conns
    ensures Held(Leave(s, id, key, now))
  {
  }

  lemma HeldExactly(cfg: Config, s: State, step: Step, now: int)
    requires Sound(s) && Held(s) && Enabled(cfg, s, step)
    ensures Held(Apply(cfg, s, step, now)) <==> !Orphans(cfg, s, step, now)
  {
    match step
    case SCreate(_, _, _, _) => HeldCreate(cfg, s, step, now);
    case SCreateAndEnter(_, _, _, _, _) => HeldCreate(cfg, s, step, now);
    case SExpire(id) => HeldExpire(cfg, s, id, now);
    case SClose(id) => HeldClose(cfg, s, id, now);
    case SReconnect(id, prev) => HeldReconnect(s, id, prev, now);
    case SLeave(id, key) => HeldLeave(s, id, key, now);
    case _ =>
  }

  /** Once a creator is gone for good - it asked to close, or its tombstone expired - nothing it owned is left. */
  lemma CreatorGone(cfg: Config, s: State, step: Step, now: int)
    requires Sound(s) && Held(s) && Enabled(cfg, s, step)
    requires (step.SClose? && s.conns[step.id].ready) ||
             (step.SExpire? && now > s.tombs[step.id].expiresAt && s.tombs[step.id].conn.status == Disconnected)
    ensures forall k :: k in Apply(cfg, s, step, now).chans ==> !OwnedBy(Apply(cfg, s, step, now).chans[k], step.id)
  {
    HeldExactly(cfg, s, step, now);
    SoundStep(cfg, s, step, now);
  }

  /** A proprietary channel waiting for its disconnected creator. */
  predicate Waiting(s: State, k: Key, id: ID) {
    id in s.tombs && k in s.tombs[id].channels && k in s.chans && OwnedBy(s.chans[k], id)
  }

  predicate EndsWait(s: State, step: Step, k: Key, id: ID) {
    step == SCloseChannel(k) || step == SExpire(id) || (step.SReconnect? && step.prev == id)
  }

  lemma WaitingStep(cfg: Config, s: State, step: Step, now: int, k: Key, id: ID)
    requires Sound(s) && Waiting(s, k, id) && Enabled(cfg, s, step) && !EndsWait(s, step, k, id)
    ensures Waiting(Apply(cfg, s, step, now), k, id)
  {
    EndsExactly(cfg, s, step, now, k);
    TombStays(cfg, s, step, now, id);
  }

  lemma TombStays(cfg: Config, s: State, step: Step, now: int, id: ID)
    requires Sound(s) && id in s.tombs && Enabled(cfg, s, step) && step != SExpire(id) && !(step.SReconnect? && step.prev == id)
    ensures id in Apply(cfg, s, step, now).tombs && Apply(cfg, s, step, now).tombs[id].channels == s.tombs[id].channels
  {
    if step.SEnter? || step.SLeave? || step.SCreate? || step.SCreateAndEnter? || step.SCloseChannel? || step.SSweepChannel? {
      OnlineKeepsTombs(cfg, s, step, now);
    } else if Plain(step) {
      PlainKeepsTomb(cfg, s, step, now, id);
    }
  }

  lemma OnlineKeepsTombs(cfg: Config, s: State, step: Step, now: int)
    requires Enabled(cfg, s, step)
    requires step.SEnter? || step.SLeave? || step.SCreate? || step.SCreateAndEnter? || step.SCloseChannel? || step.SSweepChannel?
    ensures Apply(cfg, s, step, now).tombs == s.tombs
  {
  }

  lemma PlainKeepsTomb(cfg: Config, s: State, step: Step, now: int, id: ID)
    requires id in s.tombs && Enabled(cfg, s, step) && Plain(step)
    ensures id in Apply(cfg, s, step, now).tombs && Apply(cfg, s, step, now).tombs[id].channels == s.tombs[id].channels
  {
  }

  lemma WaitBegins(cfg: Config, s: State, id: ID, now: int, k: Key)
    requires id in s.conns && !s.conns[id].ready && k in s.conns[id].channels && k in s.chans && OwnedBy(s.chans[k], id)
    ensures Waiting(Close(cfg, s, id, now), k, id)
  {
  }

  lemma WaitEnds(s: State, id: ID, prev: ID, now: int, k: Key)
    requires Sound(s) && Waiting(s, k, prev) && id in s.conns && s.tombs[prev].conn.ip == s.conns[id].ip
    ensures var t := Reconnect(s, id, prev, now);
      && k in t.chans && OwnedBy(t.chans[k], prev)
      && prev in t.conns && prev in t.chans[k].members && k in t.conns[prev].channels
  {
  }

  // ---------- Runs ----------

  datatype Event = Event(step: Step, now: int)

  /** The time since which state i of a run has been in force. */
  function Since(start: int, es: seq<Event>, i: nat): int
    requires i <= |es|
  {
    if i == 0 then start else es[i - 1].now
  }

  predicate IsRun(cfg: Config, start: int, es: seq<Event>, ss: seq<State>) {
    && |ss| == |es| + 1
    && ss[0] == Init(cfg, start)
    && (forall i :: 0 <= i < |es| ==> Enabled(cfg, ss[i], es[i].step) && ss[i + 1] == Apply(cfg, ss[i], es[i].step, es[i].now))
    && (forall i {:trigger PendingAt(cfg, es, ss, i)} :: 0 <= i < |es| ==> Admissible(PendingAt(cfg, es, ss, i), es[i].step))
    && InOrder(start, es)
  }

  /** The connections that have passed the check of their IP in the first n steps, and are neither added nor given up:
      the server is waiting for their handshakes. */
  function PendingAt(cfg: Config, es: seq<Event>, ss: seq<State>, n: nat): map<ID, string>
    requires n <= |es| < |ss|
  {
    if n == 0 then map[]
    else
      var before := PendingAt(cfg, es, ss, n - 1);
      match es[n - 1].step
      case SCheckIp(id, ip) => if IpAllowed(cfg, ss[n - 1], ip) then before[id := ip] else before
      case SAdd(id, _) => before - {id}
      case SGiveUp(id) => before - {id}
      case _ => before
  }

  /** Only a pending connection is added or given up, and none is checked twice. */
  predicate Admissible(pending: map<ID, string>, step: Step) {
    match step
    case SCheckIp(id, _) => id !in pending
    case SAdd(id, ip) => id in pending && pending[id] == ip
    case SGiveUp(id) => id in pending
    case _ => true
  }

  predicate InOrder(start: int, es: seq<Event>) {
    forall i {:trigger Since(start, es, i)} :: 0 <= i < |es| ==> Since(start, es, i) <= es[i].now
  }

  ghost predicate Consistent(cfg: Config, s: State) {
    Sound(s) && Covered(cfg, s) && Counted(s) && Clocked(s)
  }

  lemma ConsistentInit(cfg: Config, start: int)
    ensures Consistent(cfg, Init(cfg, start)) && Held(Init(cfg, start))
  {
  }

  lemma {:induction false} RunConsistent(cfg: Config, start: int, es: seq<Event>, ss: seq<State>, n: nat)
    requires IsRun(cfg, start, es, ss) && n <= |es|
    ensures Consistent(cfg, ss[n])
  {
    if n == 0 {
      ConsistentInit(cfg, start);
    } else {
      RunConsistent(cfg, start, es, ss, n - 1);
      var e := es[n - 1];
      SoundStep(cfg, ss[n - 1], e.step, e.now);
      CoveredStep(cfg, ss[n - 1], e.step, e.now);
      CountedStep(cfg, ss[n - 1], e.step, e.now);
      ClockedStep(cfg, ss[n - 1], e.step, e.now);
    }
  }

  /** Lookups the server leaves unchecked, the channel quota and the IP table, at every moment of every run. */
  lemma RunLimits(cfg: Config, start: int, es: seq<Event>, ss: seq<State>, n: nat)
    requires IsRun(cfg, start, es, ss) && n <= |es|
    ensures forall k, id :: k in ss[n].chans && id in ss[n].chans[k].members ==> id in ss[n].conns
    ensures forall id :: cfg.maxChannels > 0 && (id in ss[n].conns || id in ss[n].tombs) ==> |CreatedBy(ss[n], id)| <= cfg.maxChannels
    ensures forall ip :: ip in ss[n].ips <==> LiveFrom(ss[n], ip) != {}
    ensures forall ip :: ip in ss[n].ips ==> ss[n].ips[ip] == |LiveFrom(ss[n], ip)|
  {
    RunConsistent(cfg, start, es, ss, n);
    forall ip ensures ip in ss[n].ips <==> LiveFrom(ss[n], ip) != {} {
      assert IpCount(ss[n].ips, ip) == |LiveFrom(ss[n], ip)|;
    }
  }

  /** As long as no step orphans a channel, every proprietary channel stays held by its creator. */
  lemma {:induction false} RunHeld(cfg: Config, start: int, es: seq<Event>, ss: seq<State>, n: nat)
    requires IsRun(cfg, start, es, ss) && n <= |es|
    requires forall i :: 0 <= i < n ==> !Orphans(cfg, ss[i], es[i].step, es[i].now)
    ensures Held(ss[n])
  {
    if n == 0 {
      ConsistentInit(cfg, start);
    } else {
      RunHeld(cfg, start, es, ss, n - 1);
      RunConsistent(cfg, start, es, ss, n - 1);
      HeldExactly(cfg, ss[n - 1], es[n - 1].step, es[n - 1].now);
    }
  }

  lemma {:induction false} RunWaits(cfg: Config, start: int, es: seq<Event>, ss: seq<State>, a: nat, b: nat, k: Key, id: ID)
    requires IsRun(cfg, start, es, ss) && a <= b <= |es| && Waiting(ss[a], k, id)
    requires forall i :: a <= i < b ==> !EndsWait(ss[i], es[i].step, k, id)
    ensures Waiting(ss[b], k, id)
    decreases b - a
  {
    if a < b {
      RunWaits(cfg, start, es, ss, a, b - 1, k, id);
      RunConsistent(cfg, start, es, ss, b - 1);
      WaitingStep(cfg, ss[b - 1], es[b - 1].step, es[b - 1].now, k, id);
    }
  }

  /** A proprietary channel outlives its creator's disconnect and reconnect, whatever happens in between
      short of an explicit close or the creator's expiry; the creator is a member again. */
  lemma RunSurvivesReconnect(cfg: Config, start: int, es: seq<Event>, ss: seq<State>, a: nat, b: nat, k: Key, id: ID)
    requires IsRun(cfg, start, es, ss) && a < b < |es|
    requires es[a].step == SClose(id) && id in ss[a].conns && !ss[a].conns[id].ready
    requires k in ss[a].conns[id].channels && k in ss[a].chans && OwnedBy(ss[a].chans[k], id)
    requires forall i :: a < i < b ==> !EndsWait(ss[i], es[i].step, k, id)
    requires es[b].step.SReconnect? && es[b].step.prev == id && es[b].step.id in ss[b].conns
    requires id in ss[b].tombs && ss[b].tombs[id].conn.ip == ss[b].conns[es[b].step.id].ip
    ensures k in ss[b + 1].chans && OwnedBy(ss[b + 1].chans[k], id)
    ensures id in ss[b + 1].conns && id in ss[b + 1].chans[k].members && k in ss[b + 1].conns[id].channels
  {
    assert ss[a + 1] == Close(cfg, ss[a], id, es[a].now) by { assert ss[a + 1] == Apply(cfg, ss[a], es[a].step, es[a].now); }
    assert ss[b + 1] == Reconnect(ss[b], es[b].step.id, id, es[b].now) by { assert ss[b + 1] == Apply(cfg, ss[b], es[b].step, es[b].now); }
    WaitBegins(cfg, ss[a], id, es[a].now, k);
    RunWaits(cfg, start, es, ss, a + 1, b, k, id);
    RunConsistent(cfg, start, es, ss, b);
    WaitEnds(ss[b], es[b].step.id, id, es[b].now, k);
  }

  // ---------- The orphaned channel ----------

  predicate Orphaned(s: State, k: Key) {
    && k in s.chans && s.chans[k].proprietary && s.chans[k].creator != ""
    && s.chans[k].creator !in s.conns && s.chans[k].creator !in s.tombs
  }

  /** A creator that was broken off - closed, then closed again as Handle returned - and whose time
      ran out leaves its proprietary channel behind. */
  lemma BreakOrphans(cfg: Config, s: State, id: ID, k: Key, t0: int, t1: int)
    requires Sound(s) && id in s.conns && !s.conns[id].ready && k in s.conns[id].channels && OwnedBy(s.chans[k], id)
    requires t1 > t0 + cfg.reconnection
    ensures var broken := CloseAgain(Close(cfg, s, id, t0), id);
      Orphaned(Expire(broken, id, t1), k)
  {
  }

  /** ... and after that only an explicit close ends it. */
  lemma OrphanStays(cfg: Config, s: State, step: Step, now: int, k: Key)
    requires Sound(s) && Orphaned(s, k) && Enabled(cfg, s, step) && step != SCloseChannel(k)
    ensures Orphaned(Apply(cfg, s, step, now), k)
  {
    EndsExactly(cfg, s, step, now, k);
    NobodyReturns(cfg, s, step, now, s.chans[k].creator);
  }

  lemma NobodyReturns(cfg: Config, s: State, step: Step, now: int, id: ID)
    requires Enabled(cfg, s, step) && id !in s.conns && id !in s.tombs && !Fresh(s, id)
    ensures id !in Apply(cfg, s, step, now).conns && id !in Apply(cfg, s, step, now).tombs
  {
  }

  // ---------- The empty-channel sweep ----------

  predicate EmptyAt(s: State, k: Key) {
    k in s.chans && s.chans[k].members == {}
  }

  predicate EmptySinceKept(s: State, t: State, now: int, k: Key)
    requires EmptyAt(t, k)
  {
    if EmptyAt(s, k) then t.chans[k].emptySince == s.chans[k].emptySince else t.chans[k].emptySince == Some(now)
  }

  lemma EmptySinceOnline(cfg: Config, s: State, step: Step, now: int, k: Key)
    requires Sound(s) && Clocked(s) && Enabled(cfg, s, step) && EmptyAt(Apply(cfg, s, step, now), k)
    requires step.SEnter? || step.SCreate? || step.SCreateAndEnter?
    ensures EmptySinceKept(s, Apply(cfg, s, step, now), now, k)
  {
  }

  lemma EmptySinceEnding(cfg: Config, s: State, step: Step, now: int, k: Key)
    requires Sound(s) && Clocked(s) && Enabled(cfg, s, step) && EmptyAt(Apply(cfg, s, step, now), k)
    requires step.SLeave? || step.SCloseChannel? || step.SSweepChannel?
    ensures EmptySinceKept(s, Apply(cfg, s, step, now), now, k)
  {
  }

  lemma EmptySinceOffline(cfg: Config, s: State, step: Step, now: int, k: Key)
    requires Sound(s) && Clocked(s) && Enabled(cfg, s, step) && EmptyAt(Apply(cfg, s, step, now), k)
    requires step.SClose? || step.SReconnect? || step.SExpire? || Plain(step)
    ensures EmptySinceKept(s, Apply(cfg, s, step, now), now, k)
  {
  }

  lemma EmptySinceStep(cfg: Config, s: State, step: Step, now: int, k: Key)
    requires Sound(s) && Clocked(s) && Enabled(cfg, s, step) && EmptyAt(Apply(cfg, s, step, now), k)
    ensures EmptySinceKept(s, Apply(cfg, s, step, now), now, k)
  {
    if step.SClose? || step.SReconnect? || step.SExpire? || Plain(step) {
      EmptySinceOffline(cfg, s, step, now, k);
    } else if step.SLeave? || step.SCloseChannel? || step.SSweepChannel? {
      EmptySinceEnding(cfg, s, step, now, k);
    } else {
      EmptySinceOnline(cfg, s, step, now, k);
    }
  }

  /** emptySince records when the channel last became empty: it has been empty in every state since,
      and was not in the one before. */
  lemma {:induction false} EmptySinceRun(cfg: Config, start: int, es: seq<Event>, ss: seq<State>, n: nat, k: Key) returns (j: nat)
    requires IsRun(cfg, start, es, ss) && n <= |es| && EmptyAt(ss[n], k)
    ensures j <= n && ss[n].chans[k].emptySince == Some(Since(start, es, j))
    ensures forall i :: j <= i <= n ==> EmptyAt(ss[i], k)
    ensures j > 0 ==> !EmptyAt(ss[j - 1], k)
  {
    if n == 0 {
      j := 0;
    } else {
      EmptySinceBefore(cfg, start, es, ss, n - 1, k);
      if EmptyAt(ss[n - 1], k) {
        j := EmptySinceRun(cfg, start, es, ss, n - 1, k);
      } else {
        j := n;
      }
    }
  }

  lemma EmptySinceBefore(cfg: Config, start: int, es: seq<Event>, ss: seq<State>, n: nat, k: Key)
    requires IsRun(cfg, start, es, ss) && n < |es| && EmptyAt(ss[n + 1], k)
    ensures EmptySinceKept(ss[n], ss[n + 1], es[n].now, k)
  {
    RunConsistent(cfg, start, es, ss, n);
    EmptySinceStep(cfg, ss[n], es[n].step, es[n].now, k);
  }

  lemma {:induction false} TimesGrow(start: int, es: seq<Event>, i: nat, n: nat)
    requires InOrder(start, es) && i <= n <= |es|
    ensures Since(start, es, i) <= Since(start, es, n)
    decreases n - i
  {
    if i < n {
      TimesGrow(start, es, i, n - 1);
      assert Since(start, es, n - 1) <= es[n - 1].now;
    }
  }

  /** The sweep closes a channel only if it is neither proprietary nor the default channel, and no state
      in force during the preceding TTL had a member in it. */
  lemma SweepIsSafe(cfg: Config, start: int, es: seq<Event>, ss: seq<State>, n: nat, k: Key)
    requires IsRun(cfg, start, es, ss) && n < |es| && es[n].step == SSweepChannel(k)
    requires k in ss[n].chans && k !in ss[n + 1].chans
    ensures !ss[n].chans[k].proprietary && k != cfg.defaultKey && cfg.emptyTtl > 0
    ensures forall i :: 0 <= i <= n && (i == n || Since(start, es, i + 1) > es[n].now - cfg.emptyTtl * SECOND) ==> EmptyAt(ss[i], k)
  {
    RunConsistent(cfg, start, es, ss, n);
    EndsExactly(cfg, ss[n], es[n].step, es[n].now, k);
    var j := EmptySinceRun(cfg, start, es, ss, n, k);
    forall i | 0 <= i < j && !EmptyAt(ss[i], k) ensures Since(start, es, i + 1) <= es[n].now - cfg.emptyTtl * SECOND {
      TimesGrow(start, es, i + 1, j);
    }
  }

  /** The channel has had no member for the whole TTL: all states since some moment that long ago show it empty. */
  ghost predicate EmptyForTtl(cfg: Config, start: int, es: seq<Event>, ss: seq<State>, n: nat, k: Key)
    requires n < |es| && |ss| == |es| + 1
  {
    exists j :: 0 <= j <= n && Since(start, es, j) <= es[n].now - cfg.emptyTtl * SECOND && forall i :: j <= i <= n ==> EmptyAt(ss[i], k)
  }

  /** A sweep closes exactly the channels that are not proprietary, not the default one, and empty for the whole TTL. */
  lemma SweepExactly(cfg: Config, start: int, es: seq<Event>, ss: seq<State>, n: nat, k: Key)
    requires IsRun(cfg, start, es, ss) && n < |es| && es[n].step == SSweepChannel(k) && k in ss[n].chans
    ensures k !in ss[n + 1].chans <==>
      !ss[n].chans[k].proprietary && k != cfg.defaultKey && cfg.emptyTtl > 0 && EmptyForTtl(cfg, start, es, ss, n, k)
  {
    RunConsistent(cfg, start, es, ss, n);
    EndsExactly(cfg, ss[n], es[n].step, es[n].now, k);
    if EmptyAt(ss[n], k) {
      var j := EmptySinceRun(cfg, start, es, ss, n, k);
      if EmptyForTtl(cfg, start, es, ss, n, k) {
        var l :| 0 <= l <= n && Since(start, es, l) <= es[n].now - cfg.emptyTtl * SECOND && forall i :: l <= i <= n ==> EmptyAt(ss[i], k);
        assert j <= l;
        TimesGrow(start, es, j, l);
      }
    }
  }
}
