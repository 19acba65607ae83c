/** Checking the IP of a connection and adding it are two steps, with the client's handshake between them: how far the
    limit per IP holds. */
module WsAdmission {
  import opened Common
  import opened WsState
  import opened WsInvariants
  import opened WsAccounting
  import opened WsRuns

  function PendingFrom(pending: map<ID, string>, ip: string): set<ID> {
    set id | id in pending && pending[id] == ip
  }

  /** With at most `peak` connections of an IP pending at any time, one less than that can come on top of the limit. */
  predicate Room(cfg: Config, s: State, pending: map<ID, string>, ip: string, peak: nat) {
    |LiveFrom(s, ip)| + |PendingFrom(pending, ip)| <= cfg.maxPerIp - 1 + peak
  }

  lemma OneMorePending(pending: map<ID, string>, id: ID, from: string, ip: string)
    requires id !in pending
    ensures |PendingFrom(pending[id := from], ip)| == |PendingFrom(pending, ip)| + if ip == from then 1 else 0
  {
    assert PendingFrom(pending[id := from], ip) == PendingFrom(pending, ip) + if ip == from then {id} else {};
  }

  lemma OneLessPending(pending: map<ID, string>, id: ID, ip: string)
    requires id in pending
    ensures |PendingFrom(pending - {id}, ip)| == |PendingFrom(pending, ip)| - if ip == pending[id] then 1 else 0
  {
    var a := PendingFrom(pending, ip);
    assert PendingFrom(pending - {id}, ip) == a - {id};
    if ip == pending[id] { assert id in a; } else { assert id !in a; }
  }

  /** No step but adding raises the number of an IP in the table. */
  lemma NoMoreCounted(cfg: Config, s: State, step: Step, now: int, ip: string)
    requires Enabled(cfg, s, step) && !step.SAdd?
    ensures IpCount(Apply(cfg, s, step, now).ips, ip) <= IpCount(s.ips, ip)
  {
  }

  lemma {:induction false} RunRoom(cfg: Config, start: int, es: seq<Event>, ss: seq<State>, n: nat, ip: string, peak: nat)
    requires IsRun(cfg, start, es, ss) && n <= |es| && cfg.maxPerIp > 0
    requires forall i :: 0 <= i <= n ==> |PendingFrom(PendingAt(cfg, es, ss, i), ip)| <= peak
    ensures Room(cfg, ss[n], PendingAt(cfg, es, ss, n), ip, peak)
  {
    if n == 0 {
      assert LiveFrom(ss[0], ip) == {} && PendingFrom(map[], ip) == {};
    } else {
      RunRoom(cfg, start, es, ss, n - 1, ip, peak);
      RunConsistent(cfg, start, es, ss, n - 1);
      RunConsistent(cfg, start, es, ss, n);
      var e, pending := es[n - 1], PendingAt(cfg, es, ss, n - 1);
      assert Admissible(pending, e.step);
      assert |PendingFrom(PendingAt(cfg, es, ss, n), ip)| <= peak;
      RoomStep(cfg, ss[n - 1], pending, PendingAt(cfg, es, ss, n), e.step, e.now, ip, peak);
    }
  }

  lemma RoomStep(cfg: Config, s: State, pending: map<ID, string>, pending': map<ID, string>, step: Step, now: int, ip: string, peak: nat)
    requires Counted(s) && Enabled(cfg, s, step) && Counted(Apply(cfg, s, step, now)) && cfg.maxPerIp > 0
    requires Admissible(pending, step) && Room(cfg, s, pending, ip, peak) && |PendingFrom(pending', ip)| <= peak
    requires pending' == match step
      case SCheckIp(id, from) => if IpAllowed(cfg, s, from) then pending[id := from] else pending
      case SAdd(id, _) => pending - {id}
      case SGiveUp(id) => pending - {id}
      case _ => pending
    ensures Room(cfg, Apply(cfg, s, step, now), pending', ip, peak)
  {
    assert IpCount(s.ips, ip) == |LiveFrom(s, ip)|;
    assert IpCount(Apply(cfg, s, step, now).ips, ip) == |LiveFrom(Apply(cfg, s, step, now), ip)|;
    match step
    case SCheckIp(id, from) => OneMorePending(pending, id, from, ip);
    case SAdd(id, from) =>
      AddedFrom(s, id, from, ip);
      OneLessPending(pending, id, ip);
    case SGiveUp(id) => OneLessPending(pending, id, ip);
    case _ => NoMoreCounted(cfg, s, step, now, ip);
  }

  /** In every run: the live connections of an IP are at most its limit, plus one less than the most of that IP that were
      pending at once. While handshakes do not overlap, the limit holds. */
  lemma RunIpBound(cfg: Config, start: int, es: seq<Event>, ss: seq<State>, n: nat, ip: string, peak: nat)
    requires IsRun(cfg, start, es, ss) && n <= |es| && cfg.maxPerIp > 0 && peak > 0
    requires forall i :: 0 <= i <= n ==> |PendingFrom(PendingAt(cfg, es, ss, i), ip)| <= peak
    ensures |LiveFrom(ss[n], ip)| <= cfg.maxPerIp + (peak - 1)
    ensures |LiveFrom(ss[n], ip)| + |PendingFrom(PendingAt(cfg, es, ss, n), ip)| <= cfg.maxPerIp + (peak - 1)
  {
    RunRoom(cfg, start, es, ss, n, ip, peak);
  }

  // ---------- The bound is reached ----------

  /** As many different IDs as needed. */
  function Name(k: nat): (id: ID)
    ensures |id| == k + 1
  {
    seq(k + 1, _ => 'a')
  }

  lemma NamesApart(j: nat, k: nat)
    requires Name(j) == Name(k)
    ensures j == k
  {
  }

  /** The first n names, connected. */
  function Connected(cfg: Config, start: int, ip: string, n: nat): State
  {
    if n == 0 then Init(cfg, start) else Add(Connected(cfg, start, ip, n - 1), Name(n - 1), ip)
  }

  lemma {:induction false} ConnectedAre(cfg: Config, start: int, ip: string, n: nat)
    ensures var s := Connected(cfg, start, ip, n);
      && s.conns.Keys == (set k | 0 <= k < n :: Name(k)) && (forall id :: id in s.conns ==> s.conns[id].ip == ip)
      && s.tombs == map[] && IpCount(s.ips, ip) == n && (forall k :: k in s.chans ==> s.chans[k].creator == "")
      && |LiveFrom(s, ip)| == n
  {
    if n > 0 {
      ConnectedAre(cfg, start, ip, n - 1);
      var before := Connected(cfg, start, ip, n - 1);
      assert forall k: nat :: k < n - 1 ==> |Name(k)| < |Name(n - 1)|;
      AddedFrom(before, Name(n - 1), ip, ip);
    }
  }

  function NamesFrom(a: nat, b: nat, ip: string): map<ID, string> {
    if b <= a then map[] else NamesFrom(a, b - 1, ip)[Name(b - 1) := ip]
  }

  lemma {:induction false} NamesFromAre(a: nat, b: nat, ip: string)
    requires a <= b
    ensures forall k: nat :: Name(k) in NamesFrom(a, b, ip) <==> a <= k < b
    ensures |PendingFrom(NamesFrom(a, b, ip), ip)| == b - a
    decreases b
  {
    if a == b {
      assert PendingFrom(NamesFrom(a, b, ip), ip) == {};
    } else {
      NamesFromAre(a, b - 1, ip);
      OneMorePending(NamesFrom(a, b - 1, ip), Name(b - 1), ip, ip);
      forall k: nat ensures Name(k) in NamesFrom(a, b, ip) <==> a <= k < b {
        if Name(k) == Name(b - 1) { NamesApart(k, b - 1); }
      }
    }
  }

  lemma {:induction false} FirstAdded(a: nat, b: nat, ip: string)
    requires a < b
    ensures NamesFrom(a, b, ip) - {Name(a)} == NamesFrom(a + 1, b, ip)
    decreases b
  {
    NamesFromAre(a, b - 1, ip);
    if b == a + 1 {
      assert NamesFrom(a, b, ip) - {Name(a)} == map[];
    } else {
      FirstAdded(a, b - 1, ip);
      assert |Name(a)| < |Name(b - 1)|;
    }
  }

  lemma {:induction false} PendingBefore(cfg: Config, es: seq<Event>, ss: seq<State>, e: Event, t: State, n: nat)
    requires n <= |es| < |ss|
    ensures PendingAt(cfg, es + [e], ss + [t], n) == PendingAt(cfg, es, ss, n)
  {
    if n > 0 {
      PendingBefore(cfg, es, ss, e, t, n - 1);
      assert (es + [e])[n - 1] == es[n - 1] && (ss + [t])[n - 1] == ss[n - 1];
    }
  }

  /** One more step of a run, at the same time. */
  lemma OneMoreStep(cfg: Config, start: int, es: seq<Event>, ss: seq<State>, step: Step)
    requires IsRun(cfg, start, es, ss) && Since(start, es, |es|) == start
    requires Enabled(cfg, ss[|es|], step) && Admissible(PendingAt(cfg, es, ss, |es|), step)
    ensures IsRun(cfg, start, es + [Event(step, start)], ss + [Apply(cfg, ss[|es|], step, start)])
  {
    var e, t := Event(step, start), Apply(cfg, ss[|es|], step, start);
    forall i | 0 <= i < |es + [e]|
      ensures Enabled(cfg, (ss + [t])[i], (es + [e])[i].step)
      ensures (ss + [t])[i + 1] == Apply(cfg, (ss + [t])[i], (es + [e])[i].step, (es + [e])[i].now)
      ensures Admissible(PendingAt(cfg, es + [e], ss + [t], i), (es + [e])[i].step)
      ensures Since(start, es + [e], i) <= (es + [e])[i].now
    {
      PendingBefore(cfg, es, ss, e, t, i);
      if i < |es| { assert Since(start, es, i) <= es[i].now; }
    }
  }

  /** A run in which the first c names have been checked, the first a of them are added, and never more than `peak` were
      pending. */
  ghost predicate Crowded(cfg: Config, start: int, ip: string, peak: nat, a: nat, c: nat, es: seq<Event>, ss: seq<State>) {
    && IsRun(cfg, start, es, ss) && Since(start, es, |es|) == start && ss[|es|] == Connected(cfg, start, ip, a)
    && PendingAt(cfg, es, ss, |es|) == NamesFrom(a, c, ip)
    && forall i :: 0 <= i <= |es| ==> |PendingFrom(PendingAt(cfg, es, ss, i), ip)| <= peak
  }

  lemma CrowdGrows(cfg: Config, start: int, ip: string, peak: nat, a: nat, c: nat, es: seq<Event>, ss: seq<State>, step: Step, a': nat, c': nat)
    requires Crowded(cfg, start, ip, peak, a, c, es, ss) && a' <= c' <= a' + peak
    requires Enabled(cfg, ss[|es|], step) && Admissible(PendingAt(cfg, es, ss, |es|), step)
    requires Apply(cfg, ss[|es|], step, start) == Connected(cfg, start, ip, a')
    requires PendingAt(cfg, es + [Event(step, start)], ss + [Connected(cfg, start, ip, a')], |es| + 1) == NamesFrom(a', c', ip)
    ensures Crowded(cfg, start, ip, peak, a', c', es + [Event(step, start)], ss + [Connected(cfg, start, ip, a')])
  {
    var e, t := Event(step, start), Connected(cfg, start, ip, a');
    OneMoreStep(cfg, start, es, ss, step);
    NamesFromAre(a', c', ip);
    forall i | 0 <= i <= |es| + 1 ensures |PendingFrom(PendingAt(cfg, es + [e], ss + [t], i), ip)| <= peak {
      if i <= |es| { PendingBefore(cfg, es, ss, e, t, i); }
    }
  }

  lemma CheckNext(cfg: Config, start: int, ip: string, peak: nat, a: nat, c: nat, es: seq<Event>, ss: seq<State>)
    requires Crowded(cfg, start, ip, peak, a, c, es, ss) && a < cfg.maxPerIp && a <= c < a + peak
    ensures Crowded(cfg, start, ip, peak, a, c + 1, es + [Event(SCheckIp(Name(c), ip), start)], ss + [Connected(cfg, start, ip, a)])
  {
    NamesFromAre(a, c, ip);
    MayCheck(cfg, start, ip, a, c);
    PendingBefore(cfg, es, ss, Event(SCheckIp(Name(c), ip), start), Connected(cfg, start, ip, a), |es|);
    CrowdGrows(cfg, start, ip, peak, a, c, es, ss, SCheckIp(Name(c), ip), a, c + 1);
  }

  lemma MayCheck(cfg: Config, start: int, ip: string, a: nat, c: nat)
    requires a < cfg.maxPerIp && a <= c
    ensures Fresh(Connected(cfg, start, ip, a), Name(c)) && IpAllowed(cfg, Connected(cfg, start, ip, a), ip)
  {
    ConnectedAre(cfg, start, ip, a);
    assert forall k: nat :: k < a ==> |Name(k)| < |Name(c)|;
  }

  lemma AddNext(cfg: Config, start: int, ip: string, peak: nat, a: nat, c: nat, es: seq<Event>, ss: seq<State>)
    requires Crowded(cfg, start, ip, peak, a, c, es, ss) && a < c <= a + 1 + peak
    ensures Crowded(cfg, start, ip, peak, a + 1, c, es + [Event(SAdd(Name(a), ip), start)], ss + [Connected(cfg, start, ip, a + 1)])
  {
    MayAdd(cfg, start, ip, a, c);
    PendingBefore(cfg, es, ss, Event(SAdd(Name(a), ip), start), Connected(cfg, start, ip, a + 1), |es|);
    CrowdGrows(cfg, start, ip, peak, a, c, es, ss, SAdd(Name(a), ip), a + 1, c);
  }

  lemma MayAdd(cfg: Config, start: int, ip: string, a: nat, c: nat)
    requires a < c
    ensures Fresh(Connected(cfg, start, ip, a), Name(a)) && Admissible(NamesFrom(a, c, ip), SAdd(Name(a), ip))
    ensures NamesFrom(a, c, ip) - {Name(a)} == NamesFrom(a + 1, c, ip)
  {
    ConnectedAre(cfg, start, ip, a);
    assert forall k: nat :: k < a ==> |Name(k)| < |Name(a)|;
    NamesFromAre(a, c, ip);
    FirstAdded(a, c, ip);
    AllFromHere(a, c, ip);
  }

  lemma {:induction false} AllFromHere(a: nat, b: nat, ip: string)
    ensures forall id :: id in NamesFrom(a, b, ip) ==> NamesFrom(a, b, ip)[id] == ip
    decreases b
  {
    if a < b { AllFromHere(a, b - 1, ip); }
  }

  /** Checks come early, where the limit still lets them pass. */
  lemma {:induction false} Crowd(cfg: Config, start: int, ip: string, peak: nat, a: nat, c: nat) returns (es: seq<Event>, ss: seq<State>)
    requires cfg.maxPerIp > 0 && peak > 0 && a <= c <= a + peak && c <= cfg.maxPerIp - 1 + peak
    ensures Crowded(cfg, start, ip, peak, a, c, es, ss)
    decreases a + c
  {
    if c == 0 {
      es, ss := [], [Init(cfg, start)];
      NamesFromAre(0, 0, ip);
    } else if c > a && a < cfg.maxPerIp {
      var fs, ts := Crowd(cfg, start, ip, peak, a, c - 1);
      CheckNext(cfg, start, ip, peak, a, c - 1, fs, ts);
      es, ss := fs + [Event(SCheckIp(Name(c - 1), ip), start)], ts + [Connected(cfg, start, ip, a)];
    } else {
      var fs, ts := Crowd(cfg, start, ip, peak, a - 1, c);
      AddNext(cfg, start, ip, peak, a - 1, c, fs, ts);
      es, ss := fs + [Event(SAdd(Name(a - 1), ip), start)], ts + [Connected(cfg, start, ip, a)];
    }
  }

  /** For every limit and every number of overlapping handshakes there is a run that reaches the bound: all pass the check
      before any of them is added. */
  lemma IpBoundIsTight(cfg: Config, start: int, ip: string, peak: nat) returns (es: seq<Event>, ss: seq<State>)
    requires cfg.maxPerIp > 0 && peak > 0
    ensures IsRun(cfg, start, es, ss)
    ensures forall i :: 0 <= i <= |es| ==> |PendingFrom(PendingAt(cfg, es, ss, i), ip)| <= peak
    ensures |LiveFrom(ss[|es|], ip)| == cfg.maxPerIp + (peak - 1)
  {
    var n := cfg.maxPerIp - 1 + peak;
    es, ss := Crowd(cfg, start, ip, peak, n, n);
    ConnectedAre(cfg, start, ip, n);
  }
}
