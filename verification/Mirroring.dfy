/** Mirror accounting: what happens to the copies offered to every peer host. */
module Mirroring {
  import L = Lane
  import opened Scheduler

  /** How often a handler in this state has offered its request to host `h`. */
  function OffersMade(j: Job, h: Host): nat {
    if !j.mirror || j.pc.Sending? || (j.pc.Mirroring? && h in j.pc.todo) then 0 else 1
  }

  ghost predicate LaneOk(cfg: Config, p: Peer) {
    && L.Ok(p.lane, cfg.priority)
    && L.ServedInOrder(p.lane)
    && |p.offered| == |p.dropped| + |p.lane.inHi| + |p.lane.inLo|
    && DroppedOrSent(p)
  }

  /** Each single offer was dropped or sent to one of the queues. */
  ghost predicate DroppedOrSent(p: Peer) {
    forall id: Id :: multiset(p.offered)[id]
                  == multiset(p.dropped)[id] + multiset(p.lane.inHi)[id] + multiset(p.lane.inLo)[id]
  }

  ghost predicate Counted(jobs: seq<Job>, p: Peer, h: Host) {
    && (forall id :: id in p.offered ==> id < |jobs|)
    && (forall id: nat :: id < |jobs| ==> multiset(p.offered)[id] == OffersMade(jobs[id], h))
  }

  /** Queued copies were offered, and sit in the class of their request. */
  ghost predicate Classed(jobs: seq<Job>, p: Peer) {
    && (forall id :: id in p.lane.inHi ==> id < |jobs| && jobs[id].prio)
    && (forall id :: id in p.lane.inLo ==> id < |jobs| && !jobs[id].prio)
  }

  ghost predicate PeerOk(cfg: Config, jobs: seq<Job>, p: Peer, h: Host) {
    LaneOk(cfg, p) && Counted(jobs, p, h) && Classed(jobs, p)
  }

  ghost predicate HostOk(cfg: Config, s: State, h: Host) {
    h in s.peers && PeerOk(cfg, s.jobs, s.peers[h], h)
  }

  ghost predicate PeersOk(cfg: Config, s: State) {
    s.peers.Keys == cfg.hosts && forall h :: h in cfg.hosts ==> HostOk(cfg, s, h)
  }

  lemma {:induction false} OfferKeepsLane(cfg: Config, p: Peer, c: L.Class, id: Id)
    requires LaneOk(cfg, p)
    ensures LaneOk(cfg, OfferTo(cfg, p, c, id))
  {
    var send := L.Enqueue(c, id);
    if L.Enabled(p.lane, send, cfg.priority) {
      L.StepKeepsOk(p.lane, send, cfg.priority);
      L.StepServesInOrder(p.lane, send, cfg.priority);
    }
    OfferIsDroppedOrSent(cfg, p, c, id);
  }

  lemma {:induction false} OfferIsDroppedOrSent(cfg: Config, p: Peer, c: L.Class, id: Id)
    requires DroppedOrSent(p)
    ensures DroppedOrSent(OfferTo(cfg, p, c, id))
  {
    forall k: Id ensures var q := OfferTo(cfg, p, c, id);
        multiset(q.offered)[k] == multiset(q.dropped)[k] + multiset(q.lane.inHi)[k] + multiset(q.lane.inLo)[k]
    {
      SnocCount(p.offered, id, k);
      SnocCount(p.dropped, id, k);
      SnocCount(p.lane.inHi, id, k);
      SnocCount(p.lane.inLo, id, k);
    }
  }

  /** For host `h` the step changed nothing: the same classes, and as many offers made. */
  ghost predicate SameOffers(jobs: seq<Job>, jobs': seq<Job>, h: Host) {
    && |jobs| <= |jobs'|
    && (forall id: nat :: id < |jobs| ==>
          jobs'[id].prio == jobs[id].prio && OffersMade(jobs'[id], h) == OffersMade(jobs[id], h))
    && (forall id: nat :: |jobs| <= id < |jobs'| ==> OffersMade(jobs'[id], h) == 0)
  }

  lemma {:induction false} SameOffersKeepPeer(jobs: seq<Job>, jobs': seq<Job>, p: Peer, h: Host)
    requires SameOffers(jobs, jobs', h) && Counted(jobs, p, h) && Classed(jobs, p)
    ensures Counted(jobs', p, h) && Classed(jobs', p)
  {
    forall id: nat | id < |jobs'| ensures multiset(p.offered)[id] == OffersMade(jobs'[id], h) {
      if |jobs| <= id {
        AbsentCount(p.offered, id);
      }
    }
  }

  lemma {:induction false} SendIsSameOffers(cfg: Config, s: State, id: Id, h: Host)
    requires Enabled(cfg, s, Send(id)) && h in cfg.hosts
    ensures SameOffers(s.jobs, Apply(cfg, s, Send(id)).jobs, h)
  {
  }

  lemma {:induction false} OfferElsewhereIsSameOffers(cfg: Config, s: State, id: Id, g: Host, h: Host)
    requires Enabled(cfg, s, Offer(id, g)) && g != h
    ensures SameOffers(s.jobs, Apply(cfg, s, Offer(id, g)).jobs, h)
  {
  }

  lemma {:induction false} WorkerIsSameOffers(cfg: Config, s: State, e: Event, h: Host)
    requires Enabled(cfg, s, e) && (e.Proxy? || e.Mirror? || e.Arrive?)
    ensures SameOffers(s.jobs, Apply(cfg, s, e).jobs, h)
  {
  }

  lemma {:induction false} HandlerIsSameOffers(cfg: Config, s: State, e: Event, h: Host)
    requires Enabled(cfg, s, e) && IsHandlerStep(e) && !e.Offer?
    requires s.jobs[e.id].pc.Mirroring? ==> s.jobs[e.id].mirror
    ensures SameOffers(s.jobs, Apply(cfg, s, e).jobs, h)
  {
  }

  lemma {:induction false} StepsElsewhereAreSameOffers(cfg: Config, s: State, e: Event, h: Host)
    requires JobsOk(cfg, s) && Enabled(cfg, s, e) && h in cfg.hosts
    requires !(e.Offer? && e.host == h)
    ensures SameOffers(s.jobs, Apply(cfg, s, e).jobs, h)
  {
    if e.Send? {
      SendIsSameOffers(cfg, s, e.id, h);
    } else if e.Offer? {
      OfferElsewhereIsSameOffers(cfg, s, e.id, e.host, h);
    } else if IsHandlerStep(e) {
      assert JobOk(cfg, s, e.id);
      HandlerIsSameOffers(cfg, s, e, h);
    } else {
      WorkerIsSameOffers(cfg, s, e, h);
    }
  }

  lemma {:induction false} OfferIsCounted(cfg: Config, s: State, id: Id, h: Host)
    requires Enabled(cfg, s, Offer(id, h)) && s.jobs[id].mirror && Counted(s.jobs, s.peers[h], h)
    ensures var s' := Apply(cfg, s, Offer(id, h));
            Counted(s'.jobs, s'.peers[h], h)
  {
    var s' := Apply(cfg, s, Offer(id, h));
    var p, p' := s.peers[h], s'.peers[h];
    assert p'.offered == p.offered + [id];
    forall k: nat | k < |s'.jobs| ensures multiset(p'.offered)[k] == OffersMade(s'.jobs[k], h) {
      SnocCount(p.offered, id, k);
    }
  }

  lemma {:induction false} OfferIsClassed(cfg: Config, s: State, id: Id, h: Host)
    requires Enabled(cfg, s, Offer(id, h)) && Classed(s.jobs, s.peers[h])
    ensures var s' := Apply(cfg, s, Offer(id, h));
            Classed(s'.jobs, s'.peers[h])
  {
  }

  lemma {:induction false} OfferKeepsPeer(cfg: Config, s: State, id: Id, h: Host)
    requires JobsOk(cfg, s) && Enabled(cfg, s, Offer(id, h))
    requires Counted(s.jobs, s.peers[h], h) && Classed(s.jobs, s.peers[h])
    ensures var s' := Apply(cfg, s, Offer(id, h));
            Counted(s'.jobs, s'.peers[h], h) && Classed(s'.jobs, s'.peers[h])
  {
    assert JobOk(cfg, s, id);
    OfferIsCounted(cfg, s, id, h);
    OfferIsClassed(cfg, s, id, h);
  }

  lemma {:induction false} StepKeepsHosts(cfg: Config, s: State, e: Event)
    requires Enabled(cfg, s, e)
    ensures Apply(cfg, s, e).peers.Keys == s.peers.Keys
  {
  }

  lemma {:induction false} StepKeepsPeers(cfg: Config, s: State, e: Event)
    requires JobsOk(cfg, s) && PeersOk(cfg, s) && Enabled(cfg, s, e)
    ensures PeersOk(cfg, Apply(cfg, s, e))
  {
    StepKeepsHosts(cfg, s, e);
    forall h | h in cfg.hosts ensures HostOk(cfg, Apply(cfg, s, e), h) {
      StepKeepsPeer(cfg, s, e, h);
    }
  }

  lemma {:induction false} StepKeepsPeer(cfg: Config, s: State, e: Event, h: Host)
    requires JobsOk(cfg, s) && Enabled(cfg, s, e) && h in cfg.hosts && HostOk(cfg, s, h)
    ensures HostOk(cfg, Apply(cfg, s, e), h)
  {
    var p := s.peers[h];
    if e.Offer? && e.host == h {
      OfferKeepsLane(cfg, p, ClassOf(s.jobs[e.id]), e.id);
      OfferKeepsPeer(cfg, s, e.id, h);
    } else {
      var s' := Apply(cfg, s, e);
      StepsElsewhereAreSameOffers(cfg, s, e, h);
      SameOffersKeepPeer(s.jobs, s'.jobs, p, h);
      if e.Mirror? && e.host == h {
        WorkerKeepsPeer(cfg, s.jobs, p, e.step, h);
      } else {
        assert s'.peers[h] == p;
      }
    }
  }

  lemma {:induction false} WorkerKeepsPeer(cfg: Config, jobs: seq<Job>, p: Peer, step: L.Event<Id>, h: Host)
    requires PeerOk(cfg, jobs, p, h) && !step.Enqueue? && L.Enabled(p.lane, step, cfg.priority)
    ensures PeerOk(cfg, jobs, p.(lane := L.Apply(p.lane, step, cfg.priority)), h)
  {
    L.StepKeepsOk(p.lane, step, cfg.priority);
    L.StepServesInOrder(p.lane, step, cfg.priority);
  }

  lemma {:induction false} RunKeepsPeers(cfg: Config, s: State, es: seq<Event>)
    requires JobsOk(cfg, s) && PeersOk(cfg, s) && Valid(cfg, s, es)
    ensures PeersOk(cfg, After(cfg, s, es))
    decreases |es|
  {
    if |es| > 0 {
      StepKeepsPeers(cfg, s, es[0]);
      StepKeepsJobs(cfg, s, es[0]);
      RunKeepsPeers(cfg, Apply(cfg, s, es[0]), es[1..]);
    }
  }

  /** The requests that a run offers to a host, in order, read off its events. */
  function OffersTo(es: seq<Event>, h: Host): seq<Id> {
    if |es| == 0 then [] else (if es[0].Offer? && es[0].host == h then [es[0].id] else []) + OffersTo(es[1..], h)
  }

  lemma {:induction false} StepRecordsOffer(cfg: Config, s: State, e: Event, h: Host)
    requires Enabled(cfg, s, e) && h in s.peers
    ensures h in Apply(cfg, s, e).peers
    ensures Apply(cfg, s, e).peers[h].offered
         == s.peers[h].offered + (if e.Offer? && e.host == h then [e.id] else [])
  {
  }

  lemma {:induction false} RunRecordsOffers(cfg: Config, s: State, es: seq<Event>, h: Host)
    requires Valid(cfg, s, es) && h in s.peers
    ensures h in After(cfg, s, es).peers && After(cfg, s, es).peers[h].offered == s.peers[h].offered + OffersTo(es, h)
    decreases |es|
  {
    if |es| > 0 {
      StepRecordsOffer(cfg, s, es[0], h);
      RunRecordsOffers(cfg, Apply(cfg, s, es[0]), es[1..], h);
    }
  }

  /** The books of one host: each offer was dropped, or is queued, in flight or completed; at
      most 512 are queued per class and one is in flight; a request is offered once, and only
      if it is mirrored, and its copy was dropped or sent, in the class of the request; each
      class is first-in first-out. */
  ghost predicate Balanced(jobs: seq<Job>, p: Peer, h: Host) {
    && |p.offered| == |p.dropped| + |p.lane.hi| + |p.lane.lo| + |p.lane.Held()| + |p.lane.done|
    && |p.lane.hi| <= 512 && |p.lane.lo| <= 512 && |p.lane.Held()| <= 1
    && (forall id: nat :: id < |jobs| ==> multiset(p.offered)[id] == OffersMade(jobs[id], h))
    && DroppedOrSent(p) && Classed(jobs, p)
    && p.lane.inHi == L.Of(p.lane.took, L.Hi) + p.lane.hi
    && p.lane.inLo == L.Of(p.lane.took, L.Lo) + p.lane.lo
    && p.lane.took == p.lane.done + p.lane.Held()
  }

  lemma {:induction false} OkIsBalanced(cfg: Config, jobs: seq<Job>, p: Peer, h: Host)
    requires PeerOk(cfg, jobs, p, h)
    ensures Balanced(jobs, p, h)
  {
  }

  lemma {:induction false} InitIsOk(cfg: Config)
    ensures JobsOk(cfg, Init(cfg)) && PeersOk(cfg, Init(cfg))
  {
    var s := Init(cfg);
    assert s.peers.Keys == cfg.hosts;
    forall h | h in cfg.hosts ensures HostOk(cfg, s, h) {
      assert s.peers[h] == Peer(L.Idle(), [], []);
    }
  }

  lemma {:induction false} ReachedHostIsOk(cfg: Config, es: seq<Event>, h: Host)
    requires Valid(cfg, Init(cfg), es) && h in cfg.hosts
    ensures HostOk(cfg, After(cfg, Init(cfg), es), h)
  {
    InitIsOk(cfg);
    RunKeepsPeers(cfg, Init(cfg), es);
  }

  lemma {:induction false} OffersFromInit(cfg: Config, es: seq<Event>, h: Host)
    requires Valid(cfg, Init(cfg), es) && h in cfg.hosts
    ensures h in After(cfg, Init(cfg), es).peers
    ensures After(cfg, Init(cfg), es).peers[h].offered == OffersTo(es, h)
  {
    RunRecordsOffers(cfg, Init(cfg), es, h);
    assert [] + OffersTo(es, h) == OffersTo(es, h);
  }

  /** Mirror accounting, for every host and every prefix of every run. */
  lemma {:induction false} MirrorAccounting(cfg: Config, es: seq<Event>, h: Host)
    requires Valid(cfg, Init(cfg), es) && h in cfg.hosts
    ensures var s := After(cfg, Init(cfg), es);
            h in s.peers && s.peers[h].offered == OffersTo(es, h) && Balanced(s.jobs, s.peers[h], h)
  {
    var s := After(cfg, Init(cfg), es);
    OffersFromInit(cfg, es, h);
    ReachedHostIsOk(cfg, es, h);
    OkIsBalanced(cfg, s.jobs, s.peers[h], h);
  }

  // ---------- a stalled peer delays nobody else ----------

  /** `s` and `t` may differ only in the mirror queues and mirror workers outside `hs`. */
  ghost predicate Agree(s: State, t: State, hs: set<Host>) {
    && s.jobs == t.jobs
    && s.proxy == t.proxy
    && s.peers.Keys == t.peers.Keys
    && forall h :: h in hs && h in s.peers ==> s.peers[h] == t.peers[h]
  }

  /** A run without the mirror worker steps of the hosts outside `hs`. */
  function Without(es: seq<Event>, hs: set<Host>): seq<Event> {
    if |es| == 0 then []
    else (if es[0].Mirror? && es[0].host !in hs then [] else [es[0]]) + Without(es[1..], hs)
  }

  lemma {:induction false} StepAgrees(cfg: Config, s: State, t: State, e: Event, hs: set<Host>)
    requires Agree(s, t, hs) && Enabled(cfg, s, e)
    ensures if e.Mirror? && e.host !in hs then Agree(Apply(cfg, s, e), t, hs)
            else Enabled(cfg, t, e) && Agree(Apply(cfg, s, e), Apply(cfg, t, e), hs)
  {
  }

  /** Take any run, and any other state of the peers outside `hs`: full queues, workers stuck
      in a call. With those workers never moving, the rest of the run is still possible, and
      every handler, the backend worker and the peers in `hs` end up exactly the same. */
  lemma {:induction false} StalledPeerDelaysNobody(cfg: Config, s: State, t: State, es: seq<Event>, hs: set<Host>)
    requires Agree(s, t, hs) && Valid(cfg, s, es)
    ensures Valid(cfg, t, Without(es, hs))
    ensures Agree(After(cfg, s, es), After(cfg, t, Without(es, hs)), hs)
    decreases |es|
  {
    if |es| > 0 {
      var e := es[0];
      var s' := Apply(cfg, s, e);
      StepAgrees(cfg, s, t, e, hs);
      if e.Mirror? && e.host !in hs {
        StalledPeerDelaysNobody(cfg, s', t, es[1..], hs);
        assert Without(es, hs) == Without(es[1..], hs);
      } else {
        StalledPeerDelaysNobody(cfg, s', Apply(cfg, t, e), es[1..], hs);
        assert Without(es, hs)[0] == e && Without(es, hs)[1..] == Without(es[1..], hs);
      }
    }
  }
}
