/** Priority inversion in the whole system: every queue pair of a run behaves as a lane, so
    the bound proved for a lane holds for the proxy worker and for every mirror worker. */
module Priority {
  import L = Lane
  import opened Scheduler
  import opened Mirroring
  import opened Progress

  /** What the proxy queues and worker see of one event. */
  function ProxySees(s: State, e: Event): seq<L.Event<Id>> {
    match e
    case Send(id) => if id < |s.jobs| then [L.Enqueue(ClassOf(s.jobs[id]), id)] else []
    case Proxy(step, _) => [step]
    case _ => []
  }

  function ProxyView(cfg: Config, s: State, es: seq<Event>): seq<L.Event<Id>>
    requires Valid(cfg, s, es)
    decreases |es|
  {
    if |es| == 0 then [] else ProxySees(s, es[0]) + ProxyView(cfg, Apply(cfg, s, es[0]), es[1..])
  }

  /** What the queues and worker of host `h` see of one event: nothing of a dropped offer. */
  function PeerSees(cfg: Config, s: State, e: Event, h: Host): seq<L.Event<Id>>
    requires h in s.peers
  {
    match e
    case Offer(id, g) =>
      if g == h && id < |s.jobs| && L.Enabled(s.peers[h].lane, L.Enqueue(ClassOf(s.jobs[id]), id), cfg.priority)
      then [L.Enqueue(ClassOf(s.jobs[id]), id)] else []
    case Mirror(g, step) => if g == h then [step] else []
    case _ => []
  }

  function PeerView(cfg: Config, s: State, es: seq<Event>, h: Host): seq<L.Event<Id>>
    requires Valid(cfg, s, es) && h in s.peers
    decreases |es|
  {
    if |es| == 0 then [] else PeerSees(cfg, s, es[0], h) + PeerView(cfg, Apply(cfg, s, es[0]), es[1..], h)
  }

  lemma {:induction false} LanePrefix<J>(l: L.Lane<J>, e: L.Event<J>, rest: seq<L.Event<J>>, priority: bool)
    requires L.Enabled(l, e, priority) && L.Valid(L.Apply(l, e, priority), rest, priority)
    ensures L.Valid(l, [e] + rest, priority)
    ensures L.After(l, [e] + rest, priority) == L.After(L.Apply(l, e, priority), rest, priority)
  {
    assert ([e] + rest)[1..] == rest;
  }

  /** A lane that sees `v` of a step moves accordingly. */
  ghost predicate Follows(l: L.Lane<Id>, v: seq<L.Event<Id>>, l': L.Lane<Id>, priority: bool) {
    || (v == [] && l' == l)
    || (|v| == 1 && L.Enabled(l, v[0], priority) && l' == L.Apply(l, v[0], priority))
  }

  lemma {:induction false} StepIsFollowed(cfg: Config, s: State, e: Event)
    requires Enabled(cfg, s, e)
    ensures Follows(s.proxy, ProxySees(s, e), Apply(cfg, s, e).proxy, cfg.priority)
  {
  }

  lemma {:induction false} StepIsFollowedByPeer(cfg: Config, s: State, e: Event, h: Host)
    requires Enabled(cfg, s, e) && h in s.peers
    ensures h in Apply(cfg, s, e).peers
    ensures Follows(s.peers[h].lane, PeerSees(cfg, s, e, h), Apply(cfg, s, e).peers[h].lane, cfg.priority)
  {
    if e.Offer? {
      OfferIsFollowed(cfg, s, e.id, e.host, h);
    }
  }

  lemma {:induction false} OfferIsFollowed(cfg: Config, s: State, id: Id, g: Host, h: Host)
    requires Enabled(cfg, s, Offer(id, g)) && h in s.peers
    ensures h in Apply(cfg, s, Offer(id, g)).peers
    ensures var (v, s') := (PeerSees(cfg, s, Offer(id, g), h), Apply(cfg, s, Offer(id, g)));
            Follows(s.peers[h].lane, v, s'.peers[h].lane, cfg.priority)
  {
  }

  lemma {:induction false} FollowsOn(
      l: L.Lane<Id>, v: seq<L.Event<Id>>, l': L.Lane<Id>, rest: seq<L.Event<Id>>, priority: bool)
    requires Follows(l, v, l', priority) && L.Valid(l', rest, priority)
    ensures L.Valid(l, v + rest, priority) && L.After(l, v + rest, priority) == L.After(l', rest, priority)
  {
    if v == [] {
      assert v + rest == rest;
    } else {
      assert v == [v[0]];
      LanePrefix(l, v[0], rest, priority);
    }
  }

  /** The proxy side of a run is a run of the proxy lane. */
  lemma {:induction false} ProxyRefinesLane(cfg: Config, s: State, es: seq<Event>)
    requires Valid(cfg, s, es)
    ensures L.Valid(s.proxy, ProxyView(cfg, s, es), cfg.priority)
    ensures L.After(s.proxy, ProxyView(cfg, s, es), cfg.priority) == After(cfg, s, es).proxy
    decreases |es|
  {
    if |es| > 0 {
      var s' := Apply(cfg, s, es[0]);
      ProxyRefinesLane(cfg, s', es[1..]);
      StepIsFollowed(cfg, s, es[0]);
      FollowsOn(s.proxy, ProxySees(s, es[0]), s'.proxy, ProxyView(cfg, s', es[1..]), cfg.priority);
    }
  }

  /** The mirror side of a run, for one host, is a run of that host's lane. */
  lemma {:induction false} PeerRefinesLane(cfg: Config, s: State, es: seq<Event>, h: Host)
    requires Valid(cfg, s, es) && h in s.peers
    ensures L.Valid(s.peers[h].lane, PeerView(cfg, s, es, h), cfg.priority)
    ensures h in After(cfg, s, es).peers
    ensures L.After(s.peers[h].lane, PeerView(cfg, s, es, h), cfg.priority) == After(cfg, s, es).peers[h].lane
    decreases |es|
  {
    if |es| > 0 {
      var s' := Apply(cfg, s, es[0]);
      StepIsFollowedByPeer(cfg, s, es[0], h);
      PeerRefinesLane(cfg, s', es[1..], h);
      var v, rest := PeerSees(cfg, s, es[0], h), PeerView(cfg, s', es[1..], h);
      FollowsOn(s.peers[h].lane, v, s'.peers[h].lane, rest, cfg.priority);
    }
  }

  /** From any reachable state in which high job number `n` is queued, every run in which it
      is still not taken took at most one low job, and at most 512 jobs in all. */
  lemma {:induction false} BoundedProxyInversion(cfg: Config, s: State, es: seq<Event>, n: nat)
    requires cfg.priority && Reachable(cfg, s) && Valid(cfg, s, es)
    requires |s.proxy.outHi| <= n < |s.proxy.inHi|
    requires |After(cfg, s, es).proxy.outHi| <= n
    ensures |After(cfg, s, es).proxy.outLo| - |s.proxy.outLo| <= 1
    ensures |After(cfg, s, es).proxy.took| - |s.proxy.took| <= n - |s.proxy.outHi| + 1 <= 512
  {
    ReachableIsOk(cfg, s);
    ProxyRefinesLane(cfg, s, es);
    L.BoundedInversion(s.proxy, ProxyView(cfg, s, es), n);
  }

  /** The same for the mirror worker of every host. */
  lemma {:induction false} BoundedMirrorInversion(cfg: Config, s: State, es: seq<Event>, h: Host, n: nat)
    requires cfg.priority && Reachable(cfg, s) && Valid(cfg, s, es) && h in s.peers && h in After(cfg, s, es).peers
    requires |s.peers[h].lane.outHi| <= n < |s.peers[h].lane.inHi|
    requires |After(cfg, s, es).peers[h].lane.outHi| <= n
    ensures |After(cfg, s, es).peers[h].lane.outLo| - |s.peers[h].lane.outLo| <= 1
    ensures |After(cfg, s, es).peers[h].lane.took| - |s.peers[h].lane.took|
         <= n - |s.peers[h].lane.outHi| + 1 <= 512
  {
    ReachableIsOk(cfg, s);
    PeerRefinesLane(cfg, s, es, h);
    L.BoundedInversion(s.peers[h].lane, PeerView(cfg, s, es, h), n);
  }
}
