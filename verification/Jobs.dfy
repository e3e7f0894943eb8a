/** Triaged requests, and how a proxy job is set up from one. */
module Jobs {
  import S = Scheduler
  import opened Scheduler
  import opened Mirroring

  /** What triage decides about a request. */
  datatype Triaged<T> = Triaged(
    proxy: bool, prioritise: bool, mirror: bool, jrpcMethod: string, jrpcID: string, transactions: seq<T>)

  /** The dice of the chaos mode: which errors were drawn for this request. */
  datatype Dice = Dice(httpError: bool, jrpcError: bool, badResponse: bool) {
    predicate Any() {
      httpError || jrpcError || badResponse
    }
  }

  /** The set-up of processing modes: extra mirrored methods first, then chaos, then proxy or
      fake. `dice` is what was drawn, all false when chaos is off. */
  function SetUp<T>(r: Triaged<T>, extraMirrored: set<string>, dice: Dice): (job: (Triaged<T>, Mode))
    ensures job.1 == Backend <==> job.0.proxy
    ensures job.0.proxy <==> r.proxy && !dice.Any()
    ensures job.0.mirror <==> (r.mirror || r.jrpcMethod in extraMirrored) && !dice.Any()
    ensures job.1 == Chaos <==> dice.Any()
    ensures job.0 == r.(proxy := job.0.proxy, mirror := job.0.mirror)
  {
    var r1 := r.(mirror := r.mirror || r.jrpcMethod in extraMirrored);
    var r2 := if dice.Any() then r1.(proxy := false, mirror := false) else r1;
    (r2, if dice.Any() then Chaos else if r2.proxy then Backend else Fake)
  }

  /** The arrival of a request that triage has given the response `prepared`. */
  function Arrival<T>(r: Triaged<T>, extraMirrored: set<string>, dice: Dice, prepared: Response): Event {
    var (job, mode) := SetUp(r, extraMirrored, dice);
    Arrive(job.prioritise, job.mirror, mode, prepared)
  }

  function Arrivals(es: seq<Event>): nat {
    if |es| == 0 then 0 else (if es[0].Arrive? then 1 else 0) + Arrivals(es[1..])
  }

  /** The job of the request that arrived with `e`. */
  predicate IsFrom(j: Job, e: Event) {
    e.Arrive? && j.prio == e.prio && j.mirror == e.mirror && j.mode == e.mode && j.triaged == e.triaged
  }

  lemma {:induction false} StepKeepsOrigin(cfg: Config, s: State, e: Event, id: Id, from: Event)
    requires Enabled(cfg, s, e) && id < |s.jobs| && IsFrom(s.jobs[id], from)
    ensures id < |Apply(cfg, s, e).jobs| && IsFrom(Apply(cfg, s, e).jobs[id], from)
  {
  }

  lemma {:induction false} RunKeepsOrigin(cfg: Config, s: State, es: seq<Event>, id: Id, from: Event)
    requires Valid(cfg, s, es) && id < |s.jobs| && IsFrom(s.jobs[id], from)
    ensures id < |After(cfg, s, es).jobs| && IsFrom(After(cfg, s, es).jobs[id], from)
    decreases |es|
  {
    if |es| > 0 {
      StepKeepsOrigin(cfg, s, es[0], id, from);
      RunKeepsOrigin(cfg, Apply(cfg, s, es[0]), es[1..], id, from);
    }
  }

  /** The `n`-th arrival of a run makes job number `n`, which stays what the arrival made it. */
  lemma {:induction false} ArrivalsMakeJobs(cfg: Config, s: State, es: seq<Event>, i: nat)
    requires Valid(cfg, s, es) && i < |es| && es[i].Arrive?
    ensures var id := |s.jobs| + Arrivals(es[..i]);
            id < |After(cfg, s, es).jobs| && IsFrom(After(cfg, s, es).jobs[id], es[i])
    decreases |es|
  {
    var s' := Apply(cfg, s, es[0]);
    if i == 0 {
      RunKeepsOrigin(cfg, s', es[1..], |s.jobs|, es[0]);
    } else {
      ArrivalsAdd(cfg, s, es[0]);
      ArrivalsMakeJobs(cfg, s', es[1..], i - 1);
      assert es[..i][1..] == es[1..][..i - 1];
    }
  }

  lemma {:induction false} ArrivalsAdd(cfg: Config, s: State, e: Event)
    requires Enabled(cfg, s, e)
    ensures |Apply(cfg, s, e).jobs| == |s.jobs| + (if e.Arrive? then 1 else 0)
  {
  }

  lemma {:induction false} SentToItsClass(cfg: Config, es: seq<Event>)
    requires S.Valid(cfg, Init(cfg), es)
    ensures SentByClass(After(cfg, Init(cfg), es))
  {
    RunKeepsSentByClass(cfg, Init(cfg), es);
  }

  /** What triage and the dice decide about a request, carried out in every run in which it arrives
      as event number `i`. It goes to the high queue exactly if it is prioritised. The backend is
      called for it exactly if triage wants it proxied and no chaos error is drawn. With neither,
      the client gets the response that triage prepared. It is offered to a peer only if it is to
      be mirrored, and then to every peer, once its handler is past mirroring. */
  lemma {:induction false} ServedAsTriaged<T>(
      cfg: Config, es: seq<Event>, i: nat, r: Triaged<T>, extraMirrored: set<string>, dice: Dice,
      prepared: Response, h: Host)
    requires S.Valid(cfg, Init(cfg), es) && i < |es| && h in cfg.hosts
    requires es[i] == Arrival(r, extraMirrored, dice, prepared)
    ensures var s, id := After(cfg, Init(cfg), es), Arrivals(es[..i]);
            var chaos := dice.httpError || dice.jrpcError || dice.badResponse;
            var mirrored := (r.mirror || r.jrpcMethod in extraMirrored) && !chaos;
            && id < |s.jobs| && h in s.peers
            && (id in s.proxy.inHi ==> r.prioritise) && (id in s.proxy.inLo ==> !r.prioritise)
            && (s.jobs[id].mode.Backend? <==> r.proxy && !chaos)
            && (s.jobs[id].sent.Some? ==> Results(cfg, Init(cfg), es, id) == [s.jobs[id].sent.value])
            && (s.jobs[id].sent.Some? && !r.proxy && !chaos ==> s.jobs[id].sent.value == prepared)
            && (id in OffersTo(es, h) ==> mirrored)
            && (mirrored && Stage(s.jobs[id].pc) >= 2 ==> id in OffersTo(es, h))
  {
    var s, id := After(cfg, Init(cfg), es), Arrivals(es[..i]);
    ArrivalsMakeJobs(cfg, Init(cfg), es, i);
    SentToItsClass(cfg, es);
    RequestLifecycle(cfg, es, id);
    AnswerIsTheResult(cfg, es, id);
    OfferedIffMade(cfg, es, id, h);
  }

  lemma {:induction false} OfferedIffMade(cfg: Config, es: seq<Event>, id: Id, h: Host)
    requires S.Valid(cfg, Init(cfg), es) && h in cfg.hosts && id < |After(cfg, Init(cfg), es).jobs|
    ensures h in After(cfg, Init(cfg), es).peers
    ensures id in OffersTo(es, h) <==> OffersMade(After(cfg, Init(cfg), es).jobs[id], h) == 1
  {
    var s := After(cfg, Init(cfg), es);
    MirrorAccounting(cfg, es, h);
    assert multiset(s.peers[h].offered)[id] == OffersMade(s.jobs[id], h);
    assert id in s.peers[h].offered <==> id in multiset(s.peers[h].offered);
  }
}
