/** The request path of an HTTP proxy: any number of `receive` handlers, the proxy worker,
    and one mirror worker per peer host, as one transition system. Every event is one atomic
    step of one goroutine, so a sequence of events is an interleaving.

    Buffers are not reused in the model: a job keeps its request and response, and the
    counters `reqFrees` and `resFrees` say how often each was given back to its pool. */
module Scheduler {
  import opened Wrappers
  import L = Lane

  type Id = nat
  type Host = string
  type Response = string

  /** What `job.proxy` was set to: the backend call, the no-op, or an injected error. */
  datatype Mode = Backend | Fake | Chaos

  datatype HandlerPc =
    | Sending
    | Mirroring(todo: set<Host>)
    | Waiting
    | Copying
    | FreeingRequest
    | FreeingResponse
    | Returned

  /** One call of `receive` and its proxy job. `triaged` is the response triage prepared,
      `ran` the results of the executions, `sent` what the client got. */
  datatype Job = Job(
    prio: bool, mirror: bool, mode: Mode, triaged: Response,
    pc: HandlerPc, wg: int, ran: seq<Response>, res: Response, sent: Option<Response>,
    reqFrees: nat, resFrees: nat)

  /** The mirror side of one host, with the histories of offers and drops. */
  datatype Peer = Peer(lane: L.Lane<Id>, offered: seq<Id>, dropped: seq<Id>)

  datatype Config = Config(hosts: set<Host>, priority: bool)

  datatype State = State(jobs: seq<Job>, proxy: L.Lane<Id>, peers: map<Host, Peer>)

  datatype Event =
    | Arrive(prio: bool, mirror: bool, mode: Mode, triaged: Response)
    | Send(id: Id)
    | Offer(id: Id, host: Host)
    | EndMirror(id: Id)
    | Wake(id: Id)
    | Copy(id: Id)
    | FreeRequest(id: Id)
    | FreeResponse(id: Id)
    | Proxy(step: L.Event<Id>, v: Response)
    | Mirror(host: Host, step: L.Event<Id>)

  function Init(cfg: Config): State {
    State([], L.Idle(), map h | h in cfg.hosts :: Peer(L.Idle(), [], []))
  }

  function ClassOf(j: Job): L.Class {
    if j.prio then L.Hi else L.Lo
  }

  function Stage(pc: HandlerPc): nat {
    match pc
    case Sending => 0
    case Mirroring(_) => 1
    case Waiting => 2
    case Copying => 3
    case FreeingRequest => 4
    case FreeingResponse => 5
    case Returned => 6
  }

  predicate Holds(l: L.Lane<Id>, id: Id) {
    (l.pc.Taken? || l.pc.Ran?) && l.pc.t.job == id
  }

  predicate At(s: State, id: Id, stage: nat) {
    id < |s.jobs| && Stage(s.jobs[id].pc) == stage
  }

  /** A send to the proxy queue blocks while the queue is full; an offer to a mirror queue
      never blocks. `Run` is the call of `job.proxy`, which for a faked job writes nothing. */
  predicate Enabled(cfg: Config, s: State, e: Event) {
    match e
    case Arrive(_, _, _, _) => true
    case Send(id) => At(s, id, 0) && L.Enabled(s.proxy, L.Enqueue(ClassOf(s.jobs[id]), id), cfg.priority)
    case Offer(id, h) => At(s, id, 1) && h in s.jobs[id].pc.todo && h in s.peers
    case EndMirror(id) => At(s, id, 1) && s.jobs[id].pc.todo == {}
    case Wake(id) => At(s, id, 2) && s.jobs[id].wg == 0
    case Copy(id) => At(s, id, 3)
    case FreeRequest(id) => At(s, id, 4)
    case FreeResponse(id) => At(s, id, 5)
    case Proxy(step, v) =>
      && !step.Enqueue?
      && L.Enabled(s.proxy, step, cfg.priority)
      && (step.Run? || step.Finish? ==> s.proxy.pc.t.job < |s.jobs|)
      && (step.Run? && s.jobs[s.proxy.pc.t.job].mode.Fake? ==> v == s.jobs[s.proxy.pc.t.job].res)
    case Mirror(h, step) =>
      h in s.peers && !step.Enqueue? && L.Enabled(s.peers[h].lane, step, cfg.priority)
  }

  function SetPc(s: State, id: Id, pc: HandlerPc): State
    requires id < |s.jobs|
  {
    s.(jobs := s.jobs[id := s.jobs[id].(pc := pc)])
  }

  /** The select with a default case: an offer is dropped exactly when its queue is full. */
  function OfferTo(cfg: Config, p: Peer, c: L.Class, id: Id): (p': Peer)
    ensures |p.lane.Queue(c)| == 512 ==> p'.lane == p.lane && p'.dropped == p.dropped + [id]
    ensures |p.lane.Queue(c)| < 512 ==> p'.lane.Queue(c) == p.lane.Queue(c) + [id] && p'.dropped == p.dropped
    ensures p'.lane.pc == p.lane.pc && p'.offered == p.offered + [id]
  {
    var send := L.Enqueue(c, id);
    if L.Enabled(p.lane, send, cfg.priority)
    then Peer(L.Apply(p.lane, send, cfg.priority), p.offered + [id], p.dropped)
    else Peer(p.lane, p.offered + [id], p.dropped + [id])
  }

  function Apply(cfg: Config, s: State, e: Event): State
    requires Enabled(cfg, s, e)
  {
    match e
    case Arrive(prio, mirror, mode, triaged) =>
      s.(jobs := s.jobs + [Job(prio, mirror, mode, triaged, Sending, 1, [], triaged, None, 0, 0)])
    case Send(id) =>
      var j := s.jobs[id];
      var s' := SetPc(s, id, if j.mirror then Mirroring(cfg.hosts) else Waiting);
      s'.(proxy := L.Apply(s.proxy, L.Enqueue(ClassOf(j), id), cfg.priority))
    case Offer(id, h) =>
      var s' := SetPc(s, id, Mirroring(s.jobs[id].pc.todo - {h}));
      s'.(peers := s.peers[h := OfferTo(cfg, s.peers[h], ClassOf(s.jobs[id]), id)])
    case EndMirror(id) => SetPc(s, id, Waiting)
    case Wake(id) => SetPc(s, id, Copying)
    case Copy(id) =>
      s.(jobs := s.jobs[id := s.jobs[id].(pc := FreeingRequest, sent := Some(s.jobs[id].res))])
    case FreeRequest(id) =>
      s.(jobs := s.jobs[id := s.jobs[id].(pc := FreeingResponse, reqFrees := s.jobs[id].reqFrees + 1)])
    case FreeResponse(id) =>
      s.(jobs := s.jobs[id := s.jobs[id].(pc := Returned, resFrees := s.jobs[id].resFrees + 1)])
    case Proxy(step, v) =>
      var s' := s.(proxy := L.Apply(s.proxy, step, cfg.priority));
      if step.Run? then
        var id := s.proxy.pc.t.job;
        s'.(jobs := s.jobs[id := s.jobs[id].(ran := s.jobs[id].ran + [v], res := v)])
      else if step.Finish? then
        var id := s.proxy.pc.t.job;
        s'.(jobs := s.jobs[id := s.jobs[id].(wg := s.jobs[id].wg - 1)])
      else s'
    case Mirror(h, step) =>
      s.(peers := s.peers[h := s.peers[h].(lane := L.Apply(s.peers[h].lane, step, cfg.priority))])
  }

  predicate Valid(cfg: Config, s: State, es: seq<Event>)
    decreases |es|
  {
    |es| > 0 ==> Enabled(cfg, s, es[0]) && Valid(cfg, Apply(cfg, s, es[0]), es[1..])
  }

  function After(cfg: Config, s: State, es: seq<Event>): State
    requires Valid(cfg, s, es)
    decreases |es|
  {
    if |es| == 0 then s else After(cfg, Apply(cfg, s, es[0]), es[1..])
  }

  // ---------- where a job is ----------

  /** In how many of these places job `id` is: still with its handler, in a proxy queue, in
      the worker's hands, or finished (its WaitGroup is at zero). */
  function Places(s: State, id: Id): nat
    requires id < |s.jobs|
  {
    (if s.jobs[id].pc.Sending? then 1 else 0)
    + multiset(s.proxy.hi)[id] + multiset(s.proxy.lo)[id]
    + (if Holds(s.proxy, id) then 1 else 0)
    + (if s.jobs[id].wg == 0 then 1 else 0)
  }

  ghost predicate QueuesOk(s: State) {
    && (forall i :: 0 <= i < |s.proxy.hi| ==> s.proxy.hi[i] < |s.jobs| && s.jobs[s.proxy.hi[i]].prio)
    && (forall i :: 0 <= i < |s.proxy.lo| ==> s.proxy.lo[i] < |s.jobs| && !s.jobs[s.proxy.lo[i]].prio)
    && (s.proxy.pc.Taken? || s.proxy.pc.Ran? ==> s.proxy.pc.t.job < |s.jobs|)
  }

  ghost predicate JobOk(cfg: Config, s: State, id: Id)
    requires id < |s.jobs|
  {
    var j := s.jobs[id];
    && Places(s, id) == 1
    && 0 <= j.wg <= 1
    && (Stage(j.pc) >= 3 ==> j.wg == 0)
    && |j.ran| == (if j.wg == 0 || (s.proxy.pc.Ran? && Holds(s.proxy, id)) then 1 else 0)
    && j.res == (if |j.ran| == 0 then j.triaged else j.ran[0])
    && (j.mode.Fake? ==> j.res == j.triaged)
    && j.sent == (if Stage(j.pc) >= 4 then Some(j.res) else None)
    && j.reqFrees == (if Stage(j.pc) >= 5 then 1 else 0)
    && j.resFrees == (if Stage(j.pc) >= 6 then 1 else 0)
    && (j.pc.Mirroring? ==> j.mirror && j.pc.todo <= cfg.hosts)
  }

  ghost predicate JobsOk(cfg: Config, s: State) {
    && L.Ok(s.proxy, cfg.priority)
    && QueuesOk(s)
    && forall id: nat :: id < |s.jobs| ==> JobOk(cfg, s, id)
  }

  lemma {:induction false} SnocCount(q: seq<Id>, x: Id, id: Id)
    ensures multiset(q + [x])[id] == multiset(q)[id] + (if x == id then 1 else 0)
  {
  }

  lemma {:induction false} HeadCount(q: seq<Id>, id: Id)
    requires |q| > 0
    ensures multiset(q)[id] == multiset(q[1..])[id] + (if q[0] == id then 1 else 0)
  {
    assert q == [q[0]] + q[1..];
  }

  lemma {:induction false} AbsentCount(q: seq<Id>, id: Id)
    requires id !in q
    ensures multiset(q)[id] == 0
  {
  }

  lemma {:induction false} ArriveKeepsJobs(cfg: Config, s: State, e: Event)
    requires JobsOk(cfg, s) && e.Arrive?
    ensures JobsOk(cfg, Apply(cfg, s, e))
  {
    var s' := Apply(cfg, s, e);
    forall id: nat | id < |s'.jobs| ensures JobOk(cfg, s', id) {
      if id < |s.jobs| {
        assert JobOk(cfg, s, id);
      } else {
        AbsentCount(s.proxy.hi, id);
        AbsentCount(s.proxy.lo, id);
      }
    }
  }

  lemma {:induction false} SendKeepsJobs(cfg: Config, s: State, e: Event)
    requires JobsOk(cfg, s) && e.Send? && Enabled(cfg, s, e)
    ensures JobsOk(cfg, Apply(cfg, s, e))
  {
    var s' := Apply(cfg, s, e);
    L.StepKeepsOk(s.proxy, L.Enqueue(ClassOf(s.jobs[e.id]), e.id), cfg.priority);
    forall id: nat | id < |s'.jobs| ensures JobOk(cfg, s', id) {
      SendKeepsJob(cfg, s, e, id);
    }
  }

  lemma {:induction false} SendKeepsJob(cfg: Config, s: State, e: Event, id: Id)
    requires e.Send? && Enabled(cfg, s, e)
    requires id < |s.jobs| && JobOk(cfg, s, id)
    ensures JobOk(cfg, Apply(cfg, s, e), id)
  {
    var s' := Apply(cfg, s, e);
    SnocCount(s.proxy.hi, e.id, id);
    SnocCount(s.proxy.lo, e.id, id);
    assert s'.proxy.pc == s.proxy.pc;
    if s.jobs[e.id].prio {
      assert s'.proxy.hi == s.proxy.hi + [e.id] && s'.proxy.lo == s.proxy.lo;
    } else {
      assert s'.proxy.hi == s.proxy.hi && s'.proxy.lo == s.proxy.lo + [e.id];
    }
    assert Places(s', id) == Places(s, id);
  }

  /** The steps of a handler after its job has been sent. */
  predicate IsHandlerStep(e: Event) {
    e.Offer? || e.EndMirror? || e.Wake? || e.Copy? || e.FreeRequest? || e.FreeResponse?
  }

  lemma {:induction false} HandlerKeepsJobs(cfg: Config, s: State, e: Event)
    requires JobsOk(cfg, s) && Enabled(cfg, s, e) && IsHandlerStep(e)
    ensures JobsOk(cfg, Apply(cfg, s, e))
  {
    var s' := Apply(cfg, s, e);
    assert s'.proxy == s.proxy && |s'.jobs| == |s.jobs|;
    forall id: nat | id < |s'.jobs| ensures JobOk(cfg, s', id) {
      assert JobOk(cfg, s, id);
      HandlerKeepsJob(cfg, s, e, id);
    }
  }

  lemma {:induction false} HandlerKeepsJob(cfg: Config, s: State, e: Event, id: Id)
    requires Enabled(cfg, s, e) && IsHandlerStep(e)
    requires id < |s.jobs| && JobOk(cfg, s, id)
    ensures JobOk(cfg, Apply(cfg, s, e), id)
  {
    var s' := Apply(cfg, s, e);
    if id == e.id {
      assert Places(s', id) == Places(s, id);
    } else {
      assert s'.jobs[id] == s.jobs[id];
    }
  }

  lemma {:induction false} MirrorKeepsJobs(cfg: Config, s: State, e: Event)
    requires JobsOk(cfg, s) && Enabled(cfg, s, e) && e.Mirror?
    ensures JobsOk(cfg, Apply(cfg, s, e))
  {
    var s' := Apply(cfg, s, e);
    forall id: nat | id < |s'.jobs| ensures JobOk(cfg, s', id) {
      assert JobOk(cfg, s, id);
    }
  }

  lemma {:induction false} TakeKeepsJobs(cfg: Config, s: State, e: Event)
    requires JobsOk(cfg, s) && Enabled(cfg, s, e) && e.Proxy? && (e.step.Take? || e.step.Poll?)
    ensures JobsOk(cfg, Apply(cfg, s, e))
  {
    var s' := Apply(cfg, s, e);
    L.StepKeepsOk(s.proxy, e.step, cfg.priority);
    forall id: nat | id < |s'.jobs| ensures JobOk(cfg, s', id) {
      assert JobOk(cfg, s, id);
      TakeKeepsJob(cfg, s, e, id);
    }
  }

  lemma {:induction false} TakeKeepsJob(cfg: Config, s: State, e: Event, id: Id)
    requires Enabled(cfg, s, e) && e.Proxy? && (e.step.Take? || e.step.Poll?)
    requires id < |s.jobs| && JobOk(cfg, s, id)
    ensures JobOk(cfg, Apply(cfg, s, e), id)
  {
    if e.step.Take? {
      HeadCount(s.proxy.Queue(e.step.c), id);
    }
    assert Places(Apply(cfg, s, e), id) == Places(s, id);
  }

  lemma {:induction false} ExecKeepsJobs(cfg: Config, s: State, e: Event)
    requires JobsOk(cfg, s) && Enabled(cfg, s, e) && e.Proxy? && (e.step.Run? || e.step.Finish?)
    ensures JobsOk(cfg, Apply(cfg, s, e))
  {
    var s' := Apply(cfg, s, e);
    L.StepKeepsOk(s.proxy, e.step, cfg.priority);
    forall id: nat | id < |s'.jobs| ensures JobOk(cfg, s', id) {
      assert JobOk(cfg, s, id);
    }
  }

  lemma {:induction false} StepKeepsJobs(cfg: Config, s: State, e: Event)
    requires JobsOk(cfg, s) && Enabled(cfg, s, e)
    ensures JobsOk(cfg, Apply(cfg, s, e))
  {
    match e
    case Arrive(_, _, _, _) => ArriveKeepsJobs(cfg, s, e);
    case Send(_) => SendKeepsJobs(cfg, s, e);
    case Proxy(step, _) =>
      if step.Take? || step.Poll? {
        TakeKeepsJobs(cfg, s, e);
      } else {
        ExecKeepsJobs(cfg, s, e);
      }
    case Mirror(_, _) => MirrorKeepsJobs(cfg, s, e);
    case _ => HandlerKeepsJobs(cfg, s, e);
  }

  lemma {:induction false} RunKeepsJobs(cfg: Config, s: State, es: seq<Event>)
    requires JobsOk(cfg, s) && Valid(cfg, s, es)
    ensures JobsOk(cfg, After(cfg, s, es))
    decreases |es|
  {
    if |es| > 0 {
      StepKeepsJobs(cfg, s, es[0]);
      RunKeepsJobs(cfg, Apply(cfg, s, es[0]), es[1..]);
    }
  }

  /** The life of a request, as seen in one state: the job is in exactly one place; it is
      executed at most once and its WaitGroup never goes negative; the client gets the result
      of that one execution; each buffer is freed at most once, after the copy, and never
      while the job is queued or in the worker's hands. */
  ghost predicate LivesWell(s: State, id: Id)
    requires id < |s.jobs|
  {
    var j := s.jobs[id];
    && Places(s, id) == 1
    && 0 <= j.wg <= 1
    && |j.ran| <= 1
    && (j.sent.Some? ==> |j.ran| == 1 && j.sent.value == j.ran[0])
    && (j.mode.Fake? && j.sent.Some? ==> j.sent.value == j.triaged)
    && (j.reqFrees + j.resFrees > 0 ==> j.sent.Some?)
    && (id in s.proxy.hi || id in s.proxy.lo || Holds(s.proxy, id) ==> j.reqFrees == j.resFrees == 0)
    && (j.pc.Returned? ==> j.sent.Some? && j.reqFrees == j.resFrees == 1)
    && j.reqFrees <= 1 && j.resFrees <= 1
  }

  lemma {:induction false} OkLivesWell(cfg: Config, s: State, id: Id)
    requires id < |s.jobs| && JobOk(cfg, s, id)
    ensures LivesWell(s, id)
  {
  }

  /** The life of a request, in every reachable state. */
  lemma {:induction false} RequestLifecycle(cfg: Config, es: seq<Event>, id: Id)
    requires Valid(cfg, Init(cfg), es)
    requires id < |After(cfg, Init(cfg), es).jobs|
    ensures LivesWell(After(cfg, Init(cfg), es), id)
  {
    RunKeepsJobs(cfg, Init(cfg), es);
    OkLivesWell(cfg, After(cfg, Init(cfg), es), id);
  }

  // ---------- what a run says about a job ----------

  /** The results of the calls made for job `id` in a run, read off its events. */
  function Results(cfg: Config, s: State, es: seq<Event>, id: Id): seq<Response>
    requires Valid(cfg, s, es)
    decreases |es|
  {
    if |es| == 0 then []
    else
      (if es[0].Proxy? && es[0].step.Run? && s.proxy.pc.t.job == id then [es[0].v] else [])
      + Results(cfg, Apply(cfg, s, es[0]), es[1..], id)
  }

  function RanBefore(s: State, id: Id): seq<Response> {
    if id < |s.jobs| then s.jobs[id].ran else []
  }

  lemma {:induction false} StepRecordsResult(cfg: Config, s: State, e: Event, id: Id)
    requires Enabled(cfg, s, e)
    ensures RanBefore(Apply(cfg, s, e), id)
         == RanBefore(s, id) + (if e.Proxy? && e.step.Run? && s.proxy.pc.t.job == id then [e.v] else [])
  {
  }

  lemma {:induction false} RunRecordsResults(cfg: Config, s: State, es: seq<Event>, id: Id)
    requires Valid(cfg, s, es)
    ensures RanBefore(After(cfg, s, es), id) == RanBefore(s, id) + Results(cfg, s, es, id)
    decreases |es|
  {
    if |es| > 0 {
      StepRecordsResult(cfg, s, es[0], id);
      RunRecordsResults(cfg, Apply(cfg, s, es[0]), es[1..], id);
    }
  }

  /** What the client gets is the result of the one call that the worker made for its request. */
  lemma {:induction false} AnswerIsTheResult(cfg: Config, es: seq<Event>, id: Id)
    requires Valid(cfg, Init(cfg), es)
    requires id < |After(cfg, Init(cfg), es).jobs|
    ensures var j := After(cfg, Init(cfg), es).jobs[id];
            && |Results(cfg, Init(cfg), es, id)| <= 1
            && (j.sent.Some? ==> Results(cfg, Init(cfg), es, id) == [j.sent.value])
  {
    RequestLifecycle(cfg, es, id);
    RunRecordsResults(cfg, Init(cfg), es, id);
  }

  lemma {:induction false} RunsCompose(cfg: Config, s: State, es: seq<Event>, fs: seq<Event>)
    requires Valid(cfg, s, es) && Valid(cfg, After(cfg, s, es), fs)
    ensures Valid(cfg, s, es + fs) && After(cfg, s, es + fs) == After(cfg, After(cfg, s, es), fs)
    decreases |es|
  {
    if |es| == 0 {
      assert es + fs == fs;
    } else {
      RunsCompose(cfg, Apply(cfg, s, es[0]), es[1..], fs);
      assert (es + fs)[1..] == es[1..] + fs;
    }
  }

  /** A handler waits for a place exactly while the 512 slots of its queue are taken. */
  lemma {:induction false} SendBlocksIffFull(cfg: Config, s: State, id: Id)
    requires At(s, id, 0) && L.Ok(s.proxy, cfg.priority)
    ensures Enabled(cfg, s, Send(id)) <==> |s.proxy.Queue(ClassOf(s.jobs[id]))| != 512
  {
  }

  // ---------- the class of a job ----------

  /** Whatever was sent to a proxy queue was sent to the queue of its class. */
  ghost predicate SentByClass(s: State) {
    && (forall id :: id in s.proxy.inHi ==> id < |s.jobs| && s.jobs[id].prio)
    && (forall id :: id in s.proxy.inLo ==> id < |s.jobs| && !s.jobs[id].prio)
  }

  lemma {:induction false} StepKeepsSentByClass(cfg: Config, s: State, e: Event)
    requires SentByClass(s) && Enabled(cfg, s, e)
    ensures SentByClass(Apply(cfg, s, e))
  {
    if e.Send? {
      SendKeepsSentByClass(cfg, s, e.id);
    }
  }

  lemma {:induction false} SendKeepsSentByClass(cfg: Config, s: State, id: Id)
    requires SentByClass(s) && Enabled(cfg, s, Send(id))
    ensures SentByClass(Apply(cfg, s, Send(id)))
  {
  }

  lemma {:induction false} RunKeepsSentByClass(cfg: Config, s: State, es: seq<Event>)
    requires SentByClass(s) && Valid(cfg, s, es)
    ensures SentByClass(After(cfg, s, es))
    decreases |es|
  {
    if |es| > 0 {
      StepKeepsSentByClass(cfg, s, es[0]);
      RunKeepsSentByClass(cfg, Apply(cfg, s, es[0]), es[1..]);
    }
  }
}
