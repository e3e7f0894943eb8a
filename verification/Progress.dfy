/** Every request is answered: a step is always enabled while one is not, and the steps that
    remain are bounded by a measure that each of them lowers. */
module Progress {
  import L = Lane
  import opened Scheduler
  import opened Mirroring

  function HandlerWork(cfg: Config, pc: HandlerPc): nat {
    match pc
    case Sending => 6 + |cfg.hosts|
    case Mirroring(todo) => 5 + |todo|
    case Waiting => 4
    case Copying => 3
    case FreeingRequest => 2
    case FreeingResponse => 1
    case Returned => 0
  }

  function JobWork(cfg: Config, j: Job): nat {
    HandlerWork(cfg, j.pc) + (if j.wg > 0 then 4 else 0)
  }

  function JobsWork(cfg: Config, jobs: seq<Job>): nat {
    if |jobs| == 0 then 0 else JobsWork(cfg, jobs[..|jobs| - 1]) + JobWork(cfg, jobs[|jobs| - 1])
  }

  function WorkerWork(l: L.Lane<Id>): nat {
    match l.pc
    case Outer => 3
    case Inner => 2
    case Taken(_) => 1
    case Ran(_) => 0
  }

  /** Steps left at most: those of the handlers and of the proxy worker. */
  function Work(cfg: Config, s: State): nat {
    JobsWork(cfg, s.jobs) + WorkerWork(s.proxy)
  }

  /** A step of a handler that has already arrived, or of the proxy worker. */
  predicate Serves(e: Event) {
    !e.Arrive? && !e.Mirror?
  }

  function ServingSteps(es: seq<Event>): nat {
    if |es| == 0 then 0 else (if Serves(es[0]) then 1 else 0) + ServingSteps(es[1..])
  }

  lemma {:induction false} JobsWorkUpdate(cfg: Config, jobs: seq<Job>, id: Id, j: Job)
    requires id < |jobs|
    ensures JobsWork(cfg, jobs[id := j]) == JobsWork(cfg, jobs) - JobWork(cfg, jobs[id]) + JobWork(cfg, j)
    decreases |jobs|
  {
    var n := |jobs| - 1;
    var jobs' := jobs[id := j];
    if id == n {
      assert jobs'[..n] == jobs[..n];
    } else {
      JobsWorkUpdate(cfg, jobs[..n], id, j);
      assert jobs'[..n] == jobs[..n][id := j];
    }
  }

  lemma {:induction false} ServingStepLowersWork(cfg: Config, s: State, e: Event)
    requires JobsOk(cfg, s) && Enabled(cfg, s, e) && Serves(e)
    ensures Work(cfg, Apply(cfg, s, e)) < Work(cfg, s)
  {
    if e.Proxy? {
      WorkerStepLowersWork(cfg, s, e);
    } else {
      assert JobOk(cfg, s, e.id);
      HandlerStepLowersWork(cfg, s, e);
    }
  }

  lemma {:induction false} WorkerStepLowersWork(cfg: Config, s: State, e: Event)
    requires JobsOk(cfg, s) && Enabled(cfg, s, e) && e.Proxy?
    ensures Work(cfg, Apply(cfg, s, e)) < Work(cfg, s)
  {
    if e.step.Run? || e.step.Finish? {
      var id := s.proxy.pc.t.job;
      assert JobOk(cfg, s, id);
      JobsWorkUpdate(cfg, s.jobs, id, Apply(cfg, s, e).jobs[id]);
    }
  }

  lemma {:induction false} HandlerStepLowersWork(cfg: Config, s: State, e: Event)
    requires Enabled(cfg, s, e) && Serves(e) && !e.Proxy?
    ensures Work(cfg, Apply(cfg, s, e)) < Work(cfg, s)
  {
    var j' := Apply(cfg, s, e).jobs[e.id];
    if e.Send? {
      SendLowersJobWork(cfg, s, e.id);
    } else if e.Offer? {
      OfferLowersJobWork(cfg, s, e.id, e.host);
    } else {
      OtherLowersJobWork(cfg, s, e);
    }
    JobsWorkUpdate(cfg, s.jobs, e.id, j');
  }

  /** The step of handler `id` lowers the work of its job, and leaves all else of the work alone. */
  ghost predicate LowersJobWork(cfg: Config, s: State, s': State, id: Id) {
    && id < |s.jobs| == |s'.jobs|
    && s'.jobs == s.jobs[id := s'.jobs[id]] && s'.proxy.pc == s.proxy.pc
    && JobWork(cfg, s'.jobs[id]) < JobWork(cfg, s.jobs[id])
  }

  lemma {:induction false} SendLowersJobWork(cfg: Config, s: State, id: Id)
    requires Enabled(cfg, s, Send(id))
    ensures LowersJobWork(cfg, s, Apply(cfg, s, Send(id)), id)
  {
  }

  lemma {:induction false} OfferLowersJobWork(cfg: Config, s: State, id: Id, h: Host)
    requires Enabled(cfg, s, Offer(id, h))
    ensures LowersJobWork(cfg, s, Apply(cfg, s, Offer(id, h)), id)
  {
    var todo := s.jobs[id].pc.todo;
    assert todo == (todo - {h}) + {h};
  }

  lemma {:induction false} OtherLowersJobWork(cfg: Config, s: State, e: Event)
    requires Enabled(cfg, s, e) && IsHandlerStep(e) && !e.Offer?
    ensures LowersJobWork(cfg, s, Apply(cfg, s, e), e.id)
  {
  }

  /** Once arrivals stop, a run can contain at most `Work` steps of handlers and proxy worker,
      however many steps mirror workers take in between. */
  lemma {:induction false} ServingStepsAreBounded(cfg: Config, s: State, es: seq<Event>)
    requires JobsOk(cfg, s) && Valid(cfg, s, es)
    requires forall i :: 0 <= i < |es| ==> !es[i].Arrive?
    ensures ServingSteps(es) + Work(cfg, After(cfg, s, es)) <= Work(cfg, s)
    decreases |es|
  {
    if |es| > 0 {
      var s' := Apply(cfg, s, es[0]);
      StepKeepsJobs(cfg, s, es[0]);
      if Serves(es[0]) {
        ServingStepLowersWork(cfg, s, es[0]);
      }
      ServingStepsAreBounded(cfg, s', es[1..]);
    }
  }

  lemma {:induction false} ProxyWorkerMoves(cfg: Config, s: State) returns (e: Event)
    requires JobsOk(cfg, s)
    requires |s.proxy.hi| > 0 || |s.proxy.lo| > 0 || s.proxy.pc.Taken? || s.proxy.pc.Ran?
    ensures Serves(e) && Enabled(cfg, s, e)
  {
    var step := L.WorkerMoves(s.proxy, cfg.priority);
    if step.Run? {
      e := Proxy(step, s.jobs[s.proxy.pc.t.job].res);
    } else {
      e := Proxy(step, "");
    }
  }

  /** No deadlock: while some request has not been answered, a handler or the proxy worker can
      move, in both worker modes and whatever the mirror queues hold. */
  lemma {:induction false} UnansweredCanMove(cfg: Config, s: State, id: Id) returns (e: Event)
    requires JobsOk(cfg, s) && s.peers.Keys == cfg.hosts
    requires id < |s.jobs| && !s.jobs[id].pc.Returned?
    ensures Serves(e) && Enabled(cfg, s, e)
  {
    assert JobOk(cfg, s, id);
    var j := s.jobs[id];
    match j.pc {
      case Sending =>
        if |s.proxy.Queue(ClassOf(j))| < L.CAPACITY {
          e := Send(id);
        } else {
          e := ProxyWorkerMoves(cfg, s);
        }
      case Mirroring(todo) =>
        if todo == {} {
          e := EndMirror(id);
        } else {
          var h :| h in todo;
          e := Offer(id, h);
        }
      case Waiting =>
        if j.wg == 0 {
          e := Wake(id);
        } else {
          if !Holds(s.proxy, id) {
            assert id in s.proxy.hi || id in s.proxy.lo;
          }
          e := ProxyWorkerMoves(cfg, s);
        }
      case Copying => e := Copy(id);
      case FreeingRequest => e := FreeRequest(id);
      case FreeingResponse => e := FreeResponse(id);
    }
  }

  /** No handler that has arrived, and not the proxy worker, can take a step. */
  ghost predicate Quiet(cfg: Config, s: State) {
    forall e :: Serves(e) ==> !Enabled(cfg, s, e)
  }

  ghost predicate Answered(j: Job) {
    j.pc.Returned? && j.sent.Some?
  }

  lemma {:induction false} QuietMeansAnswered(cfg: Config, s: State, id: Id)
    requires JobsOk(cfg, s) && s.peers.Keys == cfg.hosts && Quiet(cfg, s)
    requires id < |s.jobs|
    ensures Answered(s.jobs[id])
  {
    assert JobOk(cfg, s, id);
    if !s.jobs[id].pc.Returned? {
      var e := UnansweredCanMove(cfg, s, id);
    }
  }

  /** Some run from the empty start leads to `s`. */
  ghost predicate Reachable(cfg: Config, s: State) {
    exists es :: Valid(cfg, Init(cfg), es) && After(cfg, Init(cfg), es) == s
  }

  lemma {:induction false} ReachableIsOk(cfg: Config, s: State)
    requires Reachable(cfg, s)
    ensures JobsOk(cfg, s) && PeersOk(cfg, s)
  {
    var es :| Valid(cfg, Init(cfg), es) && After(cfg, Init(cfg), es) == s;
    InitIsOk(cfg);
    RunKeepsJobs(cfg, Init(cfg), es);
    RunKeepsPeers(cfg, Init(cfg), es);
  }

  /** Drain: after any run, every continuation without arrivals has boundedly many serving steps,
      and when no further one is possible every request has its answer, which is the result of the
      one call made for it. */
  lemma {:induction false} EveryRequestIsAnswered(cfg: Config, before: seq<Event>, es: seq<Event>)
    requires Valid(cfg, Init(cfg), before) && Valid(cfg, After(cfg, Init(cfg), before), es)
    requires forall i :: 0 <= i < |es| ==> !es[i].Arrive?
    ensures ServingSteps(es) <= Work(cfg, After(cfg, Init(cfg), before))
    ensures Valid(cfg, Init(cfg), before + es)
    ensures var s := After(cfg, Init(cfg), before + es);
            Quiet(cfg, s) ==>
              forall id: nat :: id < |s.jobs| ==>
                && Answered(s.jobs[id])
                && Results(cfg, Init(cfg), before + es, id) == [s.jobs[id].sent.value]
  {
    RunsCompose(cfg, Init(cfg), before, es);
    DrainIsBounded(cfg, before, es);
    var s := After(cfg, Init(cfg), before + es);
    forall id: nat | Quiet(cfg, s) && id < |s.jobs|
      ensures Answered(s.jobs[id]) && Results(cfg, Init(cfg), before + es, id) == [s.jobs[id].sent.value]
    {
      QuietRunHasAnswered(cfg, before + es, id);
    }
  }

  lemma {:induction false} DrainIsBounded(cfg: Config, before: seq<Event>, es: seq<Event>)
    requires Valid(cfg, Init(cfg), before) && Valid(cfg, After(cfg, Init(cfg), before), es)
    requires forall i :: 0 <= i < |es| ==> !es[i].Arrive?
    ensures ServingSteps(es) <= Work(cfg, After(cfg, Init(cfg), before))
  {
    assert Reachable(cfg, After(cfg, Init(cfg), before));
    ReachableIsOk(cfg, After(cfg, Init(cfg), before));
    ServingStepsAreBounded(cfg, After(cfg, Init(cfg), before), es);
  }

  lemma {:induction false} QuietRunHasAnswered(cfg: Config, es: seq<Event>, id: Id)
    requires Valid(cfg, Init(cfg), es) && Quiet(cfg, After(cfg, Init(cfg), es))
    requires id < |After(cfg, Init(cfg), es).jobs|
    ensures var j := After(cfg, Init(cfg), es).jobs[id];
            Answered(j) && Results(cfg, Init(cfg), es, id) == [j.sent.value]
  {
    assert Reachable(cfg, After(cfg, Init(cfg), es));
    ReachableIsOk(cfg, After(cfg, Init(cfg), es));
    QuietMeansAnswered(cfg, After(cfg, Init(cfg), es), id);
    AnswerIsTheResult(cfg, es, id);
  }
}
