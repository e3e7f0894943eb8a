/** One worker goroutine draining a pair of bounded queues (the proxy worker, and the
    mirror worker of every peer host, run this same loop).

    A lane is a value; its events are the atomic steps of the senders and of the worker.
    The fields `inHi`, `inLo`, `outHi`, `outLo`, `took` and `done` are histories: they record,
    in order, what was ever sent, taken and finished, and no step looks at them. */
module Lane {

  const CAPACITY: nat := 512

  datatype Class = Hi | Lo

  /** A job together with the queue it was taken from. */
  datatype Ticket<J> = Ticket(c: Class, job: J)

  /** Where the worker is: at the select with a default case, at the inner blocking select,
      holding a job whose call has not returned, or holding one whose call has returned. */
  datatype Pc<J> = Outer | Inner | Taken(t: Ticket<J>) | Ran(t: Ticket<J>)

  datatype Lane<J> = Lane(
    hi: seq<J>, lo: seq<J>, pc: Pc<J>,
    inHi: seq<J>, inLo: seq<J>, outHi: seq<J>, outLo: seq<J>,
    took: seq<Ticket<J>>, done: seq<Ticket<J>>)
  {
    function Queue(c: Class): seq<J> {
      if c.Hi? then hi else lo
    }

    function Held(): seq<Ticket<J>> {
      if pc.Taken? || pc.Ran? then [pc.t] else []
    }
  }

  datatype Event<J> = Enqueue(c: Class, job: J) | Poll | Take(c: Class) | Run | Finish

  function Idle<J>(): Lane<J> {
    Lane([], [], Outer, [], [], [], [], [], [])
  }

  /** `priority` selects the two-stage select. `Poll` is its default case, which Go runs only
      when the high queue has nothing to receive. */
  predicate Enabled<J>(l: Lane<J>, e: Event<J>, priority: bool) {
    match e
    case Enqueue(c, _) => |l.Queue(c)| < CAPACITY
    case Poll => priority && l.pc.Outer? && |l.hi| == 0
    case Take(c) =>
      && |l.Queue(c)| > 0
      && (if priority then l.pc.Inner? || (l.pc.Outer? && c.Hi?) else l.pc.Outer?)
    case Run => l.pc.Taken?
    case Finish => l.pc.Ran?
  }

  function Apply<J>(l: Lane<J>, e: Event<J>, priority: bool): Lane<J>
    requires Enabled(l, e, priority)
  {
    match e
    case Enqueue(Hi, j) => l.(hi := l.hi + [j], inHi := l.inHi + [j])
    case Enqueue(Lo, j) => l.(lo := l.lo + [j], inLo := l.inLo + [j])
    case Poll => l.(pc := Inner)
    case Take(Hi) =>
      var t := Ticket(Hi, l.hi[0]);
      l.(hi := l.hi[1..], outHi := l.outHi + [t.job], took := l.took + [t], pc := Taken(t))
    case Take(Lo) =>
      var t := Ticket(Lo, l.lo[0]);
      l.(lo := l.lo[1..], outLo := l.outLo + [t.job], took := l.took + [t], pc := Taken(t))
    case Run => l.(pc := Ran(l.pc.t))
    case Finish => l.(pc := Outer, done := l.done + [l.pc.t])
  }

  predicate Valid<J>(l: Lane<J>, es: seq<Event<J>>, priority: bool)
    decreases |es|
  {
    |es| > 0 ==> Enabled(l, es[0], priority) && Valid(Apply(l, es[0], priority), es[1..], priority)
  }

  function After<J>(l: Lane<J>, es: seq<Event<J>>, priority: bool): Lane<J>
    requires Valid(l, es, priority)
    decreases |es|
  {
    if |es| == 0 then l else After(Apply(l, es[0], priority), es[1..], priority)
  }

  /** What every lane keeps: each class is first-in first-out, queues are bounded, and jobs
      are finished in the order taken with at most one in the worker's hands. */
  ghost predicate Ok<J>(l: Lane<J>, priority: bool) {
    && l.inHi == l.outHi + l.hi
    && l.inLo == l.outLo + l.lo
    && |l.hi| <= CAPACITY
    && |l.lo| <= CAPACITY
    && l.took == l.done + l.Held()
    && |l.took| == |l.outHi| + |l.outLo|
    && (l.pc.Inner? ==> priority)
  }

  /** The histories of `l'` continue those of `l`. */
  ghost predicate Extends<J>(l: Lane<J>, l': Lane<J>) {
    && l.took <= l'.took
    && l.outHi <= l'.outHi && l.outLo <= l'.outLo
    && l.inHi <= l'.inHi && l.inLo <= l'.inLo
  }

  lemma {:induction false} StepKeepsOk<J>(l: Lane<J>, e: Event<J>, priority: bool)
    requires Ok(l, priority) && Enabled(l, e, priority)
    ensures Ok(Apply(l, e, priority), priority)
    ensures Extends(l, Apply(l, e, priority))
  {
    match e
    case Take(Hi) => TakeHiKeepsOk(l, priority);
    case Take(Lo) => TakeLoKeepsOk(l, priority);
    case _ =>
  }

  lemma {:induction false} TakeHiKeepsOk<J>(l: Lane<J>, priority: bool)
    requires Ok(l, priority) && Enabled(l, Take(Hi), priority)
    ensures Ok(Apply(l, Take(Hi), priority), priority) && Extends(l, Apply(l, Take(Hi), priority))
  {
    assert l.hi == [l.hi[0]] + l.hi[1..];
  }

  lemma {:induction false} TakeLoKeepsOk<J>(l: Lane<J>, priority: bool)
    requires Ok(l, priority) && Enabled(l, Take(Lo), priority)
    ensures Ok(Apply(l, Take(Lo), priority), priority) && Extends(l, Apply(l, Take(Lo), priority))
  {
    assert l.lo == [l.lo[0]] + l.lo[1..];
  }

  /** The laws of a lane hold after every run, and what was sent or taken first stays first. */
  lemma {:induction false} RunKeepsOk<J>(l: Lane<J>, es: seq<Event<J>>, priority: bool)
    requires Ok(l, priority) && Valid(l, es, priority)
    ensures Ok(After(l, es, priority), priority)
    ensures Extends(l, After(l, es, priority))
    decreases |es|
  {
    if |es| > 0 {
      StepKeepsOk(l, es[0], priority);
      RunKeepsOk(Apply(l, es[0], priority), es[1..], priority);
    }
  }

  /** The jobs of one class among some tickets, in order. */
  function Of<J>(ts: seq<Ticket<J>>, c: Class): seq<J> {
    if |ts| == 0 then []
    else
      var last := ts[|ts| - 1];
      Of(ts[..|ts| - 1], c) + (if last.c == c then [last.job] else [])
  }

  lemma {:induction false} OfSnoc<J>(ts: seq<Ticket<J>>, t: Ticket<J>)
    ensures Of(ts + [t], t.c) == Of(ts, t.c) + [t.job]
    ensures forall c :: c != t.c ==> Of(ts + [t], c) == Of(ts, c)
  {
    assert (ts + [t])[..|ts|] == ts;
  }

  ghost predicate ServedInOrder<J>(l: Lane<J>) {
    Of(l.took, Hi) == l.outHi && Of(l.took, Lo) == l.outLo
  }

  lemma {:induction false} StepServesInOrder<J>(l: Lane<J>, e: Event<J>, priority: bool)
    requires ServedInOrder(l) && Enabled(l, e, priority)
    ensures ServedInOrder(Apply(l, e, priority))
  {
    match e
    case Take(Hi) => OfSnoc(l.took, Ticket(Hi, l.hi[0]));
    case Take(Lo) => OfSnoc(l.took, Ticket(Lo, l.lo[0]));
    case _ =>
  }

  /** Whatever the worker chooses, it serves each class in the order of its queue. */
  lemma {:induction false} RunServesInOrder<J>(l: Lane<J>, es: seq<Event<J>>, priority: bool)
    requires ServedInOrder(l) && Valid(l, es, priority)
    ensures ServedInOrder(After(l, es, priority))
    decreases |es|
  {
    if |es| > 0 {
      StepServesInOrder(l, es[0], priority);
      RunServesInOrder(Apply(l, es[0], priority), es[1..], priority);
    }
  }

  /** The jobs that a run sends to one of the queues, in order, read off its events. */
  function Sent<J>(es: seq<Event<J>>, c: Class): seq<J> {
    if |es| == 0 then []
    else (if es[0].Enqueue? && es[0].c == c then [es[0].job] else []) + Sent(es[1..], c)
  }

  function Finishes<J>(es: seq<Event<J>>): nat {
    if |es| == 0 then 0 else (if es[0].Finish? then 1 else 0) + Finishes(es[1..])
  }

  lemma {:induction false} StepRecordsSent<J>(l: Lane<J>, e: Event<J>, priority: bool)
    requires Enabled(l, e, priority)
    ensures var l' := Apply(l, e, priority);
            && l'.inHi == l.inHi + (if e.Enqueue? && e.c.Hi? then [e.job] else [])
            && l'.inLo == l.inLo + (if e.Enqueue? && e.c.Lo? then [e.job] else [])
            && |l'.done| == |l.done| + (if e.Finish? then 1 else 0)
  {
  }

  lemma {:induction false} RunRecordsSent<J>(l: Lane<J>, es: seq<Event<J>>, priority: bool)
    requires Valid(l, es, priority)
    ensures After(l, es, priority).inHi == l.inHi + Sent(es, Hi)
    ensures After(l, es, priority).inLo == l.inLo + Sent(es, Lo)
    ensures |After(l, es, priority).done| == |l.done| + Finishes(es)
    decreases |es|
  {
    if |es| > 0 {
      StepRecordsSent(l, es[0], priority);
      RunRecordsSent(Apply(l, es[0], priority), es[1..], priority);
    }
  }

  /** In every run of a lane, what was sent to a queue is, in order, what the worker took from it
      and what still waits there; and the worker has finished all that it took but one at most. */
  lemma {:induction false} ServedAsSent<J>(es: seq<Event<J>>, priority: bool)
    requires Valid(Idle<J>(), es, priority)
    ensures var l := After(Idle<J>(), es, priority);
            && Sent(es, Hi) == Of(l.took, Hi) + l.hi && |l.hi| <= 512
            && Sent(es, Lo) == Of(l.took, Lo) + l.lo && |l.lo| <= 512
            && |l.took| - 1 <= Finishes(es) <= |l.took|
  {
    RunKeepsOk(Idle<J>(), es, priority);
    RunServesInOrder(Idle<J>(), es, priority);
    RunRecordsSent(Idle<J>(), es, priority);
  }

  /** Bounded priority inversion. `n` numbers a job in the order of the high class; it is
      queued in `l` and still not taken at the end of the run `es`. Then the run took at most
      one low job (none unless the worker was already at the inner select), and at most 512
      jobs in all were taken before it. */
  lemma {:induction false} BoundedInversion<J>(l: Lane<J>, es: seq<Event<J>>, n: nat)
    requires Ok(l, true) && Valid(l, es, true)
    requires |l.outHi| <= n < |l.inHi|
    requires |After(l, es, true).outHi| <= n
    ensures |After(l, es, true).outLo| - |l.outLo| <= (if l.pc.Inner? then 1 else 0)
    ensures |After(l, es, true).took| - |l.took| <= (n - |l.outHi|) + 1 <= 512
    decreases |es|
  {
    if |es| > 0 {
      var l' := Apply(l, es[0], true);
      StepKeepsOk(l, es[0], true);
      RunKeepsOk(l', es[1..], true);
      BoundedInversion(l', es[1..], n);
    }
    RunKeepsOk(l, es, true);
  }

  /** The one inverted low job is real: an idle worker can pass its poll, and then a low job
      that arrives after a high job is taken before it. */
  lemma {:induction false} InversionIsReached<J>(h: J, j: J)
    ensures var es := [Poll, Enqueue(Hi, h), Enqueue(Lo, j), Take(Lo)];
            && Valid(Idle(), es, true)
            && After(Idle(), es, true).took == [Ticket(Lo, j)]
            && After(Idle(), es, true).hi == [h]
  {
    var l1 := Apply(Idle<J>(), Poll, true);
    var l2 := Apply(l1, Enqueue(Hi, h), true);
    var l3 := Apply(l2, Enqueue(Lo, j), true);
    var l4 := Apply(l3, Take(Lo), true);
    var e3 := [Take(Lo)];
    var e2 := [Enqueue(Lo, j)] + e3;
    var e1 := [Enqueue(Hi, h)] + e2;
    var es := [Poll, Enqueue(Hi, h), Enqueue(Lo, j), Take(Lo)];
    assert es == [Poll] + e1 && es[1..] == e1 && e1[1..] == e2 && e2[1..] == e3 && e3[1..] == [];
    assert Valid(l4, [], true) && Valid(l3, e3, true) && Valid(l2, e2, true) && Valid(l1, e1, true);
    assert After(Idle(), es, true) == After(l1, e1, true) == After(l2, e2, true) == After(l3, e3, true) == l4;
  }

  /** Without the priority mode there is no such bound: while a high job waits, any number
      `k` of low jobs can be taken, each sent after the high one. */
  lemma {:induction false} NoBoundWithoutPriority<J>(l: Lane<J>, j: J, k: nat) returns (es: seq<Event<J>>)
    requires Ok(l, false) && l.pc.Outer? && |l.hi| > 0 && l.lo == []
    ensures Valid(l, es, false)
    ensures |After(l, es, false).outLo| == |l.outLo| + k
    ensures After(l, es, false).hi == l.hi && After(l, es, false).outHi == l.outHi
    decreases k
  {
    es := [];
    if k > 0 {
      var l1 := Apply(l, Enqueue(Lo, j), false);
      var l2 := Apply(l1, Take(Lo), false);
      var l3 := Apply(l2, Run, false);
      var l4 := Apply(l3, Finish, false);
      StepKeepsOk(l, Enqueue(Lo, j), false);
      StepKeepsOk(l1, Take(Lo), false);
      StepKeepsOk(l2, Run, false);
      StepKeepsOk(l3, Finish, false);
      var rest := NoBoundWithoutPriority(l4, j, k - 1);
      var e3 := [Finish] + rest;
      var e2 := [Run] + e3;
      var e1 := [Take(Lo)] + e2;
      es := [Enqueue(Lo, j)] + e1;
      assert e3[1..] == rest && e2[1..] == e3 && e1[1..] == e2 && es[1..] == e1;
      assert Valid(l3, e3, false) && Valid(l2, e2, false) && Valid(l1, e1, false);
      assert After(l, es, false) == After(l1, e1, false) == After(l2, e2, false) == After(l3, e3, false);
    }
  }

  /** High job number `n` is queued in `l`, and still not taken after the run. */
  ghost predicate Overtaken<J>(l: Lane<J>, es: seq<Event<J>>, n: nat, priority: bool) {
    && Ok(l, priority) && Valid(l, es, priority)
    && |l.outHi| <= n < |l.inHi| && |After(l, es, priority).outHi| <= n
  }

  /** In all such runs at most `bound` low jobs are taken. */
  ghost predicate InversionsBoundedBy<J(!new)>(priority: bool, bound: nat) {
    forall l: Lane<J>, es: seq<Event<J>>, n: nat ::
      Overtaken(l, es, n, priority) ==> |After(l, es, priority).outLo| - |l.outLo| <= bound
  }

  lemma {:induction false} UnboundedWithoutPriority<J(!new)>(j: J, bound: nat)
    ensures !InversionsBoundedBy<J>(false, bound)
  {
    var l := Apply(Idle<J>(), Enqueue(Hi, j), false);
    var es := NoBoundWithoutPriority(l, j, bound + 1);
    assert Overtaken(l, es, 0, false);
  }

  /** So inversions are bounded, by any number at all, exactly in the priority mode. */
  lemma {:induction false} InversionIsBoundedIffPriority<J(!new)>(priority: bool, j: J)
    ensures (exists bound :: InversionsBoundedBy<J>(priority, bound)) <==> priority
  {
    if priority {
      forall l: Lane<J>, es: seq<Event<J>>, n: nat | Overtaken(l, es, n, true)
        ensures |After(l, es, true).outLo| - |l.outLo| <= 1
      {
        BoundedInversion(l, es, n);
      }
      assert InversionsBoundedBy<J>(true, 1);
    } else {
      forall bound: nat ensures !InversionsBoundedBy<J>(false, bound) {
        UnboundedWithoutPriority(j, bound);
      }
    }
  }

  /** A worker is never stuck while a queue it serves holds a job: one of its own steps is
      enabled, in both modes. */
  lemma {:induction false} WorkerMoves<J>(l: Lane<J>, priority: bool) returns (e: Event<J>)
    requires l.pc.Inner? ==> priority
    requires |l.hi| > 0 || |l.lo| > 0 || l.pc.Taken? || l.pc.Ran?
    ensures !e.Enqueue? && Enabled(l, e, priority)
  {
    if l.pc.Taken? {
      e := Run;
    } else if l.pc.Ran? {
      e := Finish;
    } else if |l.hi| > 0 {
      e := Take(Hi);
    } else if priority && l.pc.Outer? {
      e := Poll;
    } else {
      e := Take(Lo);
    }
  }
}
