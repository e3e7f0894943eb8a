/** The websocket pump. Each direction has a reader, a writer and a terminator goroutine around
    a channel of 16 messages; `run` starts both directions and waits for a stop or a failure. */
module Pump {

  const MESSAGES: nat := 16
  const FAILURES: nat := 2
  const ROUNDS: nat := 60

  type Message = string

  /** What became of a message the writer took: written (possibly altered by chaos), dropped by
      chaos, or not written because of an error. */
  datatype Fate = Written(out: Message) | Dropped | Failed

  datatype Handled = Handled(m: Message, fate: Fate)

  datatype Reader = Checking | Reading | Sending(m: Message) | ReaderExited(byToken: bool)

  datatype Writer = Selecting | Writing(m: Message) | WriterExited

  datatype Terminator = Waiting | StoppingReads | StoppingWrites | TerminatorExited

  // ---------- one direction ----------

  /** `done`, `doneReads` and `doneWrites` count the tokens in these channels of capacity one.
      `read` and `handled` are histories. */
  datatype Flow = Flow(
    done: nat, doneReads: nat, doneWrites: nat,
    reader: Reader, writer: Writer, terminator: Terminator,
    messages: seq<Message>, read: seq<Message>, handled: seq<Handled>)

  datatype Step =
    | Signal                  // run sends on done
    | Relay                   // the next step of the terminator
    | CheckReads              // the reader polls doneReads
    | Read(m: Message)        // a message arrives
    | ReadFails
    | Put                     // the reader sends on messages
    | Receive                 // the writer takes a message
    | StopWrites              // the writer takes the token
    | Handle(fate: Fate)

  const START := Flow(0, 0, 0, Checking, Selecting, Waiting, [], [], [])

  /** A direction that ended without a message. */
  const ENDED := START.(reader := ReaderExited(true), writer := WriterExited, terminator := TerminatorExited)

  predicate CanStep(f: Flow, s: Step, chaos: bool) {
    match s
    case Signal => f.done < 1
    case Relay =>
      (match f.terminator
       case Waiting => f.done > 0
       case StoppingReads => f.doneReads < 1
       case StoppingWrites => f.doneWrites < 1
       case TerminatorExited => false)
    case CheckReads => f.reader.Checking?
    case Read(_) => f.reader.Reading?
    case ReadFails => f.reader.Reading?
    case Put => f.reader.Sending? && |f.messages| < MESSAGES
    case Receive => f.writer.Selecting? && |f.messages| > 0
    case StopWrites => f.writer.Selecting? && f.doneWrites > 0
    case Handle(fate) => f.writer.Writing? && (chaos || fate == Failed || fate == Written(f.writer.m))
  }

  function DoStep(f: Flow, s: Step, chaos: bool): Flow
    requires CanStep(f, s, chaos)
  {
    match s
    case Signal => f.(done := f.done + 1)
    case Relay =>
      (match f.terminator
       case Waiting => f.(done := f.done - 1, terminator := StoppingReads)
       case StoppingReads => f.(doneReads := f.doneReads + 1, terminator := StoppingWrites)
       case StoppingWrites => f.(doneWrites := f.doneWrites + 1, terminator := TerminatorExited))
    case CheckReads =>
      if f.doneReads > 0 then f.(doneReads := f.doneReads - 1, reader := ReaderExited(true))
      else f.(reader := Reading)
    case Read(m) => f.(reader := Sending(m), read := f.read + [m])
    case ReadFails => f.(reader := ReaderExited(false))
    case Put => f.(reader := Checking, messages := f.messages + [f.reader.m])
    case Receive => f.(writer := Writing(f.messages[0]), messages := f.messages[1..])
    case StopWrites => f.(doneWrites := f.doneWrites - 1, writer := WriterExited)
    case Handle(fate) => f.(writer := Selecting, handled := f.handled + [Handled(f.writer.m, fate)])
  }

  /** Steps that report an error on the shared failure channel. */
  predicate Reports(s: Step) {
    s.ReadFails? || (s.Handle? && s.fate == Failed)
  }

  function InWriter(f: Flow): seq<Message> {
    if f.writer.Writing? then [f.writer.m] else []
  }

  function InReader(f: Flow): seq<Message> {
    if f.reader.Sending? then [f.reader.m] else []
  }

  function Messages(hs: seq<Handled>): seq<Message> {
    seq(|hs|, i requires 0 <= i < |hs| => hs[i].m)
  }

  /** The messages read are, in order: handled, in the writer's hand, in the channel, in the
      reader's hand. */
  ghost predicate Ordered(f: Flow, chaos: bool) {
    && f.read == Messages(f.handled) + InWriter(f) + f.messages + InReader(f)
    && |f.messages| <= MESSAGES
    && (!chaos ==> forall i :: 0 <= i < |f.handled| ==>
          f.handled[i].fate == Failed || f.handled[i].fate == Written(f.handled[i].m))
  }

  /** One token for the reader and one for the writer, each in the channel or consumed once the
      terminator has sent it; `signalled` is the number of signals from `run`. */
  ghost predicate Tokens(f: Flow, signalled: nat) {
    && f.done + (if f.terminator.Waiting? then 0 else 1) == signalled <= 1
    && f.doneReads + (if f.reader == ReaderExited(true) then 1 else 0)
       == (if f.terminator.StoppingWrites? || f.terminator.TerminatorExited? then 1 else 0)
    && f.doneWrites + (if f.writer.WriterExited? then 1 else 0)
       == (if f.terminator.TerminatorExited? then 1 else 0)
  }

  lemma {:induction false} StepKeepsOrder(f: Flow, s: Step, chaos: bool)
    requires Ordered(f, chaos) && CanStep(f, s, chaos)
    ensures Ordered(DoStep(f, s, chaos), chaos)
  {
    match s
    case Receive => ReceiveKeepsOrder(f, chaos);
    case Handle(fate) => HandleKeepsOrder(f, fate, chaos);
    case _ =>
  }

  lemma {:induction false} ReceiveKeepsOrder(f: Flow, chaos: bool)
    requires Ordered(f, chaos) && CanStep(f, Receive, chaos)
    ensures Ordered(DoStep(f, Receive, chaos), chaos)
  {
    assert f.messages == [f.messages[0]] + f.messages[1..];
  }

  lemma {:induction false} HandleKeepsOrder(f: Flow, fate: Fate, chaos: bool)
    requires Ordered(f, chaos) && CanStep(f, Handle(fate), chaos)
    ensures Ordered(DoStep(f, Handle(fate), chaos), chaos)
  {
    assert Messages(f.handled + [Handled(f.writer.m, fate)]) == Messages(f.handled) + [f.writer.m];
  }

  lemma {:induction false} StepKeepsTokens(f: Flow, s: Step, chaos: bool, signalled: nat)
    requires Tokens(f, signalled) && CanStep(f, s, chaos) && (s.Signal? ==> signalled == 0)
    ensures Tokens(DoStep(f, s, chaos), if s.Signal? then 1 else signalled)
  {
  }

  predicate CanRun(f: Flow, ss: seq<Step>, chaos: bool)
    decreases |ss|
  {
    |ss| > 0 ==> CanStep(f, ss[0], chaos) && CanRun(DoStep(f, ss[0], chaos), ss[1..], chaos)
  }

  function FlowAfter(f: Flow, ss: seq<Step>, chaos: bool): Flow
    requires CanRun(f, ss, chaos)
    decreases |ss|
  {
    if |ss| == 0 then f else FlowAfter(DoStep(f, ss[0], chaos), ss[1..], chaos)
  }

  /** What the order of a direction means, message by message. */
  ghost predicate InOrder(f: Flow, chaos: bool) {
    && |f.handled| <= |f.read| <= |f.handled| + (if f.writer.WriterExited? then 17 else 18)
    && (forall i :: 0 <= i < |f.handled| ==> f.handled[i].m == f.read[i])
    && f.read[|f.handled|..] == InWriter(f) + f.messages + InReader(f) && |f.messages| <= 16
    && (!chaos ==> forall i :: 0 <= i < |f.handled| ==>
          f.handled[i].fate == Failed || f.handled[i].fate == Written(f.read[i]))
  }

  lemma {:induction false} OrderedIsInOrder(f: Flow, chaos: bool)
    requires Ordered(f, chaos)
    ensures InOrder(f, chaos)
  {
    var n := |f.handled|;
    assert Messages(f.handled) == f.read[..n];
    forall i | 0 <= i < n ensures f.handled[i].m == f.read[i] {
      assert Messages(f.handled)[i] == f.read[..n][i];
    }
  }

  /** Ordering and conservation over every run of a direction: message number `i` handled is
      message number `i` read, so written messages keep their order and none is written twice;
      what is not handled yet is in the writer's hand, the channel or the reader's hand, at most
      18 messages, and at most 17 once the writer has stopped. */
  lemma {:induction false} OrderAndConservation(ss: seq<Step>, chaos: bool)
    requires CanRun(START, ss, chaos)
    ensures var f := FlowAfter(START, ss, chaos);
            InOrder(f, chaos) && f.read == Arrived(ss) && FatesOf(f.handled) == Fates(ss)
  {
    RunKeepsOrder(START, ss, chaos);
    RunRecordsMessages(START, ss, chaos);
    OrderedIsInOrder(FlowAfter(START, ss, chaos), chaos);
  }

  lemma {:induction false} RunKeepsOrder(f: Flow, ss: seq<Step>, chaos: bool)
    requires Ordered(f, chaos) && CanRun(f, ss, chaos)
    ensures Ordered(FlowAfter(f, ss, chaos), chaos)
    decreases |ss|
  {
    if |ss| > 0 {
      StepKeepsOrder(f, ss[0], chaos);
      RunKeepsOrder(DoStep(f, ss[0], chaos), ss[1..], chaos);
    }
  }

  // ---------- what a run says about a direction ----------

  /** The messages that arrive in a run, and the fates of those it handles, read off its steps. */
  function Arrived(ss: seq<Step>): seq<Message> {
    if |ss| == 0 then [] else (if ss[0].Read? then [ss[0].m] else []) + Arrived(ss[1..])
  }

  function Fates(ss: seq<Step>): seq<Fate> {
    if |ss| == 0 then [] else (if ss[0].Handle? then [ss[0].fate] else []) + Fates(ss[1..])
  }

  function FatesOf(hs: seq<Handled>): seq<Fate> {
    seq(|hs|, i requires 0 <= i < |hs| => hs[i].fate)
  }

  lemma {:induction false} StepRecordsMessage(f: Flow, s: Step, chaos: bool)
    requires CanStep(f, s, chaos)
    ensures var g := DoStep(f, s, chaos);
            && g.read == f.read + (if s.Read? then [s.m] else [])
            && FatesOf(g.handled) == FatesOf(f.handled) + (if s.Handle? then [s.fate] else [])
  {
  }

  lemma {:induction false} RunRecordsMessages(f: Flow, ss: seq<Step>, chaos: bool)
    requires CanRun(f, ss, chaos)
    ensures FlowAfter(f, ss, chaos).read == f.read + Arrived(ss)
    ensures FatesOf(FlowAfter(f, ss, chaos).handled) == FatesOf(f.handled) + Fates(ss)
    decreases |ss|
  {
    if |ss| > 0 {
      StepRecordsMessage(f, ss[0], chaos);
      RunRecordsMessages(DoStep(f, ss[0], chaos), ss[1..], chaos);
    }
  }

  /** The reader has exited, and not for a token. */
  ghost predicate ReaderGone(f: Flow) {
    f.reader == ReaderExited(false)
  }

  lemma {:induction false} StepKeepsReaderGone(f: Flow, s: Step, chaos: bool)
    requires ReaderGone(f) && CanStep(f, s, chaos)
    ensures ReaderGone(DoStep(f, s, chaos)) && !s.Read? && !s.ReadFails? && !s.Put?
  {
  }

  /** A failed read is the last: in no continuation does the reader read, fail or send again, and
      no message is added. */
  lemma {:induction false} FailedReadIsTheLast(f: Flow, ss: seq<Step>, chaos: bool)
    requires CanStep(f, ReadFails, chaos) && CanRun(DoStep(f, ReadFails, chaos), ss, chaos)
    ensures var g := FlowAfter(DoStep(f, ReadFails, chaos), ss, chaos);
            g.read == f.read && ReaderGone(g)
    ensures forall k :: 0 <= k < |ss| ==> !ss[k].Read? && !ss[k].ReadFails? && !ss[k].Put?
  {
    GoneReaderStaysGone(DoStep(f, ReadFails, chaos), ss, chaos);
  }

  lemma {:induction false} GoneReaderStaysGone(f: Flow, ss: seq<Step>, chaos: bool)
    requires ReaderGone(f) && CanRun(f, ss, chaos)
    ensures FlowAfter(f, ss, chaos).read == f.read && ReaderGone(FlowAfter(f, ss, chaos))
    ensures forall k :: 0 <= k < |ss| ==> !ss[k].Read? && !ss[k].ReadFails? && !ss[k].Put?
    decreases |ss|
  {
    if |ss| > 0 {
      StepKeepsReaderGone(f, ss[0], chaos);
      GoneReaderStaysGone(DoStep(f, ss[0], chaos), ss[1..], chaos);
      assert forall k :: 1 <= k < |ss| ==> ss[k] == ss[1..][k - 1];
    }
  }

  /** Steps a direction can still take once its reader's token has been sent. */
  function FlowWork(f: Flow): nat {
    (match f.reader
     case Checking => 1
     case Reading => 6
     case Sending(_) => 5
     case ReaderExited(_) => 0)
    + 3 * |f.messages|
    + (match f.writer
       case Selecting => 1
       case Writing(_) => 3
       case WriterExited => 0)
    + (if f.terminator.StoppingWrites? then 1 else 0)
  }

  /** After the terminator has sent the reader its token, the direction takes at most 58 more
      steps, whatever still arrives. */
  lemma {:induction false} StoppedFlowEnds(f: Flow, ss: seq<Step>, chaos: bool)
    requires Ordered(f, chaos) && Tokens(f, 1) && CanRun(f, ss, chaos)
    requires f.terminator.StoppingWrites? || f.terminator.TerminatorExited?
    requires forall i :: 0 <= i < |ss| ==> !ss[i].Signal?
    ensures |ss| <= FlowWork(f) <= 58
    decreases |ss|
  {
    if |ss| > 0 {
      var g := DoStep(f, ss[0], chaos);
      StepKeepsOrder(f, ss[0], chaos);
      StepKeepsTokens(f, ss[0], chaos, 1);
      assert FlowWork(g) < FlowWork(f);
      StoppedFlowEnds(g, ss[1..], chaos);
    }
  }

  /** The reader waits to send while nobody will ever receive. */
  ghost predicate ReaderStuck(f: Flow) {
    f.reader.Sending? && |f.messages| == MESSAGES && f.writer.WriterExited?
  }

  /** A stuck reader stays stuck: its direction has no step left. */
  lemma {:induction false} StuckForEver(f: Flow, chaos: bool, s: Step)
    requires Tokens(f, 1) && ReaderStuck(f)
    ensures !CanStep(f, s, chaos) || s.Signal?
  {
  }

  lemma {:induction false} FlowPrefix(f: Flow, s: Step, ss: seq<Step>, chaos: bool)
    requires CanStep(f, s, chaos) && CanRun(DoStep(f, s, chaos), ss, chaos)
    ensures CanRun(f, [s] + ss, chaos)
    ensures FlowAfter(f, [s] + ss, chaos) == FlowAfter(DoStep(f, s, chaos), ss, chaos)
  {
    assert ([s] + ss)[1..] == ss;
  }

  /** The reader has been sent its token. */
  ghost predicate ReaderTold(f: Flow) {
    Tokens(f, 1) && (f.terminator.StoppingWrites? || f.terminator.TerminatorExited?)
  }

  /** The channel is full, and the reader is past its poll with one more message to come. */
  ghost predicate Overfull(f: Flow) {
    |f.messages| == MESSAGES && (f.reader.Reading? || f.reader.Sending?)
  }

  ghost predicate NoSignals(ss: seq<Step>) {
    forall i :: 0 <= i < |ss| ==> !ss[i].Signal?
  }

  ghost predicate NoReports(ss: seq<Step>) {
    forall i :: 0 <= i < |ss| ==> !Reports(ss[i])
  }

  /** Without an overfull channel when the token is sent, there is none later. */
  lemma {:induction false} StepKeepsRoom(f: Flow, s: Step, chaos: bool)
    requires ReaderTold(f) && |f.messages| <= MESSAGES && !Overfull(f)
    requires CanStep(f, s, chaos) && !s.Signal?
    ensures var g := DoStep(f, s, chaos);
            ReaderTold(g) && |g.messages| <= MESSAGES && !Overfull(g) && !ReaderStuck(g)
  {
  }

  lemma {:induction false} RoomIsKept(f: Flow, ss: seq<Step>, chaos: bool)
    requires ReaderTold(f) && |f.messages| <= MESSAGES && !Overfull(f)
    requires CanRun(f, ss, chaos) && NoSignals(ss)
    ensures !ReaderStuck(FlowAfter(f, ss, chaos))
    decreases |ss|
  {
    if |ss| > 0 {
      StepKeepsRoom(f, ss[0], chaos);
      RoomIsKept(DoStep(f, ss[0], chaos), ss[1..], chaos);
    }
  }

  /** The next step on the way to a stuck reader. */
  function TowardsStuck(f: Flow, m: Message): Step {
    if f.reader.Reading? then Read(m)
    else if f.writer.Writing? then Handle(Written(f.writer.m))
    else if f.terminator.StoppingWrites? then Relay
    else StopWrites
  }

  /** From an overfull channel the reader can get stuck, without any error. */
  lemma {:induction false} OverfullGetsStuck(f: Flow, m: Message, chaos: bool) returns (ss: seq<Step>)
    requires ReaderTold(f) && Overfull(f)
    ensures CanRun(f, ss, chaos) && NoSignals(ss) && NoReports(ss)
    ensures ReaderStuck(FlowAfter(f, ss, chaos))
    decreases FlowWork(f)
  {
    if ReaderStuck(f) {
      ss := [];
    } else {
      var s := TowardsStuck(f, m);
      var rest := OverfullGetsStuck(DoStep(f, s, chaos), m, chaos);
      FlowPrefix(f, s, rest, chaos);
      ss := [s] + rest;
    }
  }

  ghost predicate StuckAfter(f: Flow, ss: seq<Step>, chaos: bool) {
    CanRun(f, ss, chaos) && NoSignals(ss) && ReaderStuck(FlowAfter(f, ss, chaos))
  }

  /** Exactly when a stop can leave a reader behind: at the moment its token is sent, the channel
      is full and the reader is reading or waiting to send. */
  lemma {:induction false} ReaderGetsStuckIffOverfull(f: Flow, chaos: bool)
    requires ReaderTold(f) && |f.messages| <= MESSAGES
    ensures (exists ss :: StuckAfter(f, ss, chaos)) <==> Overfull(f)
  {
    if Overfull(f) {
      var ss := OverfullGetsStuck(f, "", chaos);
      assert StuckAfter(f, ss, chaos);
    } else {
      forall ss | CanRun(f, ss, chaos) && NoSignals(ss) ensures !StuckAfter(f, ss, chaos) {
        RoomIsKept(f, ss, chaos);
      }
    }
  }

  // ---------- the whole pump ----------

  datatype Direction = Forward | Reverse

  datatype Run = Starting | Listening | StoppingForward | StoppingReverse | Exhausting | Returned

  /** `graceful` records that `run` took its done branch. `done` and `failure` count what is in
      these channels, of capacity one and two, and `errs` the failures that `run` has collected. */
  datatype Pump = Pump(
    run: Run, graceful: bool, active: bool, done: nat, failure: nat, errs: nat, forward: Flow, reverse: Flow)

  datatype Event =
    | Activate
    | StopCalled             // some `stop` that has seen the pump active
    | TakeDone
    | TakeFailure
    | SignalForward
    | SignalReverse
    | ExhaustOne
    | Return
    | Go(d: Direction, s: Step)

  const NEW := Pump(Starting, false, false, 0, 0, 0, START, START)

  function FlowOf(p: Pump, d: Direction): Flow {
    if d.Forward? then p.forward else p.reverse
  }

  predicate Enabled(p: Pump, e: Event, chaos: bool) {
    match e
    case Activate => p.run.Starting?
    case StopCalled => !p.run.Starting?
    case TakeDone => p.run.Listening? && p.done > 0
    case TakeFailure => p.run.Listening? && p.failure > 0
    case SignalForward => p.run.StoppingForward? && CanStep(p.forward, Signal, chaos)
    case SignalReverse => p.run.StoppingReverse? && CanStep(p.reverse, Signal, chaos)
    case ExhaustOne => p.run.Exhausting? && p.failure > 0
    case Return => p.run.Exhausting? && p.failure == 0
    case Go(d, s) => !s.Signal? && CanStep(FlowOf(p, d), s, chaos)
  }

  function Apply(p: Pump, e: Event, chaos: bool): Pump
    requires Enabled(p, e, chaos)
  {
    match e
    case Activate => p.(run := Listening, active := true)
    case StopCalled => p.(done := 1)
    case TakeDone => p.(run := StoppingForward, graceful := true, active := false, done := p.done - 1)
    case TakeFailure => p.(run := Exhausting, failure := p.failure - 1, errs := p.errs + 1)
    case SignalForward => p.(run := StoppingReverse, forward := DoStep(p.forward, Signal, chaos))
    case SignalReverse => p.(run := Exhausting, reverse := DoStep(p.reverse, Signal, chaos))
    case ExhaustOne => p.(failure := p.failure - 1, errs := p.errs + 1)
    case Return => p.(run := Returned)
    case Go(d, s) =>
      var p' := if d.Forward? then p.(forward := DoStep(p.forward, s, chaos))
                else p.(reverse := DoStep(p.reverse, s, chaos));
      if Reports(s) && p.failure < FAILURES then p'.(failure := p.failure + 1) else p'
  }

  predicate Valid(p: Pump, es: seq<Event>, chaos: bool)
    decreases |es|
  {
    |es| > 0 ==> Enabled(p, es[0], chaos) && Valid(Apply(p, es[0], chaos), es[1..], chaos)
  }

  function After(p: Pump, es: seq<Event>, chaos: bool): Pump
    requires Valid(p, es, chaos)
    decreases |es|
  {
    if |es| == 0 then p else After(Apply(p, es[0], chaos), es[1..], chaos)
  }

  /** How many signals `run` has sent to a direction. */
  function Signalled(p: Pump, d: Direction): nat {
    if p.graceful && (p.run.Exhausting? || p.run.Returned? || (d.Forward? && p.run.StoppingReverse?)) then 1 else 0
  }

  ghost predicate Sound(p: Pump, chaos: bool) {
    && Ordered(p.forward, chaos) && Ordered(p.reverse, chaos)
    && Tokens(p.forward, Signalled(p, Forward)) && Tokens(p.reverse, Signalled(p, Reverse))
    && p.done <= 1 && p.failure <= FAILURES
    && (p.run.Starting? || p.run.Listening? ==> !p.graceful)
    && (p.run.StoppingForward? || p.run.StoppingReverse? ==> p.graceful)
    && (p.active <==> p.run.Listening? || (!p.graceful && (p.run.Exhausting? || p.run.Returned?)))
  }

  lemma {:induction false} EventKeepsSound(p: Pump, e: Event, chaos: bool)
    requires Sound(p, chaos) && Enabled(p, e, chaos)
    ensures Sound(Apply(p, e, chaos), chaos)
  {
    match e
    case SignalForward =>
      StepKeepsOrder(p.forward, Signal, chaos);
      StepKeepsTokens(p.forward, Signal, chaos, 0);
    case SignalReverse =>
      StepKeepsOrder(p.reverse, Signal, chaos);
      StepKeepsTokens(p.reverse, Signal, chaos, 0);
    case Go(d, s) => GoKeepsSound(p, d, s, chaos);
    case _ =>
  }

  lemma {:induction false} GoKeepsSound(p: Pump, d: Direction, s: Step, chaos: bool)
    requires Sound(p, chaos) && Enabled(p, Go(d, s), chaos)
    ensures Sound(Apply(p, Go(d, s), chaos), chaos)
  {
    var p' := Apply(p, Go(d, s), chaos);
    var f, g := FlowOf(p, d), DoStep(FlowOf(p, d), s, chaos);
    StepKeepsOrder(f, s, chaos);
    StepKeepsTokens(f, s, chaos, Signalled(p, d));
    assert p'.run == p.run && p'.graceful == p.graceful && p'.active == p.active && p'.done == p.done;
    if d.Forward? {
      assert p'.forward == g && p'.reverse == p.reverse;
    } else {
      assert p'.reverse == g && p'.forward == p.forward;
    }
  }

  lemma {:induction false} RunsAreSound(p: Pump, es: seq<Event>, chaos: bool)
    requires Sound(p, chaos) && Valid(p, es, chaos)
    ensures Sound(After(p, es, chaos), chaos)
    decreases |es|
  {
    if |es| > 0 {
      EventKeepsSound(p, es[0], chaos);
      RunsAreSound(Apply(p, es[0], chaos), es[1..], chaos);
    }
  }

  /** A terminator about to send finds room, and no token is ever doubled. */
  lemma {:induction false} TokensHaveRoom(f: Flow, signalled: nat, chaos: bool)
    requires Tokens(f, signalled)
    ensures f.terminator.StoppingReads? || f.terminator.StoppingWrites? ==> CanStep(f, Relay, chaos)
    ensures signalled == 0 ==> CanStep(f, Signal, chaos)
    ensures f.doneReads + (if f.reader == ReaderExited(true) then 1 else 0) <= 1
    ensures f.doneWrites + (if f.writer.WriterExited? then 1 else 0) <= 1
  {
  }

  /** What `ShutdownNeverBlocks` says of one state. */
  ghost predicate Unblocked(p: Pump, chaos: bool, d: Direction) {
    var f := FlowOf(p, d);
    && (p.run.StoppingForward? ==> Enabled(p, SignalForward, chaos))
    && (p.run.StoppingReverse? ==> Enabled(p, SignalReverse, chaos))
    && (f.terminator.StoppingReads? || f.terminator.StoppingWrites? ==> Enabled(p, Go(d, Relay), chaos))
    && p.failure <= FAILURES && p.done <= 1
    && f.doneReads + (if f.reader == ReaderExited(true) then 1 else 0) <= 1
    && f.doneWrites + (if f.writer.WriterExited? then 1 else 0) <= 1
  }

  lemma {:induction false} SoundIsUnblocked(p: Pump, chaos: bool, d: Direction)
    requires Sound(p, chaos)
    ensures Unblocked(p, chaos, d)
  {
    TokensHaveRoom(p.forward, Signalled(p, Forward), chaos);
    TokensHaveRoom(p.reverse, Signalled(p, Reverse), chaos);
  }

  /** No goroutine blocks on a send of the shutdown: whenever `run` or a terminator is about to
      send a token there is room for it, in every reachable state. The failure channel is never
      overfull, and each reader and writer gets at most one token, over the whole run. */
  lemma {:induction false} ShutdownNeverBlocks(es: seq<Event>, chaos: bool, d: Direction)
    requires Valid(NEW, es, chaos)
    ensures Unblocked(After(NEW, es, chaos), chaos, d)
  {
    RunsAreSound(NEW, es, chaos);
    SoundIsUnblocked(After(NEW, es, chaos), chaos, d);
  }

  /** Everything but what a peer does and new calls of `stop`. */
  predicate Internal(e: Event) {
    !e.StopCalled? && !(e.Go? && (e.s.Read? || e.s.ReadFails?))
  }

  ghost predicate Quiet(p: Pump, chaos: bool) {
    forall e :: Internal(e) ==> !Enabled(p, e, chaos)
  }

  lemma {:induction false} QuietFlow(p: Pump, chaos: bool, d: Direction)
    requires Tokens(FlowOf(p, d), 1) && Quiet(p, chaos) && |FlowOf(p, d).messages| <= MESSAGES
    ensures var f := FlowOf(p, d);
            && f.terminator.TerminatorExited? && f.writer.WriterExited?
            && (f.reader.ReaderExited? || f.reader.Reading? || ReaderStuck(f))
  {
    var f := FlowOf(p, d);
    assert !Enabled(p, Go(d, Relay), chaos);
    assert !Enabled(p, Go(d, StopWrites), chaos);
    assert !Enabled(p, Go(d, Handle(Failed)), chaos);
    assert !Enabled(p, Go(d, CheckReads), chaos);
    assert !Enabled(p, Go(d, Put), chaos);
  }

  lemma {:induction false} QuietRun(p: Pump, chaos: bool)
    requires Sound(p, chaos) && p.graceful && Quiet(p, chaos)
    ensures p.run.Returned? && !p.active
  {
    assert !Enabled(p, SignalForward, chaos) && !Enabled(p, SignalReverse, chaos);
    assert !Enabled(p, ExhaustOne, chaos) && !Enabled(p, Return, chaos);
  }

  /** After a graceful stop, when nothing can move on its own any more: `run` has returned and
      the pump is inactive, terminators and writers have exited, and each reader has exited,
      waits for its peer, or is stuck behind a full channel. Each reader and each writer was sent
      exactly one token. */
  lemma {:induction false} QuietAfterStop(es: seq<Event>, chaos: bool, d: Direction)
    requires Valid(NEW, es, chaos)
    requires After(NEW, es, chaos).graceful && Quiet(After(NEW, es, chaos), chaos)
    ensures var p := After(NEW, es, chaos);
            var f := FlowOf(p, d);
            && p.run.Returned? && !p.active
            && f.terminator.TerminatorExited? && f.writer.WriterExited?
            && (f.reader.ReaderExited? || f.reader.Reading? || ReaderStuck(f))
            && f.doneReads + (if f.reader == ReaderExited(true) then 1 else 0) == 1
            && f.doneWrites + (if f.writer.WriterExited? then 1 else 0) == 1
  {
    RunsAreSound(NEW, es, chaos);
    QuietRun(After(NEW, es, chaos), chaos);
    QuietFlow(After(NEW, es, chaos), chaos, d);
  }

  // ---------- runs of the whole pump, put together ----------

  lemma {:induction false} Snoc(p: Pump, es: seq<Event>, e: Event, chaos: bool)
    requires Valid(p, es, chaos) && Enabled(After(p, es, chaos), e, chaos)
    ensures Valid(p, es + [e], chaos)
    ensures After(p, es + [e], chaos) == Apply(After(p, es, chaos), e, chaos)
    decreases |es|
  {
    if |es| == 0 {
      assert es + [e] == [e];
      assert [e][1..] == [];
    } else {
      Snoc(Apply(p, es[0], chaos), es[1..], e, chaos);
      assert (es + [e])[1..] == es[1..] + [e];
    }
  }

  predicate ReportsIn(e: Event) {
    e.Go? && Reports(e.s)
  }

  ghost predicate Stops(es: seq<Event>) {
    exists i :: 0 <= i < |es| && es[i].StopCalled?
  }

  ghost predicate Fails(es: seq<Event>) {
    exists i :: 0 <= i < |es| && ReportsIn(es[i])
  }

  /** A run that takes the pump from its start to `p`, with a stop and with a failure or not. */
  ghost predicate Leads(es: seq<Event>, p: Pump, stops: bool, fails: bool, chaos: bool) {
    Valid(NEW, es, chaos) && After(NEW, es, chaos) == p && Stops(es) == stops && Fails(es) == fails
  }

  lemma {:induction false} StopsSnoc(es: seq<Event>, e: Event)
    ensures Stops(es + [e]) <==> Stops(es) || e.StopCalled?
    ensures Fails(es + [e]) <==> Fails(es) || ReportsIn(e)
  {
    var fs := es + [e];
    assert fs[|es|] == e && forall i :: 0 <= i < |es| ==> fs[i] == es[i];
    if Stops(es) {
      var i :| 0 <= i < |es| && es[i].StopCalled?;
      assert fs[i].StopCalled?;
    }
    if Fails(es) {
      var i :| 0 <= i < |es| && ReportsIn(es[i]);
      assert ReportsIn(fs[i]);
    }
  }

  /** One more event at the end of a run. */
  lemma {:induction false} Then(es: seq<Event>, p: Pump, stops: bool, fails: bool, e: Event, chaos: bool)
    requires Leads(es, p, stops, fails, chaos) && Enabled(p, e, chaos)
    ensures Leads(es + [e], Apply(p, e, chaos), stops || e.StopCalled?, fails || ReportsIn(e), chaos)
  {
    Snoc(NEW, es, e, chaos);
    StopsSnoc(es, e);
  }

  function WithFlow(p: Pump, d: Direction, f: Flow): Pump {
    if d.Forward? then p.(forward := f) else p.(reverse := f)
  }

  /** A run of one direction, within the pump. */
  lemma {:induction false} ThenFlow(es: seq<Event>, p: Pump, stops: bool, d: Direction, ss: seq<Step>, chaos: bool)
    returns (fs: seq<Event>)
    requires Leads(es, p, stops, false, chaos)
    requires CanRun(FlowOf(p, d), ss, chaos) && NoSignals(ss) && NoReports(ss)
    ensures Leads(fs, WithFlow(p, d, FlowAfter(FlowOf(p, d), ss, chaos)), stops, false, chaos)
    decreases |ss|
  {
    if |ss| == 0 {
      fs := es;
    } else {
      var e := Go(d, ss[0]);
      var p' := Apply(p, e, chaos);
      assert p' == WithFlow(p, d, DoStep(FlowOf(p, d), ss[0], chaos));
      Then(es, p, stops, false, e, chaos);
      fs := ThenFlow(es + [e], p', stops, d, ss[1..], chaos);
    }
  }

  // ---------- a reader left behind ----------

  /** An undisturbed direction fills its channel while the writer has not moved. */
  lemma {:induction false} FillsUp(f: Flow, m: Message, chaos: bool) returns (ss: seq<Step>, g: Flow)
    requires f.doneReads == 0 && f.reader.Checking? && |f.messages| <= MESSAGES
    ensures CanRun(f, ss, chaos) && NoSignals(ss) && NoReports(ss) && FlowAfter(f, ss, chaos) == g
    ensures g == f.(reader := Sending(m), messages := g.messages, read := g.read) && |g.messages| == 16
    decreases MESSAGES - |f.messages|
  {
    var f1 := DoStep(f, CheckReads, chaos);
    var f2 := DoStep(f1, Read(m), chaos);
    if |f.messages| < MESSAGES {
      ss, g := FillsUp(DoStep(f2, Put, chaos), m, chaos);
      FlowPrefix(f2, Put, ss, chaos);
      ss := [Put] + ss;
    } else {
      ss, g := [], f2;
    }
    FlowPrefix(f1, Read(m), ss, chaos);
    ss := [Read(m)] + ss;
    FlowPrefix(f, CheckReads, ss, chaos);
    ss := [CheckReads] + ss;
  }

  /** A signalled direction passes on its tokens. */
  lemma {:induction false} Relays(f: Flow, chaos: bool)
    requires f.done == 1 && f.doneReads == f.doneWrites == 0 && f.terminator.Waiting?
    ensures CanRun(f, [Relay, Relay, Relay], chaos)
    ensures FlowAfter(f, [Relay, Relay, Relay], chaos)
         == f.(done := 0, doneReads := 1, doneWrites := 1, terminator := TerminatorExited)
  {
    var f1 := DoStep(f, Relay, chaos);
    var f2 := DoStep(f1, Relay, chaos);
    var f3 := DoStep(f2, Relay, chaos);
    assert CanRun(f3, [], chaos) && FlowAfter(f3, [], chaos) == f3;
    FlowPrefix(f2, Relay, [], chaos);
    FlowPrefix(f1, Relay, [Relay], chaos);
    FlowPrefix(f, Relay, [Relay, Relay], chaos);
    assert [Relay] + [] == [Relay] && [Relay] + [Relay] == [Relay, Relay];
    assert [Relay] + [Relay, Relay] == [Relay, Relay, Relay];
  }

  /** The pump when it is full in direction `d`, and `run` has just been stopped. */
  function JustStopped(d: Direction, f: Flow): Pump {
    var p := Pump(Exhausting, true, false, 0, 0, 0, START.(done := 1), START.(done := 1));
    WithFlow(p, d, f.(done := 1))
  }

  lemma {:induction false} StopsWhileFull(d: Direction, m: Message, chaos: bool) returns (es: seq<Event>, f: Flow)
    ensures f == START.(reader := Sending(m), messages := f.messages, read := f.read) && |f.messages| == MESSAGES
    ensures Leads(es, JustStopped(d, f), true, false, chaos)
  {
    assert Leads([], NEW, false, false, chaos);
    Then([], NEW, false, false, Activate, chaos);
    var p := Apply(NEW, Activate, chaos);
    var ss;
    ss, f := FillsUp(START, m, chaos);
    es := ThenFlow([] + [Activate], p, false, d, ss, chaos);
    p := WithFlow(p, d, f);
    es, p := ThenStop(es, p, false, chaos);
  }

  /** A stop that `run` sees, up to the signals for both directions. */
  lemma {:induction false} ThenStop(es: seq<Event>, p: Pump, fails: bool, chaos: bool) returns (fs: seq<Event>, q: Pump)
    requires Leads(es, p, false, fails, chaos) && p.run.Listening? && p.forward.done == p.reverse.done == 0
    ensures Leads(fs, q, true, fails, chaos)
    ensures q == p.(run := Exhausting, graceful := true, active := false, done := 0,
                    forward := p.forward.(done := 1), reverse := p.reverse.(done := 1))
  {
    fs, q := es, p;
    Then(fs, q, false, fails, StopCalled, chaos);
    fs, q := fs + [StopCalled], Apply(q, StopCalled, chaos);
    Then(fs, q, true, fails, TakeDone, chaos);
    fs, q := fs + [TakeDone], Apply(q, TakeDone, chaos);
    Then(fs, q, true, fails, SignalForward, chaos);
    fs, q := fs + [SignalForward], Apply(q, SignalForward, chaos);
    Then(fs, q, true, fails, SignalReverse, chaos);
    fs, q := fs + [SignalReverse], Apply(q, SignalReverse, chaos);
  }

  function Other(d: Direction): Direction {
    if d.Forward? then Reverse else Forward
  }

  /** It happens in the whole pump, in either direction and without any failure: after a graceful
      stop everything has ended, except that one reader is stuck. */
  lemma {:induction false} GracefulStopCanStrandAReader(d: Direction, m: Message, chaos: bool) returns (es: seq<Event>)
    ensures Valid(NEW, es, chaos) && !Fails(es)
    ensures var p := After(NEW, es, chaos);
            p.graceful && Quiet(p, chaos) && ReaderStuck(FlowOf(p, d))
  {
    var f;
    es, f := StopsWhileFull(d, m, chaos);
    var p := JustStopped(d, f);
    Relays(FlowOf(p, d), chaos);
    es := ThenFlow(es, p, true, d, [Relay, Relay, Relay], chaos);
    p := WithFlow(p, d, f.(doneReads := 1, doneWrites := 1, terminator := TerminatorExited));
    Relays(FlowOf(p, Other(d)), chaos);
    es := ThenFlow(es, p, true, Other(d), [Relay, Relay, Relay], chaos);
    p := WithFlow(p, Other(d), START.(doneReads := 1, doneWrites := 1, terminator := TerminatorExited));
    es, p := LastSteps(es, p, d, chaos);
    StrandedIsQuiet(p, d, chaos);
  }

  /** The writer of a told direction may end at once, and its reader too at its next poll. */
  lemma {:induction false} LastSteps(es: seq<Event>, p: Pump, d: Direction, chaos: bool)
    returns (fs: seq<Event>, q: Pump)
    requires Leads(es, p, true, false, chaos) && p.run.Exhausting? && p.failure == 0 && p.graceful
    requires FlowOf(p, d).writer.Selecting? && FlowOf(p, d).doneWrites == 1
    requires FlowOf(p, Other(d)) == START.(doneReads := 1, doneWrites := 1, terminator := TerminatorExited)
    ensures Leads(fs, q, true, false, chaos) && q.run.Returned? && q.graceful
    ensures FlowOf(q, d) == FlowOf(p, d).(doneWrites := 0, writer := WriterExited)
    ensures FlowOf(q, Other(d)) == ENDED
  {
    fs, q := es, p;
    Then(fs, q, true, false, Go(d, StopWrites), chaos);
    fs, q := fs + [Go(d, StopWrites)], Apply(q, Go(d, StopWrites), chaos);
    Then(fs, q, true, false, Return, chaos);
    fs, q := fs + [Return], Apply(q, Return, chaos);
    fs, q := EndsIdle(fs, q, Other(d), chaos);
  }

  lemma {:induction false} EndsIdle(es: seq<Event>, p: Pump, d: Direction, chaos: bool)
    returns (fs: seq<Event>, q: Pump)
    requires Leads(es, p, true, false, chaos)
    requires FlowOf(p, d) == START.(doneReads := 1, doneWrites := 1, terminator := TerminatorExited)
    ensures Leads(fs, q, true, false, chaos)
    ensures q == WithFlow(p, d, ENDED)
  {
    fs, q := es, p;
    Then(fs, q, true, false, Go(d, StopWrites), chaos);
    fs, q := fs + [Go(d, StopWrites)], Apply(q, Go(d, StopWrites), chaos);
    Then(fs, q, true, false, Go(d, CheckReads), chaos);
    fs, q := fs + [Go(d, CheckReads)], Apply(q, Go(d, CheckReads), chaos);
  }

  lemma {:induction false} StrandedIsQuiet(p: Pump, d: Direction, chaos: bool)
    requires p.run.Returned? && ReaderStuck(FlowOf(p, d)) && FlowOf(p, d).terminator.TerminatorExited?
    requires FlowOf(p, Other(d)) == ENDED
    ensures Quiet(p, chaos)
  {
  }

  /** The exact condition holds in the whole pump: once the reader of a direction has been sent
      its token, some run leaves it stuck if and only if the channel is overfull then. */
  lemma {:induction false} PumpStrandsAReaderIffOverfull(es: seq<Event>, d: Direction, chaos: bool)
    requires Valid(NEW, es, chaos) && ReaderTold(FlowOf(After(NEW, es, chaos), d))
    ensures var p := After(NEW, es, chaos);
            (exists fs :: Valid(p, fs, chaos) && ReaderStuck(FlowOf(After(p, fs, chaos), d)))
              <==> Overfull(FlowOf(p, d))
  {
    var p := After(NEW, es, chaos);
    RunsAreSound(NEW, es, chaos);
    if Overfull(FlowOf(p, d)) {
      var ss := OverfullGetsStuck(FlowOf(p, d), "", chaos);
      GoesAlong(p, d, ss, chaos);
    } else {
      forall fs | Valid(p, fs, chaos) ensures !ReaderStuck(FlowOf(After(p, fs, chaos), d)) {
        PumpKeepsRoom(p, fs, d, chaos);
      }
    }
  }

  function Along(d: Direction, ss: seq<Step>): seq<Event> {
    if |ss| == 0 then [] else [Go(d, ss[0])] + Along(d, ss[1..])
  }

  lemma {:induction false} GoesAlong(p: Pump, d: Direction, ss: seq<Step>, chaos: bool)
    requires CanRun(FlowOf(p, d), ss, chaos) && NoSignals(ss)
    ensures Valid(p, Along(d, ss), chaos)
    ensures FlowOf(After(p, Along(d, ss), chaos), d) == FlowAfter(FlowOf(p, d), ss, chaos)
    decreases |ss|
  {
    if |ss| > 0 {
      GoesAlong(Apply(p, Go(d, ss[0]), chaos), d, ss[1..], chaos);
      assert Along(d, ss)[1..] == Along(d, ss[1..]);
    }
  }

  lemma {:induction false} PumpKeepsRoom(p: Pump, es: seq<Event>, d: Direction, chaos: bool)
    requires Sound(p, chaos) && Valid(p, es, chaos)
    requires ReaderTold(FlowOf(p, d)) && !Overfull(FlowOf(p, d))
    ensures !ReaderStuck(FlowOf(After(p, es, chaos), d))
    decreases |es|
  {
    if |es| > 0 {
      var p' := Apply(p, es[0], chaos);
      EventKeepsSound(p, es[0], chaos);
      EventKeepsRoom(p, es[0], d, chaos);
      PumpKeepsRoom(p', es[1..], d, chaos);
    }
  }

  lemma {:induction false} EventKeepsRoom(p: Pump, e: Event, d: Direction, chaos: bool)
    requires Sound(p, chaos) && Enabled(p, e, chaos)
    requires ReaderTold(FlowOf(p, d)) && !Overfull(FlowOf(p, d))
    ensures var f := FlowOf(Apply(p, e, chaos), d);
            ReaderTold(f) && !Overfull(f)
  {
    if e.Go? && e.d == d {
      StepKeepsRoom(FlowOf(p, d), e.s, chaos);
    } else {
      assert FlowOf(Apply(p, e, chaos), d) == FlowOf(p, d);
    }
  }

  // ---------- failures ----------

  /** A failed read or write is reported, unless two reports wait already. */
  lemma {:induction false} FailureIsReported(p: Pump, e: Event, chaos: bool)
    requires Enabled(p, e, chaos) && e.Go?
    ensures Apply(p, e, chaos).failure
         == if (e.s.ReadFails? || (e.s.Handle? && e.s.fate.Failed?)) && p.failure < 2 then p.failure + 1 else p.failure
  {
  }

  /** The reports of a run that find room, read off its events. */
  function Kept(p: Pump, es: seq<Event>, chaos: bool): nat
    requires Valid(p, es, chaos)
    decreases |es|
  {
    if |es| == 0 then 0
    else (if ReportsIn(es[0]) && p.failure < 2 then 1 else 0) + Kept(Apply(p, es[0], chaos), es[1..], chaos)
  }

  lemma {:induction false} ReportsAreConserved(p: Pump, es: seq<Event>, chaos: bool)
    requires Valid(p, es, chaos)
    ensures var q := After(p, es, chaos);
            q.errs + q.failure == p.errs + p.failure + Kept(p, es, chaos)
    decreases |es|
  {
    if |es| > 0 {
      ReportsAreConserved(Apply(p, es[0], chaos), es[1..], chaos);
    }
  }

  /** `run` returns only when it has collected every report that found room, and all of them. */
  lemma {:induction false} RunReturnsEveryReport(es: seq<Event>, chaos: bool)
    requires Valid(NEW, es, chaos) && After(NEW, es, chaos).run.Exhausting?
    ensures Enabled(After(NEW, es, chaos), Return, chaos) <==> After(NEW, es, chaos).errs == Kept(NEW, es, chaos)
  {
    ReportsAreConserved(NEW, es, chaos);
  }

  lemma {:induction false} EventKeepsReaderGone(p: Pump, e: Event, d: Direction, chaos: bool)
    requires ReaderGone(FlowOf(p, d)) && Enabled(p, e, chaos)
    ensures var f := FlowOf(Apply(p, e, chaos), d);
            ReaderGone(f) && f.read == FlowOf(p, d).read
  {
    if e.Go? && e.d == d {
      StepKeepsReaderGone(FlowOf(p, d), e.s, chaos);
      StepRecordsMessage(FlowOf(p, d), e.s, chaos);
    }
  }

  lemma {:induction false} PumpReaderStaysGone(p: Pump, es: seq<Event>, d: Direction, chaos: bool)
    requires ReaderGone(FlowOf(p, d)) && Valid(p, es, chaos)
    ensures FlowOf(After(p, es, chaos), d).read == FlowOf(p, d).read && ReaderGone(FlowOf(After(p, es, chaos), d))
    decreases |es|
  {
    if |es| > 0 {
      EventKeepsReaderGone(p, es[0], d, chaos);
      PumpReaderStaysGone(Apply(p, es[0], chaos), es[1..], d, chaos);
    }
  }

  /** In the whole pump too, nothing is read in a direction after a failed read, whatever follows. */
  lemma {:induction false} PumpReadsNoMoreAfterAFailure(p: Pump, d: Direction, es: seq<Event>, chaos: bool)
    requires Enabled(p, Go(d, ReadFails), chaos) && Valid(Apply(p, Go(d, ReadFails), chaos), es, chaos)
    ensures var q := After(Apply(p, Go(d, ReadFails), chaos), es, chaos);
            FlowOf(q, d).read == FlowOf(p, d).read && ReaderGone(FlowOf(q, d))
  {
    PumpReaderStaysGone(Apply(p, Go(d, ReadFails), chaos), es, d, chaos);
  }

  // ---------- how a pump ends ----------

  /** Without failures only a stop makes `run` leave its loop, and without stops only a failure. */
  ghost predicate EndsByKind(p: Pump, stops: bool, fails: bool) {
    && (!fails ==> p.failure == 0 && (p.run.Exhausting? || p.run.Returned? ==> p.graceful))
    && (!stops ==> p.done == 0 && !p.graceful)
  }

  lemma {:induction false} LastOfKind(es: seq<Event>)
    requires |es| > 0
    ensures Stops(es) <==> Stops(es[..|es| - 1]) || es[|es| - 1].StopCalled?
    ensures Fails(es) <==> Fails(es[..|es| - 1]) || ReportsIn(es[|es| - 1])
  {
    StopsSnoc(es[..|es| - 1], es[|es| - 1]);
    assert es == es[..|es| - 1] + [es[|es| - 1]];
  }

  lemma {:induction false} RunsEndByKind(es: seq<Event>, chaos: bool)
    requires Valid(NEW, es, chaos)
    ensures Sound(After(NEW, es, chaos), chaos) && EndsByKind(After(NEW, es, chaos), Stops(es), Fails(es))
    decreases |es|
  {
    if |es| > 0 {
      var init, e := es[..|es| - 1], es[|es| - 1];
      Split(NEW, es, chaos);
      RunsEndByKind(init, chaos);
      var p := After(NEW, init, chaos);
      EventKeepsSound(p, e, chaos);
      EventEndsByKind(p, e, Stops(init), Fails(init), chaos);
      LastOfKind(es);
    }
  }

  lemma {:induction false} EventEndsByKind(p: Pump, e: Event, stops: bool, fails: bool, chaos: bool)
    requires Sound(p, chaos) && EndsByKind(p, stops, fails) && Enabled(p, e, chaos)
    ensures EndsByKind(Apply(p, e, chaos), stops || e.StopCalled?, fails || ReportsIn(e))
  {
  }

  lemma {:induction false} Split(p: Pump, es: seq<Event>, chaos: bool)
    requires |es| > 0 && Valid(p, es, chaos)
    ensures var n := |es| - 1;
            && Valid(p, es[..n], chaos) && Enabled(After(p, es[..n], chaos), es[n], chaos)
            && After(p, es, chaos) == Apply(After(p, es[..n], chaos), es[n], chaos)
    decreases |es|
  {
    if |es| > 1 {
      Split(Apply(p, es[0], chaos), es[1..], chaos);
      assert es[1..][..|es| - 2] == es[..|es| - 1][1..];
    } else {
      assert es[..0] == [] && es[1..] == [];
    }
  }

  /** A run that returns, with or without a stop, and with or without a failure. */
  ghost predicate Returns(es: seq<Event>, stops: bool, fails: bool, chaos: bool) {
    Valid(NEW, es, chaos) && After(NEW, es, chaos).run.Returned? && Stops(es) == stops && Fails(es) == fails
  }

  /** A returned pump is sure to be inactive exactly if nothing failed, and sure to be still
      marked active exactly if nobody called `stop`; then no goroutine is ever told to stop. With
      both a stop and a failure, it depends on which of them `run` happens to see. */
  lemma {:induction false} WhatAReturnedPumpIs(stops: bool, fails: bool, chaos: bool)
    ensures (forall es :: Returns(es, stops, fails, chaos) ==> !After(NEW, es, chaos).active) <==> !fails
    ensures (forall es :: Returns(es, stops, fails, chaos) ==> After(NEW, es, chaos).active) <==> !stops
    ensures forall es, d :: Returns(es, false, fails, chaos) ==>
              var f := FlowOf(After(NEW, es, chaos), d);
              f.terminator.Waiting? && !f.writer.WriterExited?
  {
    forall es, s | Returns(es, s, fails, chaos)
      ensures !fails ==> !After(NEW, es, chaos).active
      ensures !s ==> After(NEW, es, chaos).active
      ensures !s ==> Untold(After(NEW, es, chaos))
    {
      RunsEndByKind(es, chaos);
    }
    forall es, d | Returns(es, false, fails, chaos)
      ensures FlowOf(After(NEW, es, chaos), d).terminator.Waiting?
      ensures !FlowOf(After(NEW, es, chaos), d).writer.WriterExited?
    {
      assert Untold(After(NEW, es, chaos));
    }
    if fails {
      var es := FailedRun(stops, chaos);
      assert Returns(es, stops, fails, chaos) && After(NEW, es, chaos).active;
    }
    if stops {
      var es := StoppedRun(fails, chaos);
      assert Returns(es, stops, fails, chaos) && !After(NEW, es, chaos).active;
    }
  }

  /** No terminator was signalled, and no writer has ended. */
  ghost predicate Untold(p: Pump) {
    && p.forward.terminator.Waiting? && p.reverse.terminator.Waiting?
    && !p.forward.writer.WriterExited? && !p.reverse.writer.WriterExited?
  }

  /** A listening pump, with a failed read or not. */
  lemma {:induction false} Begins(fails: bool, chaos: bool) returns (es: seq<Event>, p: Pump)
    ensures Leads(es, p, false, fails, chaos)
    ensures p.run.Listening? && p.active && p.failure == (if fails then 1 else 0)
    ensures p.forward.done == p.reverse.done == 0
  {
    es, p := [], NEW;
    Then(es, p, false, false, Activate, chaos);
    es, p := es + [Activate], Apply(p, Activate, chaos);
    if fails {
      Then(es, p, false, false, Go(Forward, CheckReads), chaos);
      es, p := es + [Go(Forward, CheckReads)], Apply(p, Go(Forward, CheckReads), chaos);
      Then(es, p, false, false, Go(Forward, ReadFails), chaos);
      es, p := es + [Go(Forward, ReadFails)], Apply(p, Go(Forward, ReadFails), chaos);
    }
  }

  lemma {:induction false} FailedRun(stops: bool, chaos: bool) returns (es: seq<Event>)
    ensures Returns(es, stops, true, chaos) && After(NEW, es, chaos).active
  {
    var p;
    es, p := Begins(true, chaos);
    if stops {
      Then(es, p, false, true, StopCalled, chaos);
      es, p := es + [StopCalled], Apply(p, StopCalled, chaos);
    }
    Then(es, p, stops, true, TakeFailure, chaos);
    es, p := es + [TakeFailure], Apply(p, TakeFailure, chaos);
    Then(es, p, stops, true, Return, chaos);
    es := es + [Return];
  }

  lemma {:induction false} StoppedRun(fails: bool, chaos: bool) returns (es: seq<Event>)
    ensures Returns(es, true, fails, chaos) && !After(NEW, es, chaos).active
  {
    var p;
    es, p := Begins(fails, chaos);
    es, p := ThenStop(es, p, fails, chaos);
    if fails {
      Then(es, p, true, fails, ExhaustOne, chaos);
      es, p := es + [ExhaustOne], Apply(p, ExhaustOne, chaos);
    }
    Then(es, p, true, fails, Return, chaos);
    es := es + [Return];
  }

  // ---------- how long it takes ----------

  /** Steps left at most in the whole pump, apart from calls of `stop`. */
  function PumpWork(p: Pump): nat {
    2 * FlowWork(p.forward) + 2 * FlowWork(p.reverse) + p.failure + (if p.run.Returned? then 0 else 1)
  }

  ghost predicate BothTold(p: Pump) {
    ReaderTold(p.forward) && ReaderTold(p.reverse)
  }

  function StepsOf(es: seq<Event>): nat {
    if |es| == 0 then 0 else (if es[0].StopCalled? then 0 else 1) + StepsOf(es[1..])
  }

  lemma {:induction false} EventLowersWork(p: Pump, e: Event, chaos: bool)
    requires Sound(p, chaos) && BothTold(p) && Enabled(p, e, chaos)
    ensures BothTold(Apply(p, e, chaos))
    ensures PumpWork(Apply(p, e, chaos)) + (if e.StopCalled? then 0 else 1) <= PumpWork(p)
  {
    if e.Go? {
      TellsAndLowers(FlowOf(p, e.d), e.s, chaos);
    }
  }

  lemma {:induction false} TellsAndLowers(f: Flow, s: Step, chaos: bool)
    requires ReaderTold(f) && CanStep(f, s, chaos) && !s.Signal?
    ensures ReaderTold(DoStep(f, s, chaos)) && FlowWork(DoStep(f, s, chaos)) < FlowWork(f)
  {
  }

  /** Once both readers have been sent their tokens, the whole pump takes at most 235 more steps,
      whatever arrives and fails and however often `stop` is called. */
  lemma {:induction false} StoppedPumpEnds(p: Pump, es: seq<Event>, chaos: bool)
    requires Sound(p, chaos) && BothTold(p) && Valid(p, es, chaos)
    ensures StepsOf(es) <= PumpWork(p) <= 235
    decreases |es|
  {
    if |es| > 0 {
      EventKeepsSound(p, es[0], chaos);
      EventLowersWork(p, es[0], chaos);
      StoppedPumpEnds(Apply(p, es[0], chaos), es[1..], chaos);
    }
  }

  // ---------- stop ----------

  datatype Complaint = DoubleClosing | TimedOut | BackendNotClosed | FrontendNotClosed

  /** `stop` gives up at once unless it finds the pump active. Otherwise it leaves a token, or
      complains that there is one already (`full`), and waits until the flag, read as
      `activeAt(r)` before round `r`, is down, for at most 60 rounds. */
  ghost predicate Waits(active: bool, full: bool, activeAt: nat -> bool, signalled: bool, rounds: nat, timedOut: bool) {
    && (signalled <==> active && !full)
    && (!active ==> rounds == 0)
    && rounds <= ROUNDS
    && (forall r: nat :: r < rounds ==> activeAt(r))
    && (active && rounds < ROUNDS ==> !activeAt(rounds))
    && (timedOut <==> active && forall r: nat :: r < ROUNDS ==> activeAt(r))
  }

  function When(b: bool, c: Complaint): seq<Complaint> {
    if b then [c] else []
  }

  /** `backendCloses` and `frontendCloses` tell whether closing these connections succeeds. */
  method Stop(active: bool, full: bool, activeAt: nat -> bool, backendCloses: bool, frontendCloses: bool)
    returns (signalled: bool, rounds: nat, closed: bool, errs: seq<Complaint>)
    ensures Waits(active, full, activeAt, signalled, rounds, TimedOut in errs)
    ensures closed == active
    ensures errs == if !active then [] else
              When(full, DoubleClosing) + When(TimedOut in errs, TimedOut)
              + When(!backendCloses, BackendNotClosed) + When(!frontendCloses, FrontendNotClosed)
  {
    signalled, rounds, closed, errs := false, 0, false, [];
    if !active {
      return;
    }
    if full {
      errs := errs + [DoubleClosing];
    } else {
      signalled := true;
    }
    var countdown := ROUNDS;
    while activeAt(rounds) && countdown > 0
      invariant rounds + countdown == ROUNDS
      invariant forall r: nat :: r < rounds ==> activeAt(r)
      decreases countdown
    {
      rounds := rounds + 1;
      countdown := countdown - 1;
    }
    if countdown == 0 {
      errs := errs + [TimedOut];
    }
    closed := true;
    if !backendCloses {
      errs := errs + [BackendNotClosed];
    }
    if !frontendCloses {
      errs := errs + [FrontendNotClosed];
    }
  }

  /** The flag is read in the states that a pump goes through. */
  ghost predicate ReadsFlag(p: Pump, upTo: nat -> seq<Event>, activeAt: nat -> bool, chaos: bool) {
    forall r: nat :: r <= ROUNDS ==>
      Valid(p, upTo(r), chaos) && activeAt(r) == After(p, upTo(r), chaos).active
  }

  ghost predicate LeftLoop(p: Pump) {
    !p.run.Starting? && !p.run.Listening?
  }

  lemma {:induction false} FlagIsSettled(p: Pump, es: seq<Event>, chaos: bool)
    requires LeftLoop(p) && Valid(p, es, chaos)
    ensures After(p, es, chaos).active == p.active
    decreases |es|
  {
    if |es| > 0 {
      FlagIsSettled(Apply(p, es[0], chaos), es[1..], chaos);
    }
  }

  /** `run` takes a stop token. */
  ghost predicate TakesDone(es: seq<Event>) {
    exists i :: 0 <= i < |es| && es[i].TakeDone?
  }

  /** The flag of an active pump is up until `run` takes a stop token, and never again after. */
  lemma {:induction false} ActiveUntilDone(p: Pump, es: seq<Event>, chaos: bool)
    requires Sound(p, chaos) && p.active && Valid(p, es, chaos)
    ensures After(p, es, chaos).active <==> !TakesDone(es)
    decreases |es|
  {
    if |es| > 0 {
      var p' := Apply(p, es[0], chaos);
      if es[0].TakeDone? {
        FlagIsSettled(p', es[1..], chaos);
      } else {
        EventKeepsSound(p, es[0], chaos);
        ActiveUntilDone(p', es[1..], chaos);
        TakesDoneLater(es);
      }
    }
  }

  lemma {:induction false} TakesDoneLater(es: seq<Event>)
    requires |es| > 0 && !es[0].TakeDone?
    ensures TakesDone(es) <==> TakesDone(es[1..])
  {
    if TakesDone(es) {
      var i :| 0 <= i < |es| && es[i].TakeDone?;
      assert es[1..][i - 1].TakeDone?;
    }
    if TakesDone(es[1..]) {
      var i :| 0 <= i < |es| - 1 && es[1..][i].TakeDone?;
      assert es[i + 1].TakeDone?;
    }
  }

  lemma {:induction false} TakesDoneGrows(es: seq<Event>, fs: seq<Event>)
    requires es <= fs && TakesDone(es)
    ensures TakesDone(fs)
  {
    var i :| 0 <= i < |es| && es[i].TakeDone?;
    assert fs[i].TakeDone?;
  }

  /** Each reading comes no earlier than the one before. */
  ghost predicate Chain(upTo: nat -> seq<Event>) {
    forall q: nat, r: nat :: q <= r <= ROUNDS ==> upTo(q) <= upTo(r)
  }

  /** Exactly when a `stop` times out, whatever state `p` it finds the pump active in and whatever
      the pump does meanwhile: if and only if `run` has taken no stop token by the last reading.
      Otherwise it waits until the first reading after `run` has taken one. */
  lemma {:induction false} StopTimesOutIffNoTokenTaken(
      p: Pump, upTo: nat -> seq<Event>, activeAt: nat -> bool, chaos: bool,
      full: bool, signalled: bool, rounds: nat, timedOut: bool)
    requires Sound(p, chaos) && p.active && Chain(upTo) && ReadsFlag(p, upTo, activeAt, chaos)
    requires Waits(true, full, activeAt, signalled, rounds, timedOut)
    ensures timedOut <==> !TakesDone(upTo(59))
    ensures timedOut ==> rounds == 60
    ensures !timedOut ==> TakesDone(upTo(rounds)) && forall r: nat :: r < rounds ==> !TakesDone(upTo(r))
  {
    forall r: nat | r <= ROUNDS ensures activeAt(r) <==> !TakesDone(upTo(r)) {
      ActiveUntilDone(p, upTo(r), chaos);
    }
    forall r: nat | r < ROUNDS && TakesDone(upTo(r)) ensures TakesDone(upTo(ROUNDS - 1)) {
      TakesDoneGrows(upTo(r), upTo(ROUNDS - 1));
    }
  }

  /** So a wait that begins after `run` has left its loop for a failure lasts all 60 rounds and
      times out, although the pump may have returned long ago; after a stop it does not last. */
  lemma {:induction false} StopAfterTheLoop(
      p: Pump, e: Event, upTo: nat -> seq<Event>, activeAt: nat -> bool, chaos: bool,
      full: bool, signalled: bool, rounds: nat, timedOut: bool)
    requires p.active && Enabled(p, e, chaos) && (e.TakeDone? || e.TakeFailure?)
    requires ReadsFlag(Apply(p, e, chaos), upTo, activeAt, chaos)
    requires Waits(true, full, activeAt, signalled, rounds, timedOut)
    ensures rounds == (if e.TakeFailure? then 60 else 0) && (timedOut <==> e.TakeFailure?)
  {
    forall r: nat | r <= ROUNDS ensures activeAt(r) == e.TakeFailure? {
      FlagIsSettled(Apply(p, e, chaos), upTo(r), chaos);
    }
    assert activeAt(0) <==> e.TakeFailure?;
  }
}
