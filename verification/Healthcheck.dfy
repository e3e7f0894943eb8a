/** The healthcheck: a sliding window of probe outcomes with two thresholds. */
module Healthcheck {
  import opened Wrappers
  import opened Data

  /** Configuration allows thresholds of one and more. */
  datatype Thresholds = Thresholds(healthy: nat, unhealthy: nat) {
    ghost predicate Valid() {
      1 <= healthy && 1 <= unhealthy
    }

    function Depth(): nat {
      if healthy < unhealthy then unhealthy else healthy
    }
  }

  datatype Probe = Failed | Answered(status: int)

  predicate Succeeded(p: Probe) {
    p.Answered? && (p.status == 200 || p.status == 202)
  }

  /** The last `depth` outcomes of a history. */
  function Window(h: seq<bool>, depth: nat): seq<bool> {
    if |h| <= depth then h else h[|h| - depth..]
  }

  /** One more outcome pushes the oldest one out of a window that is full. */
  lemma {:induction false} WindowSlides(h: seq<bool>, s: bool, depth: nat)
    ensures var w := Window(h, depth) + [s];
            Window(h + [s], depth) == if |w| > depth then w[1..] else w
  {
  }

  predicate AllFrom(w: seq<bool>, from: int, want: bool) {
    forall i :: 0 <= i < |w| && from <= i ==> w[i] == want
  }

  /** The verdict on a history: the positions from `depth - threshold` on of the window hold
      `want`, where positions the window does not have yet are skipped. */
  predicate Verdict(t: Thresholds, h: seq<bool>, threshold: nat, want: bool) {
    AllFrom(Window(h, t.Depth()), t.Depth() - threshold, want)
  }

  function Flip(t: Thresholds, healthy: bool, h: seq<bool>): bool {
    if healthy && Verdict(t, h, t.unhealthy, false) then false
    else if !healthy && Verdict(t, h, t.healthy, true) then true
    else healthy
  }

  /** The status after a history of checks, from the initial healthy one. */
  function Status(t: Thresholds, h: seq<bool>): bool {
    if |h| == 0 then true else Flip(t, Status(t, h[..|h| - 1]), h)
  }

  lemma {:induction false} StatusSnoc(t: Thresholds, h: seq<bool>, s: bool)
    ensures Status(t, h + [s]) == Flip(t, Status(t, h), h + [s])
  {
    assert (h + [s])[..|h|] == h;
  }

  class Healthcheck {
    const t: Thresholds
    const statuses: RingBuffer<bool>
    var isHealthy: bool
    ghost var history: seq<bool>
    ghost var wrapped: seq<bool>

    ghost predicate Valid()
      reads this, statuses, statuses.buf
    {
      && t.Valid() && statuses.Valid()
      && Windowed()
      && isHealthy == Status(t, history)
    }

    /** The ring holds the window of the history, and its sizes are those of a checked ring. */
    ghost predicate Windowed()
      requires statuses.Valid()
      reads this, statuses, statuses.buf
    {
      && statuses.Contents() == Window(history, t.Depth())
      && |wrapped| == |history|
      && statuses.sizes == Checks(t.Depth(), wrapped)
    }

    constructor (t: Thresholds)
      requires t.Valid()
      ensures Valid() && fresh(statuses) && fresh(statuses.buf)
      ensures this.t == t && history == [] && isHealthy
    {
      this.t := t;
      statuses := new RingBuffer<bool>(Some(t.Depth()));
      isHealthy := true;
      history, wrapped := [], [];
    }

    /** One tick. `called` tells whether the handler for an unhealthy backend is invoked. */
    method Check(probe: Probe) returns (called: bool)
      requires Valid()
      modifies this, statuses, statuses.buf
      ensures Valid() && (statuses.buf == old(statuses.buf) || fresh(statuses.buf))
      ensures history == old(history) + [Succeeded(probe)]
      ensures history[|history| - 1] <==> probe.Answered? && probe.status in {200, 202}
      ensures called == !Status(t, history)
    {
      Observe(Succeeded(probe));
      var healthy, unhealthy := Verdicts();
      StatusSnoc(t, old(history), Succeeded(probe));
      if isHealthy && unhealthy {
        isHealthy := false;
      } else if !isHealthy && healthy {
        isHealthy := true;
      }
      called := !isHealthy;
    }

    /** Both scans of the window. */
    method Verdicts() returns (healthy: bool, unhealthy: bool)
      requires t.Valid() && statuses.Valid() && Windowed()
      ensures healthy == Verdict(t, history, t.healthy, true)
      ensures unhealthy == Verdict(t, history, t.unhealthy, false)
    {
      healthy := Scan(t.healthy, true);
      unhealthy := Scan(t.unhealthy, false);
    }

    /** Push the outcome, and drop the oldest one when the window is too long. */
    method Observe(s: bool)
      requires statuses.Valid() && Windowed()
      modifies this`history, this`wrapped, statuses, statuses.buf
      ensures statuses.Valid() && (statuses.buf == old(statuses.buf) || fresh(statuses.buf))
      ensures history == old(history) + [s] && Windowed()
    {
      wrapped := wrapped + [statuses.head < statuses.tail];
      history := history + [s];
      assert wrapped[..|wrapped| - 1] == old(wrapped);
      WindowSlides(old(history), s, t.Depth());
      statuses.Push(s);
      var n := statuses.Length();
      if n > t.Depth() {
        var _ := statuses.Pop();
      }
    }

    /** One of the two backward scans, which differ in the threshold and the wanted outcome. */
    method Scan(threshold: nat, want: bool) returns (all: bool)
      requires statuses.Valid() && threshold <= t.Depth() && |statuses.Contents()| <= t.Depth()
      ensures all == AllFrom(statuses.Contents(), t.Depth() - threshold, want)
    {
      all := true;
      var idx := t.Depth() - 1;
      while idx >= t.Depth() - threshold
        invariant t.Depth() - threshold - 1 <= idx < t.Depth()
        invariant all == forall i :: 0 <= i < |statuses.Contents()| && idx < i < t.Depth() ==>
                          statuses.Contents()[i] == want
        decreases idx + 1
      {
        var s := statuses.At(idx);
        if s.Found? {
          all := all && s.value == want;
        }
        idx := idx - 1;
      }
    }

    /** However many checks ran, the ring of a healthcheck is small. */
    lemma {:induction false} RingStaysSmall()
      requires Valid()
      ensures statuses.buf.Length <= if t.Depth() == 1 then 4 else 2 * t.Depth()
    {
      ChecksStayBounded(t.Depth(), wrapped);
    }
  }

  // ---------- the window as a counter ----------

  /** How many outcomes at the end of the history equal `want` in a row. */
  function RunLength(h: seq<bool>, want: bool): (n: nat)
    ensures n <= |h|
    ensures forall i :: |h| - n <= i < |h| ==> h[i] == want
    ensures n < |h| ==> h[|h| - 1 - n] != want
  {
    if |h| == 0 || h[|h| - 1] != want then 0 else 1 + RunLength(h[..|h| - 1], want)
  }

  /** The threshold in force after `n` checks: during the first `depth` checks it is lower. */
  function Effective(t: Thresholds, threshold: nat, n: nat): nat {
    if t.Depth() <= n then threshold
    else if threshold + n <= t.Depth() then 0
    else threshold + n - t.Depth()
  }

  /** A history ends in a run of `n` wanted outcomes. */
  ghost predicate EndsInRun(h: seq<bool>, n: nat, want: bool) {
    n <= |h| && forall i :: |h| - n <= i < |h| ==> h[i] == want
  }

  lemma {:induction false} EndsInRunIsRunLength(h: seq<bool>, n: nat, want: bool)
    ensures EndsInRun(h, n, want) <==> n <= RunLength(h, want)
  {
    if RunLength(h, want) < n <= |h| {
      assert h[|h| - 1 - RunLength(h, want)] != want;
    }
  }

  /** Position `i` of the window is position `|h| - |w| + i` of the history. */
  lemma {:induction false} VerdictEndsInRun(t: Thresholds, h: seq<bool>, threshold: nat, want: bool)
    requires threshold <= t.Depth()
    ensures Verdict(t, h, threshold, want) <==> EndsInRun(h, Effective(t, threshold, |h|), want)
  {
    var w := Window(h, t.Depth());
    var from := t.Depth() - threshold;
    var e := Effective(t, threshold, |h|);
    var offset := |h| - |w|;
    assert if e > 0 then from + offset == |h| - e else from + offset >= |h|;
    if Verdict(t, h, threshold, want) {
      forall k | |h| - e <= k < |h| ensures h[k] == want {
        assert w[k - offset] == want;
      }
    }
    if EndsInRun(h, e, want) {
      forall i | 0 <= i < |w| && from <= i ensures w[i] == want {
        assert h[offset + i] == want;
      }
    }
  }

  /** At every check the verdict asks for a run of the threshold then in force. */
  lemma {:induction false} VerdictIsARun(t: Thresholds, h: seq<bool>, threshold: nat, want: bool)
    requires threshold <= t.Depth()
    ensures Verdict(t, h, threshold, want) <==> RunLength(h, want) >= Effective(t, threshold, |h|)
  {
    VerdictEndsInRun(t, h, threshold, want);
    EndsInRunIsRunLength(h, Effective(t, threshold, |h|), want);
  }

  /** At check number `n` the verdict asks for `threshold` outcomes in a row. */
  ghost predicate CountsARun(t: Thresholds, threshold: nat, want: bool, n: nat) {
    forall h: seq<bool> :: |h| == n ==> (Verdict(t, h, threshold, want) <==> RunLength(h, want) >= threshold)
  }

  /** It does so at exactly the checks from number `depth` on. */
  lemma {:induction false} VerdictCountsFromDepthOn(t: Thresholds, threshold: nat, want: bool, n: nat)
    requires 1 <= threshold <= t.Depth() && n >= 1
    ensures CountsARun(t, threshold, want, n) <==> t.Depth() <= n
  {
    if t.Depth() <= n {
      forall h: seq<bool> | |h| == n
        ensures Verdict(t, h, threshold, want) <==> RunLength(h, want) >= threshold
      {
        VerdictIsARun(t, h, threshold, want);
      }
    } else {
      var e := Effective(t, threshold, n);
      var h := seq(n, i => if i < n - e then !want else want);
      VerdictIsARun(t, h, threshold, want);
      assert e < threshold && e <= n;
      assert e < n ==> h[n - 1 - e] != want;
      assert RunLength(h, want) == e;
      assert |h| == n && Verdict(t, h, threshold, want) && RunLength(h, want) < threshold;
    }
  }

  /** The smallest case of the warm-up: the very first check reports an unhealthy backend
      exactly when the probe failed or the unhealthy threshold is the lower one, even if the
      probe succeeded. */
  lemma {:induction false} FirstCheck(t: Thresholds, s: bool)
    requires t.Valid()
    ensures Status(t, [s]) <==> s && t.healthy <= t.unhealthy
  {
    var h := [s];
    assert h[..0] == [];
    VerdictIsARun(t, h, t.unhealthy, false);
    VerdictIsARun(t, h, t.healthy, true);
    assert RunLength([], false) == 0;
    assert RunLength(h, false) == if s then 0 else 1;
  }

  /** A status with two counters of consecutive outcomes, and nothing else. */
  datatype Machine = Machine(healthy: bool, succeeded: nat, failed: nat)

  function Tick(t: Thresholds, m: Machine, s: bool): Machine {
    var succeeded, failed := if s then m.succeeded + 1 else 0, if s then 0 else m.failed + 1;
    Machine(
      if m.healthy then failed < t.unhealthy else succeeded >= t.healthy,
      succeeded, failed)
  }

  function Ticks(t: Thresholds, m: Machine, g: seq<bool>): Machine {
    if |g| == 0 then m else Tick(t, Ticks(t, m, g[..|g| - 1]), g[|g| - 1])
  }

  function Seen(t: Thresholds, h: seq<bool>): Machine {
    Machine(Status(t, h), RunLength(h, true), RunLength(h, false))
  }

  /** The window refines the counters: from check number `depth` on, the status evolves exactly
      as that of the counting machine, whatever the outcomes. */
  lemma {:induction false} WindowRefinesCounters(t: Thresholds, h: seq<bool>, g: seq<bool>)
    requires t.Valid() && t.Depth() <= |h| + 1
    ensures Seen(t, h + g) == Ticks(t, Seen(t, h), g)
    decreases |g|
  {
    if |g| == 0 {
      assert h + g == h;
    } else {
      var n := |g| - 1;
      var k := h + g[..n];
      WindowRefinesCounters(t, h, g[..n]);
      assert Seen(t, h + g) == Tick(t, Seen(t, k), g[n]) by {
        assert h + g == k + [g[n]];
        SeenTicks(t, k, g[n]);
      }
    }
  }

  lemma {:induction false} SeenTicks(t: Thresholds, h: seq<bool>, s: bool)
    requires t.Valid() && t.Depth() <= |h| + 1
    ensures Seen(t, h + [s]) == Tick(t, Seen(t, h), s)
  {
    var k := h + [s];
    assert k[..|h|] == h;
    VerdictIsARun(t, k, t.unhealthy, false);
    VerdictIsARun(t, k, t.healthy, true);
  }

  // ---------- the status the options document ----------

  /** What the options promise after a history: an unhealthy backend after so many failures in
      a row, a healthy one again after so many successes in a row. */
  function Promised(t: Thresholds, h: seq<bool>): bool {
    Ticks(t, Machine(true, 0, 0), h).healthy
  }

  lemma {:induction false} CountersAreRuns(t: Thresholds, h: seq<bool>)
    ensures Ticks(t, Machine(true, 0, 0), h) == Machine(Promised(t, h), RunLength(h, true), RunLength(h, false))
  {
    if |h| > 0 {
      CountersAreRuns(t, h[..|h| - 1]);
    }
  }

  lemma {:induction false} TicksOfParts(t: Thresholds, m: Machine, w: seq<bool>, g: seq<bool>)
    ensures Ticks(t, m, w + g) == Ticks(t, Ticks(t, m, w), g)
    decreases |g|
  {
    if |g| == 0 {
      assert w + g == w;
    } else {
      var n := |g| - 1;
      TicksOfParts(t, m, w, g[..n]);
      assert (w + g)[..|w| + n] == w + g[..n];
    }
  }

  /** The status is the promised one after every history exactly when both thresholds are one. */
  lemma {:induction false} PromiseIsKeptIffDepthOne(t: Thresholds)
    requires t.Valid()
    ensures (forall h :: Status(t, h) == Promised(t, h)) <==> t.Depth() == 1
  {
    if t.Depth() == 1 {
      forall h ensures Status(t, h) == Promised(t, h) {
        WarmUpDecidesOne(t, [], h);
        assert [] + h == h;
      }
    } else {
      var h := [t.unhealthy == 1];
      FirstCheck(t, h[0]);
      assert h[..0] == [];
      assert Promised(t, h) && !Status(t, h);
    }
  }

  lemma {:induction false} WarmUpDecidesOne(t: Thresholds, w: seq<bool>, g: seq<bool>)
    requires t.Valid() && t.Depth() <= |w| + 1 && Status(t, w) == Promised(t, w)
    ensures Status(t, w + g) == Promised(t, w + g)
  {
    CountersAreRuns(t, w);
    assert Seen(t, w) == Ticks(t, Machine(true, 0, 0), w);
    TicksOfParts(t, Machine(true, 0, 0), w, g);
    WindowRefinesCounters(t, w, g);
  }

  /** Once `depth - 1` checks have run, the status is the promised one for ever exactly when it
      is the promised one now. */
  lemma {:induction false} WarmUpDecides(t: Thresholds, w: seq<bool>)
    requires t.Valid() && t.Depth() <= |w| + 1
    ensures (forall g :: Status(t, w + g) == Promised(t, w + g)) <==> Status(t, w) == Promised(t, w)
  {
    if Status(t, w) == Promised(t, w) {
      forall g ensures Status(t, w + g) == Promised(t, w + g) {
        WarmUpDecidesOne(t, w, g);
      }
    } else {
      assert w + [] == w;
    }
  }

  /** And otherwise it becomes the promised one when a threshold is next reached. */
  lemma {:induction false} ReachedThresholdSettles(t: Thresholds, h: seq<bool>)
    requires t.Valid() && t.Depth() <= |h|
    requires Reaches(t, h)
    ensures Status(t, h) == Promised(t, h) == (RunLength(h, true) >= t.healthy)
  {
    CountersAreRuns(t, h);
    VerdictIsARun(t, h, t.healthy, true);
    VerdictIsARun(t, h, t.unhealthy, false);
  }

  /** A run that reaches its threshold ends the history. */
  ghost predicate Reaches(t: Thresholds, h: seq<bool>) {
    RunLength(h, true) >= t.healthy || RunLength(h, false) >= t.unhealthy
  }

  lemma {:induction false} OneMoreCheck(t: Thresholds, init: seq<bool>, h: seq<bool>)
    requires t.Valid() && t.Depth() <= |h| && |h| > 0 && init == h[..|h| - 1]
    ensures Status(t, h) == Promised(t, h) <==> Status(t, init) == Promised(t, init) || Reaches(t, h)
  {
    VerdictIsARun(t, h, t.healthy, true);
    VerdictIsARun(t, h, t.unhealthy, false);
    CountersAreRuns(t, init);
    CountersAreRuns(t, h);
  }

  ghost predicate ReachedBetween(t: Thresholds, h: seq<bool>, m: nat, n: nat)
    requires n <= |h|
  {
    exists k :: m < k <= n && Reaches(t, h[..k])
  }

  lemma {:induction false} ReachedByOneMore(t: Thresholds, h: seq<bool>, m: nat, n: nat)
    requires m < n <= |h|
    ensures ReachedBetween(t, h, m, n) <==> ReachedBetween(t, h, m, n - 1) || Reaches(t, h[..n])
  {
    if ReachedBetween(t, h, m, n - 1) {
      var k :| m < k <= n - 1 && Reaches(t, h[..k]);
      assert m < k <= n && Reaches(t, h[..k]);
    }
  }

  /** Exactly when the status is the promised one after check `n`, for any check `m` before it from
      `depth - 1` on: it was the promised one after check `m`, or a threshold was reached since. */
  lemma {:induction false} SettledIffReached(t: Thresholds, h: seq<bool>, m: nat, n: nat)
    requires t.Valid() && t.Depth() <= m + 1 && m <= n <= |h|
    ensures Status(t, h[..n]) == Promised(t, h[..n])
        <==> Status(t, h[..m]) == Promised(t, h[..m]) || ReachedBetween(t, h, m, n)
    decreases n
  {
    if m < n {
      SettledIffReached(t, h, m, n - 1);
      OneMoreCheck(t, h[..n - 1], h[..n]);
      ReachedByOneMore(t, h, m, n);
    }
  }

  /** A failure, two successes, and then failures and successes in turn. */
  function Flaky(k: nat): seq<bool> {
    if k == 0 then [false, true, true] else Flaky(k - 1) + [false, true]
  }

  const FLAKY_THRESHOLDS := Thresholds(3, 2)

  /** The status, and the machine the options promise, after a history in which the last outcome
      was a success, the `n`-th in a row. */
  ghost predicate Apart(h: seq<bool>, n: nat) {
    && Seen(FLAKY_THRESHOLDS, h) == Machine(false, n, 0)
    && Ticks(FLAKY_THRESHOLDS, Machine(true, 0, 0), h) == Machine(true, n, 0)
  }

  lemma {:induction false} FlakyStarts()
    ensures Apart([false, true], 1) && !Status(FLAKY_THRESHOLDS, [false]) && Promised(FLAKY_THRESHOLDS, [false])
  {
    var t := FLAKY_THRESHOLDS;
    var h := [false, true];
    assert h == [false] + [true] && h[..1] == [false] && [false][..0] == [];
    FirstCheck(t, false);
    StatusSnoc(t, [false], true);
    VerdictIsARun(t, h, t.healthy, true);
    assert RunLength([false], true) == 0 && RunLength([false], false) == 1;
    assert Ticks(t, Machine(true, 0, 0), []) == Machine(true, 0, 0);
    assert Ticks(t, Machine(true, 0, 0), [false]) == Machine(true, 0, 1);
  }

  lemma {:induction false} FlakyTick(h: seq<bool>, s: bool)
    requires FLAKY_THRESHOLDS.Depth() <= |h| + 1
    ensures Seen(FLAKY_THRESHOLDS, h + [s]) == Tick(FLAKY_THRESHOLDS, Seen(FLAKY_THRESHOLDS, h), s)
    ensures Ticks(FLAKY_THRESHOLDS, Machine(true, 0, 0), h + [s])
         == Tick(FLAKY_THRESHOLDS, Ticks(FLAKY_THRESHOLDS, Machine(true, 0, 0), h), s)
  {
    SeenTicks(FLAKY_THRESHOLDS, h, s);
    assert (h + [s])[..|h|] == h;
  }

  /** The status is wrong after check number `n`. */
  ghost predicate WrongAt(h: seq<bool>, n: nat) {
    n <= |h| && !Status(FLAKY_THRESHOLDS, h[..n]) && Promised(FLAKY_THRESHOLDS, h[..n])
  }

  ghost predicate AlwaysWrong(h: seq<bool>) {
    forall n :: 1 <= n <= |h| ==> WrongAt(h, n)
  }

  lemma {:induction false} AlwaysWrongSnoc(h: seq<bool>, s: bool)
    requires !Status(FLAKY_THRESHOLDS, h + [s]) && Promised(FLAKY_THRESHOLDS, h + [s])
    requires AlwaysWrong(h)
    ensures AlwaysWrong(h + [s])
  {
    var k := h + [s];
    forall n | 1 <= n <= |k| ensures WrongAt(k, n) {
      if n <= |h| {
        assert WrongAt(h, n) && k[..n] == h[..n];
      } else {
        assert k[..n] == k;
      }
    }
  }

  /** `AlwaysWrongSnoc`, for a sequence given as a whole. */
  lemma {:induction false} AlwaysWrongLast(h: seq<bool>, k: seq<bool>)
    requires |k| == |h| + 1 && k[..|h|] == h && AlwaysWrong(h)
    requires !Status(FLAKY_THRESHOLDS, k) && Promised(FLAKY_THRESHOLDS, k)
    ensures AlwaysWrong(k)
  {
    var s := k[|h|];
    assert k == h + [s];
    AlwaysWrongSnoc(h, s);
  }

  lemma {:induction false} FlakyBeginsWrong()
    ensures Apart([false, true], 1) && AlwaysWrong([false, true])
  {
    FlakyStarts();
    AlwaysWrongLast([], [false]);
    AlwaysWrongLast([false], [false, true]);
  }

  lemma {:induction false} FlakyBegins()
    ensures Apart([false, true, true], 2) && AlwaysWrong([false, true, true])
  {
    FlakyBeginsWrong();
    var h := [false, true];
    FlakyTick(h, true);
    assert h + [true] == [false, true, true];
    AlwaysWrongSnoc(h, true);
  }

  lemma {:induction false} FlakyRound(g: seq<bool>, n: nat)
    requires Apart(g, n) && n <= 2 && |g| >= 2 && AlwaysWrong(g)
    ensures Apart(g + [false, true], 1) && AlwaysWrong(g + [false, true])
  {
    FlakyTick(g, false);
    AlwaysWrongSnoc(g, false);
    FlakyTick(g + [false], true);
    AlwaysWrongSnoc(g + [false], true);
    assert g + [false] + [true] == g + [false, true];
  }

  /** The status broken by the warm-up can stay wrong for ever: with thresholds of three and two
      the backend never fails twice in a row, and is unhealthy after every single check. */
  lemma {:induction false} WrongForEver(k: nat)
    ensures |Flaky(k)| == 2 * k + 3
    ensures Apart(Flaky(k), if k == 0 then 2 else 1)
    ensures AlwaysWrong(Flaky(k))
  {
    if k == 0 {
      FlakyBegins();
      assert Flaky(k) == [false, true, true];
    } else {
      WrongForEver(k - 1);
      FlakyRound(Flaky(k - 1), if k == 1 then 2 else 1);
    }
  }

  // ---------- flips ----------

  /** Check number `n` turned the status into `to`. */
  ghost predicate FlipsTo(t: Thresholds, h: seq<bool>, n: nat, to: bool)
    requires 1 <= n <= |h|
  {
    Status(t, h[..n - 1]) != to && Status(t, h[..n]) == to
  }

  /** A flip comes with a run of its threshold behind it. */
  lemma {:induction false} FlipHasARun(t: Thresholds, h: seq<bool>, n: nat, to: bool)
    requires t.Valid() && 1 <= n <= |h| && t.Depth() <= n && FlipsTo(t, h, n, to)
    ensures forall i :: n - (if to then t.healthy else t.unhealthy) <= i < n ==> h[i] == to
  {
    var p := h[..n];
    assert p[..|p| - 1] == h[..n - 1];
    var threshold := if to then t.healthy else t.unhealthy;
    VerdictIsARun(t, p, threshold, to);
    forall i | n - threshold <= i < n ensures h[i] == to {
      assert p[i] == to;
    }
  }

  /** Flip separation: two opposite flips, from check number `depth` on, are at least the
      threshold of the later one apart. */
  lemma {:induction false} FlipsAreSeparated(t: Thresholds, h: seq<bool>, i: nat, j: nat, to: bool)
    requires t.Valid() && t.Depth() <= i < j <= |h| && 1 <= i
    requires FlipsTo(t, h, i, !to) && FlipsTo(t, h, j, to)
    ensures j - i >= if to then t.healthy else t.unhealthy
  {
    FlipHasARun(t, h, i, !to);
    FlipHasARun(t, h, j, to);
    assert h[i - 1] == !to;
  }

  /** From check number `depth` on, the two verdicts exclude each other. */
  lemma {:induction false} NeverBothVerdicts(t: Thresholds, h: seq<bool>)
    requires t.Valid() && t.Depth() <= |h|
    ensures !(Verdict(t, h, t.healthy, true) && Verdict(t, h, t.unhealthy, false))
  {
    VerdictIsARun(t, h, t.healthy, true);
    VerdictIsARun(t, h, t.unhealthy, false);
  }
}
