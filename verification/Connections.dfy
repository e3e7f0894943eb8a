/** Client connections of an HTTP proxy and how they are drained: a reset moves every tracked
    connection to the draining map, and a draining connection is closed by the proxy when it
    becomes idle. */
module Connections {

  type Addr = string
  type Conn = nat

  datatype ConnState = StateNew | StateActive | StateIdle | StateHijacked | StateClosed

  /** An event of a trace: a state change of a connection, or a reset (asked for by the server
      or by an unhealthy backend). */
  datatype Event = Change(addr: Addr, conn: Conn, state: ConnState) | Reset

  /** The tracked maps, and two logs: the connections the proxy itself closed, in order, and
      the number of address collisions it complained about. */
  datatype Book = Book(connections: map<Addr, Conn>, draining: map<Addr, Conn>, closed: seq<Conn>, collisions: nat)

  const EMPTY := Book(map[], map[], [], 0)

  function OnEvent(b: Book, e: Event): Book {
    match e
    case Reset =>
      Book(map[], b.draining + b.connections, b.closed,
           b.collisions + |b.connections.Keys * b.draining.Keys|)
    case Change(a, c, StateNew) => b.(connections := b.connections[a := c])
    case Change(_, _, StateActive) => b
    case Change(a, c, StateIdle) =>
      if a in b.draining then b.(draining := b.draining - {a}, closed := b.closed + [c]) else b
    case Change(a, _, _) => b.(connections := b.connections - {a}, draining := b.draining - {a})
  }

  /** Moving one entry from `c` to `d` keeps their union, in which `c` wins. */
  lemma {:induction false} MoveKeepsUnion(c: map<Addr, Conn>, d: map<Addr, Conn>, addr: Addr)
    requires addr in c
    ensures d[addr := c[addr]] + (c - {addr}) == d + c
    ensures (c - {addr}).Keys == c.Keys - {addr}
    ensures d[addr := c[addr]].Keys == d.Keys + {addr}
  {
  }

  /** It uses up the collision at its address, if there is one. */
  lemma {:induction false} MoveUsesCollision(c: set<Addr>, d: set<Addr>, addr: Addr)
    requires addr in c
    ensures |(c - {addr}) * (d + {addr})| == |c * d| - (if addr in d then 1 else 0)
  {
    assert (c - {addr}) * (d + {addr}) == c * d - {addr};
  }

  /** The part of the proxy that tracks connections. Each method runs under `mxConnections`. */
  class HttpProxy {
    var connections: map<Addr, Conn>
    var drainingConnections: map<Addr, Conn>
    var closed: seq<Conn>
    var collisions: nat

    constructor ()
      ensures Contents() == EMPTY
    {
      connections, drainingConnections, closed, collisions := map[], map[], [], 0;
    }

    function Contents(): Book
      reads this
    {
      Book(connections, drainingConnections, closed, collisions)
    }

    method UpstreamConnectionChanged(conn: Conn, addr: Addr, state: ConnState)
      modifies this
      ensures Contents() == OnEvent(old(Contents()), Change(addr, conn, state))
    {
      match state {
        case StateNew =>
          connections := connections[addr := conn];
        case StateActive =>
        case StateIdle =>
          if addr in drainingConnections {
            drainingConnections := drainingConnections - {addr};
            closed := closed + [conn];
          }
        case StateHijacked =>
          connections := connections - {addr};
          drainingConnections := drainingConnections - {addr};
        case StateClosed =>
          connections := connections - {addr};
          drainingConnections := drainingConnections - {addr};
      }
    }

    /** Iterates over the map in an arbitrary order and deletes as it goes. */
    method ResetConnections()
      modifies this
      ensures connections == map[]
      ensures drainingConnections == old(drainingConnections) + old(connections)
      ensures closed == old(closed)
      ensures collisions == old(collisions) + |old(connections).Keys * old(drainingConnections).Keys|
      ensures Contents() == OnEvent(old(Contents()), Reset)
    {
      var todo := connections.Keys;
      while todo != {}
        invariant todo == connections.Keys
        invariant drainingConnections + connections == old(drainingConnections) + old(connections)
        invariant collisions + |todo * drainingConnections.Keys|
               == old(collisions) + |old(connections).Keys * old(drainingConnections).Keys|
        invariant closed == old(closed)
        decreases |todo|
      {
        var addr :| addr in todo;
        MoveUsesCollision(todo, drainingConnections.Keys, addr);
        StartDraining(addr);
        todo := todo - {addr};
      }
    }

    /** One round of the reset. */
    method StartDraining(addr: Addr)
      requires addr in connections
      modifies this
      ensures connections.Keys == old(connections).Keys - {addr}
      ensures drainingConnections.Keys == old(drainingConnections).Keys + {addr}
      ensures drainingConnections + connections == old(drainingConnections) + old(connections)
      ensures collisions == old(collisions) + (if addr in old(drainingConnections) then 1 else 0)
      ensures closed == old(closed)
    {
      MoveKeepsUnion(connections, drainingConnections, addr);
      if addr in drainingConnections {
        collisions := collisions + 1;
      }
      drainingConnections := drainingConnections[addr := connections[addr]];
      connections := connections - {addr};
    }

    /** The other critical sections that come between two of one caller. */
    method Interleave(others: seq<Event>)
      modifies this
      ensures Contents() == From(old(Contents()), others)
    {
      for i := 0 to |others|
        invariant Contents() == From(old(Contents()), others[..i])
      {
        assert others[..i + 1][..i] == others[..i];
        match others[i] {
          case Change(addr, conn, state) => UpstreamConnectionChanged(conn, addr, state);
          case Reset => ResetConnections();
        }
      }
      assert others[..|others|] == others;
    }

    /** What the healthcheck calls while the backend is unhealthy: it counts the connections under
        the lock, and resets them under the lock again unless there were none; `others` happen in
        between. All the same it acts like a single reset, at the end or at the beginning. */
    method BackendUnhealthy(others: seq<Event>)
      modifies this
      ensures Contents() == From(old(Contents()), if |old(connections)| > 0 then others + [Reset] else [Reset] + others)
    {
      ghost var b := Contents();
      var count := |connections|;
      Interleave(others);
      if count > 0 {
        ResetConnections();
        FromSnoc(b, others, Reset);
      } else {
        EmptyResetFirst(b, others);
      }
    }
  }

  // ---------- traces ----------

  function Fold<S, E>(step: (S, E) -> S, s: S, es: seq<E>): S {
    if |es| == 0 then s else step(Fold(step, s, es[..|es| - 1]), es[|es| - 1])
  }

  lemma {:induction false} FoldParts<S, E>(step: (S, E) -> S, s: S, es: seq<E>, fs: seq<E>)
    ensures Fold(step, s, es + fs) == Fold(step, Fold(step, s, es), fs)
    decreases |fs|
  {
    if |fs| == 0 {
      assert es + fs == es;
    } else {
      var n := |fs| - 1;
      FoldParts(step, s, es, fs[..n]);
      assert (es + fs)[..|es| + n] == es + fs[..n];
    }
  }

  function From(b: Book, es: seq<Event>): Book {
    Fold(OnEvent, b, es)
  }

  lemma {:induction false} FromSnoc(b: Book, es: seq<Event>, e: Event)
    ensures From(b, es + [e]) == OnEvent(From(b, es), e)
  {
    assert (es + [e])[..|es|] == es;
  }

  lemma {:induction false} FromOne(b: Book, e: Event)
    ensures From(b, [e]) == OnEvent(b, e)
  {
    assert [] + [e] == [e];
    FromSnoc(b, [], e);
  }

  lemma {:induction false} EmptyResetFirst(b: Book, es: seq<Event>)
    requires |b.connections| == 0
    ensures From(b, [Reset] + es) == From(b, es)
  {
    FoldParts(OnEvent, b, [Reset], es);
    FromOne(b, Reset);
    assert OnEvent(b, Reset) == b by {
      assert b.draining + b.connections == b.draining && b.connections.Keys * b.draining.Keys == {};
    }
  }

  function After(es: seq<Event>): Book {
    From(EMPTY, es)
  }

  function NextLive(live: map<Addr, Conn>, e: Event): map<Addr, Conn> {
    if e.Change? && e.state.StateNew? then live[e.addr := e.conn]
    else if e.Change? && (e.state.StateHijacked? || e.state.StateClosed?) then live - {e.addr}
    else live
  }

  /** The connections between their first and their last event. */
  function Live(es: seq<Event>): map<Addr, Conn> {
    if |es| == 0 then map[] else NextLive(Live(es[..|es| - 1]), es[|es| - 1])
  }

  ghost predicate Opens(e: Event, c: Conn) {
    e.Change? && e.state.StateNew? && e.conn == c
  }

  ghost predicate Idles(e: Event, c: Conn) {
    e.Change? && e.state.StateIdle? && e.conn == c
  }

  ghost predicate Opened(es: seq<Event>, c: Conn) {
    exists k :: 0 <= k < |es| && Opens(es[k], c)
  }

  /** What the server guarantees about the order of events: a connection is new once, on an
      address nobody uses, and its later events come while it is live, from its address. */
  ghost predicate Legal(es: seq<Event>, e: Event) {
    match e
    case Reset => true
    case Change(a, c, StateNew) => a !in Live(es) && !Opened(es, c)
    case Change(a, c, _) => a in Live(es) && Live(es)[a] == c
  }

  ghost predicate WellFormed(es: seq<Event>) {
    |es| == 0 || (WellFormed(es[..|es| - 1]) && Legal(es[..|es| - 1], es[|es| - 1]))
  }

  /** Some reset came after the connection was opened. */
  ghost predicate WasReset(es: seq<Event>, c: Conn) {
    exists i :: 0 <= i < |es| && es[i].Reset? && Opened(es[..i], c)
  }

  /** The connection became idle after such a reset. */
  ghost predicate IdledAfterReset(es: seq<Event>, c: Conn) {
    exists j :: 0 <= j < |es| && Idles(es[j], c) && WasReset(es[..j], c)
  }

  ghost predicate NoDuplicates(s: seq<Conn>) {
    forall i, j :: 0 <= i < j < |s| ==> s[i] != s[j]
  }

  lemma {:induction false} OpenedSnoc(es: seq<Event>, e: Event, c: Conn)
    ensures Opened(es + [e], c) <==> Opened(es, c) || Opens(e, c)
  {
    var fs := es + [e];
    if Opens(e, c) {
      assert Opens(fs[|es|], c);
    }
    if Opened(es, c) {
      var k :| 0 <= k < |es| && Opens(es[k], c);
      assert Opens(fs[k], c);
    }
  }

  lemma {:induction false} WasResetSnoc(es: seq<Event>, e: Event, c: Conn)
    ensures WasReset(es + [e], c) <==> WasReset(es, c) || (e.Reset? && Opened(es, c))
  {
    var fs := es + [e];
    assert fs[..|es|] == es;
    forall i | 0 <= i < |es| ensures fs[..i] == es[..i] {
    }
    if WasReset(es, c) {
      var i :| 0 <= i < |es| && es[i].Reset? && Opened(es[..i], c);
      assert fs[i].Reset? && Opened(fs[..i], c);
    }
    if e.Reset? && Opened(es, c) {
      assert fs[|es|].Reset? && Opened(fs[..|es|], c);
    }
  }

  lemma {:induction false} IdledSnoc(es: seq<Event>, e: Event, c: Conn)
    ensures IdledAfterReset(es + [e], c) <==> IdledAfterReset(es, c) || (Idles(e, c) && WasReset(es, c))
  {
    var fs := es + [e];
    assert fs[..|es|] == es;
    forall j | 0 <= j < |es| ensures fs[..j] == es[..j] {
    }
    if IdledAfterReset(es, c) {
      var j :| 0 <= j < |es| && Idles(es[j], c) && WasReset(es[..j], c);
      assert Idles(fs[j], c) && WasReset(fs[..j], c);
    }
    if Idles(e, c) && WasReset(es, c) {
      assert Idles(fs[|es|], c) && WasReset(fs[..|es|], c);
    }
  }

  /** What holds after a trace, for the connection at one address and for the log. */
  ghost predicate TrackedAt(es: seq<Event>, b: Book, a: Addr) {
    && (a in b.connections <==> a in Live(es) && !WasReset(es, Live(es)[a]))
    && (a in b.draining <==> a in Live(es) && WasReset(es, Live(es)[a]) && !IdledAfterReset(es, Live(es)[a]))
    && (a in b.connections ==> b.connections[a] == Live(es)[a])
    && (a in b.draining ==> b.draining[a] == Live(es)[a])
    && (a in Live(es) ==> Opened(es, Live(es)[a]))
  }

  ghost predicate Tracked(es: seq<Event>, b: Book) {
    && (forall a :: TrackedAt(es, b, a))
    && (forall a, a' :: a in Live(es) && a' in Live(es) && Live(es)[a] == Live(es)[a'] ==> a == a')
    && (forall c :: c in b.closed <==> IdledAfterReset(es, c))
    && NoDuplicates(b.closed)
    && b.collisions == 0
  }

  lemma {:induction false} OnlyOpenedAreReset(es: seq<Event>, c: Conn)
    ensures WasReset(es, c) ==> Opened(es, c)
    ensures IdledAfterReset(es, c) ==> WasReset(es, c)
  {
    if WasReset(es, c) {
      var i :| 0 <= i < |es| && es[i].Reset? && Opened(es[..i], c);
      var k :| 0 <= k < i && Opens(es[..i][k], c);
      assert Opens(es[k], c);
    }
    if IdledAfterReset(es, c) {
      var j :| 0 <= j < |es| && Idles(es[j], c) && WasReset(es[..j], c);
      var i :| 0 <= i < j && es[..j][i].Reset? && Opened(es[..j][..i], c);
      assert es[..j][..i] == es[..i] && es[i].Reset?;
    }
  }

  lemma {:induction false} StepKeepsTracked(es: seq<Event>, b: Book, e: Event)
    requires Tracked(es, b) && Legal(es, e)
    ensures Tracked(es + [e], OnEvent(b, e))
  {
    forall a ensures TrackedAt(es + [e], OnEvent(b, e), a) {
      assert TrackedAt(es, b, a);
      StepKeepsTrackedAt(es, b, e, a);
    }
    StepKeepsLiveApart(es, b, e);
    StepKeepsLog(es, b, e);
  }

  lemma {:induction false} LiveSnoc(es: seq<Event>, e: Event)
    ensures Live(es + [e]) == NextLive(Live(es), e)
  {
    assert (es + [e])[..|es|] == es;
  }

  lemma {:induction false} StepKeepsLiveApart(es: seq<Event>, b: Book, e: Event)
    requires Tracked(es, b) && Legal(es, e)
    ensures var live := Live(es + [e]);
            forall a, a' :: a in live && a' in live && live[a] == live[a'] ==> a == a'
  {
    var live := Live(es + [e]);
    LiveSnoc(es, e);
    forall a, a' | a in live && a' in live && live[a] == live[a'] ensures a == a' {
      assert TrackedAt(es, b, a) && TrackedAt(es, b, a');
    }
  }

  lemma {:induction false} StepKeepsLog(es: seq<Event>, b: Book, e: Event)
    requires Tracked(es, b) && Legal(es, e)
    ensures var b' := OnEvent(b, e);
            && (forall c :: c in b'.closed <==> IdledAfterReset(es + [e], c))
            && NoDuplicates(b'.closed) && b'.collisions == 0
  {
    forall c ensures c in OnEvent(b, e).closed <==> IdledAfterReset(es + [e], c) {
      IdledSnoc(es, e, c);
      if e.Change? {
        assert TrackedAt(es, b, e.addr);
      }
    }
    if e.Change? {
      assert TrackedAt(es, b, e.addr);
    } else {
      forall a ensures a !in b.connections.Keys * b.draining.Keys {
        assert TrackedAt(es, b, a);
      }
      assert b.connections.Keys * b.draining.Keys == {};
    }
  }

  lemma {:induction false} StepKeepsTrackedAt(es: seq<Event>, b: Book, e: Event, a: Addr)
    requires TrackedAt(es, b, a) && Legal(es, e)
    requires e.Change? && a in Live(es) && e.addr in Live(es) && Live(es)[a] == Live(es)[e.addr] ==> a == e.addr
    ensures TrackedAt(es + [e], OnEvent(b, e), a)
  {
    if e.Reset? {
      ResetKeepsTrackedAt(es, b, a);
    } else if e.addr != a {
      ChangeElsewhereKeepsTrackedAt(es, b, e, a);
    } else {
      ChangeKeepsTrackedAt(es, b, e);
    }
  }

  lemma {:induction false} HistorySnoc(es: seq<Event>, e: Event, c: Conn)
    ensures Opened(es + [e], c) <==> Opened(es, c) || Opens(e, c)
    ensures WasReset(es + [e], c) <==> WasReset(es, c) || (e.Reset? && Opened(es, c))
    ensures IdledAfterReset(es + [e], c) <==> IdledAfterReset(es, c) || (Idles(e, c) && WasReset(es, c))
    ensures WasReset(es, c) ==> Opened(es, c)
    ensures IdledAfterReset(es, c) ==> WasReset(es, c)
  {
    OpenedSnoc(es, e, c);
    WasResetSnoc(es, e, c);
    IdledSnoc(es, e, c);
    OnlyOpenedAreReset(es, c);
  }

  lemma {:induction false} ChangeElsewhereKeepsTrackedAt(es: seq<Event>, b: Book, e: Event, a: Addr)
    requires TrackedAt(es, b, a) && Legal(es, e) && e.Change? && e.addr != a
    requires a in Live(es) && e.addr in Live(es) ==> Live(es)[a] != Live(es)[e.addr]
    ensures TrackedAt(es + [e], OnEvent(b, e), a)
  {
    LiveSnoc(es, e);
    if a in Live(es) {
      HistorySnoc(es, e, Live(es)[a]);
      assert !Opens(e, Live(es)[a]) && !Idles(e, Live(es)[a]);
    }
  }

  lemma {:induction false} ChangeKeepsTrackedAt(es: seq<Event>, b: Book, e: Event)
    requires e.Change? && TrackedAt(es, b, e.addr) && Legal(es, e)
    ensures TrackedAt(es + [e], OnEvent(b, e), e.addr)
  {
    LiveSnoc(es, e);
    HistorySnoc(es, e, e.conn);
  }

  lemma {:induction false} ResetKeepsTrackedAt(es: seq<Event>, b: Book, a: Addr)
    requires TrackedAt(es, b, a)
    ensures TrackedAt(es + [Reset], OnEvent(b, Reset), a)
  {
    LiveSnoc(es, Reset);
    if a in Live(es) {
      HistorySnoc(es, Reset, Live(es)[a]);
    }
  }

  lemma {:induction false} NothingIsTracked()
    ensures Tracked([], EMPTY)
  {
    forall a ensures TrackedAt([], EMPTY, a) {
    }
  }

  lemma {:induction false} TracesAreTracked(es: seq<Event>)
    requires WellFormed(es)
    ensures Tracked(es, After(es))
  {
    if |es| == 0 {
      NothingIsTracked();
      assert es == [];
    } else {
      var n := |es| - 1;
      TracesAreTracked(es[..n]);
      StepKeepsTracked(es[..n], After(es[..n]), es[n]);
      assert es[..n] + [es[n]] == es;
    }
  }

  /** The drain protocol, over every interleaving of connection events and resets: the maps
      are disjoint, no collision is ever reported, together they hold exactly the live
      connections the proxy has not closed; it closes a connection exactly when the connection
      becomes idle after a reset, and never twice. */
  lemma {:induction false} DrainProtocol(es: seq<Event>)
    requires WellFormed(es)
    ensures var b := After(es);
            && b.connections.Keys !! b.draining.Keys
            && b.collisions == 0
            && (forall a :: a in b.connections + b.draining <==> a in Live(es) && Live(es)[a] !in b.closed)
            && (forall a :: a in b.connections ==> b.connections[a] == Live(es)[a] && !WasReset(es, Live(es)[a]))
            && (forall a :: a in b.draining ==> b.draining[a] == Live(es)[a] && WasReset(es, Live(es)[a]))
            && (forall c :: c in b.closed <==> IdledAfterReset(es, c))
            && NoDuplicates(b.closed)
  {
    TracesAreTracked(es);
    var b := After(es);
    forall a
      ensures !(a in b.connections && a in b.draining)
      ensures a in b.connections + b.draining <==> a in Live(es) && Live(es)[a] !in b.closed
      ensures a in b.connections ==> b.connections[a] == Live(es)[a] && !WasReset(es, Live(es)[a])
      ensures a in b.draining ==> b.draining[a] == Live(es)[a] && WasReset(es, Live(es)[a])
    {
      assert TrackedAt(es, b, a);
      if a in Live(es) {
        OnlyOpenedAreReset(es, Live(es)[a]);
      }
    }
  }

  // ---------- without the server's guarantee ----------

  ghost predicate Disjoint(b: Book) {
    b.connections.Keys !! b.draining.Keys
  }

  /** A connection opens from an address that is still draining. */
  ghost predicate Reopens(b: Book, e: Event) {
    e.Change? && e.state.StateNew? && e.addr in b.draining
  }

  lemma {:induction false} StepStaysDisjoint(b: Book, e: Event)
    requires Disjoint(b)
    ensures Disjoint(OnEvent(b, e)) <==> !Reopens(b, e)
  {
    if Reopens(b, e) {
      assert e.addr in OnEvent(b, e).connections.Keys && e.addr in OnEvent(b, e).draining.Keys;
    }
  }

  lemma {:induction false} AfterOneMore(es: seq<Event>, n: nat)
    requires n < |es|
    ensures After(es[..n + 1]) == OnEvent(After(es[..n]), es[n])
  {
    assert es[..n + 1][..n] == es[..n];
  }

  /** If each step keeps a property exactly when it meets a condition, all steps do so together. */
  lemma {:induction false} Stepwise(holds: nat -> bool, meets: nat -> bool, n: nat)
    requires holds(0)
    requires forall k: nat :: k < n && holds(k) ==> (holds(k + 1) <==> meets(k))
    ensures (forall k: nat :: k <= n ==> holds(k)) <==> (forall k: nat :: k < n ==> meets(k))
  {
    if n > 0 {
      var m := n - 1;
      Stepwise(holds, meets, m);
      assert holds(m) ==> (holds(m + 1) <==> meets(m));
      assert (forall k: nat :: k <= n ==> holds(k)) <==> (forall k: nat :: k <= m ==> holds(k)) && holds(n);
      assert (forall k: nat :: k < n ==> meets(k)) <==> (forall k: nat :: k < m ==> meets(k)) && meets(m);
    }
  }

  /** Over any trace at all, whatever the server guarantees: the maps are disjoint all along
      exactly when no connection opens from an address that is draining at that point. */
  lemma {:induction false} DisjointIffNoReuse(es: seq<Event>)
    ensures (forall n :: 0 <= n <= |es| ==> Disjoint(After(es[..n])))
        <==> (forall n :: 0 <= n < |es| ==> !Reopens(After(es[..n]), es[n]))
  {
    var holds := (n: nat) => n <= |es| && Disjoint(After(es[..n]));
    var meets := (n: nat) => n < |es| && !Reopens(After(es[..n]), es[n]);
    assert es[..0] == [];
    forall n: nat | n < |es| && holds(n) ensures holds(n + 1) <==> meets(n) {
      AfterOneMore(es, n);
      StepStaysDisjoint(After(es[..n]), es[n]);
    }
    Stepwise(holds, meets, |es|);
    assert forall n: nat :: n <= |es| ==> holds(n) == Disjoint(After(es[..n]));
    assert forall n: nat :: n < |es| ==> meets(n) == !Reopens(After(es[..n]), es[n]);
  }

  /** Such a trace exists, and the next reset then reports the collision and forgets the
      connection that was draining. */
  lemma {:induction false} ReuseCollides(a: Addr, c: Conn, d: Conn)
    requires c != d
    ensures var es := [Change(a, c, StateNew), Reset, Change(a, d, StateNew)];
            && !Disjoint(After(es))
            && After(es + [Reset]) == Book(map[], map[a := d], [], 1)
  {
    var es := [Change(a, c, StateNew), Reset, Change(a, d, StateNew)];
    FromOne(EMPTY, es[0]);
    assert After([es[0]]) == Book(map[a := c], map[], [], 0);
    FromSnoc(EMPTY, [es[0]], Reset);
    assert {a} * {} == {};
    assert After([es[0]] + [Reset]) == Book(map[], map[a := c], [], 0);
    FromSnoc(EMPTY, [es[0]] + [Reset], es[2]);
    assert [es[0]] + [Reset] + [es[2]] == es;
    assert After(es) == Book(map[a := d], map[a := c], [], 0);
    assert a in After(es).connections.Keys && a in After(es).draining.Keys;
    FromSnoc(EMPTY, es, Reset);
    assert {a} * {a} == {a};
  }

  // ---------- when nothing is lost without it ----------

  /** One of the maps holds the connection at the address. */
  ghost predicate Tracks(b: Book, a: Addr, c: Conn) {
    (a in b.connections && b.connections[a] == c) || (a in b.draining && b.draining[a] == c)
  }

  /** Whether a connection is open after an event that finds the maps as `b`: it was opened from
      that address, and since then neither ended nor was closed by the proxy. */
  predicate StaysOpen(b: Book, e: Event, a: Addr, c: Conn, wasOpen: bool) {
    if !e.Change? || e.addr != a || e.conn != c then wasOpen
    else match e.state
      case StateNew => true
      case StateActive => wasOpen
      case StateIdle => wasOpen && a !in b.draining
      case StateHijacked => false
      case StateClosed => false
  }

  ghost predicate IsOpen(es: seq<Event>, a: Addr, c: Conn) {
    if |es| == 0 then false
    else
      var init := es[..|es| - 1];
      StaysOpen(After(init), es[|es| - 1], a, c, IsOpen(init, a, c))
  }

  /** The maps hold exactly the open connections. */
  ghost predicate TracksTheOpen(es: seq<Event>) {
    forall a, c :: Tracks(After(es), a, c) <==> IsOpen(es, a, c)
  }

  /** The event touches no tracked connection but its own: it does not replace one in a map, and
      does not drop one at the same address. */
  ghost predicate Harmless(b: Book, e: Event) {
    match e
    case Reset => forall a :: a in b.connections && a in b.draining ==> b.connections[a] == b.draining[a]
    case Change(a, c, StateNew) =>
      a in b.connections && b.connections[a] != c ==> a in b.draining && b.draining[a] == b.connections[a]
    case Change(_, _, StateActive) => true
    case Change(a, c, StateIdle) =>
      a in b.draining ==>
        (b.draining[a] == c <==> !(a in b.connections && b.connections[a] == b.draining[a]))
    case Change(a, c, _) =>
      (a in b.connections ==> b.connections[a] == c) && (a in b.draining ==> b.draining[a] == c)
  }

  /** What `TracksTheOpen` asks of one event, when it held before. */
  ghost predicate KeepsTrack(b: Book, e: Event) {
    forall a, c :: Tracks(OnEvent(b, e), a, c) <==> StaysOpen(b, e, a, c, Tracks(b, a, c))
  }

  lemma {:induction false} KeepsTrackIffHarmless(b: Book, e: Event)
    ensures KeepsTrack(b, e) <==> Harmless(b, e)
  {
    if Harmless(b, e) {
      forall a, c ensures Tracks(OnEvent(b, e), a, c) <==> StaysOpen(b, e, a, c, Tracks(b, a, c)) {
        if e.Reset? {
          HarmlessReset(b, a, c);
        } else {
          HarmlessChange(b, e, a, c);
        }
      }
    } else {
      var a, c := Victim(b, e);
      assert !(Tracks(OnEvent(b, e), a, c) <==> StaysOpen(b, e, a, c, Tracks(b, a, c)));
    }
  }

  lemma {:induction false} HarmlessReset(b: Book, a: Addr, c: Conn)
    requires Harmless(b, Reset)
    ensures Tracks(OnEvent(b, Reset), a, c) <==> Tracks(b, a, c)
  {
  }

  lemma {:induction false} HarmlessChange(b: Book, e: Event, a: Addr, c: Conn)
    requires e.Change? && Harmless(b, e)
    ensures Tracks(OnEvent(b, e), a, c) <==> StaysOpen(b, e, a, c, Tracks(b, a, c))
  {
  }

  /** Another connection than `d` that is tracked at the address. */
  function OtherAt(b: Book, a: Addr, d: Conn): (c: Conn)
    requires (a in b.connections && b.connections[a] != d) || (a in b.draining && b.draining[a] != d)
    ensures c != d && Tracks(b, a, c)
  {
    if a in b.connections && b.connections[a] != d then b.connections[a] else b.draining[a]
  }

  /** A connection that a harmful event takes out of the maps, or leaves in by mistake. */
  lemma {:induction false} Victim(b: Book, e: Event) returns (a: Addr, c: Conn)
    requires !Harmless(b, e)
    ensures Tracks(OnEvent(b, e), a, c) != StaysOpen(b, e, a, c, Tracks(b, a, c))
  {
    match e
    case Reset =>
      a :| a in b.connections && a in b.draining && b.connections[a] != b.draining[a];
      c := b.draining[a];
    case Change(x, d, StateNew) => a, c := x, b.connections[x];
    case Change(x, d, StateIdle) => a, c := x, b.draining[x];
    case Change(_, _, StateActive) => assert false;
    case Change(x, d, StateHijacked) => a, c := x, OtherAt(b, x, d);
    case Change(x, d, StateClosed) => a, c := x, OtherAt(b, x, d);
  }

  lemma {:induction false} TracksOneMore(es: seq<Event>, n: nat)
    requires n < |es| && TracksTheOpen(es[..n])
    ensures TracksTheOpen(es[..n + 1]) <==> Harmless(After(es[..n]), es[n])
  {
    var b, fs := After(es[..n]), es[..n + 1];
    AfterOneMore(es, n);
    assert fs[..n] == es[..n];
    forall a, c ensures IsOpen(fs, a, c) == StaysOpen(b, es[n], a, c, Tracks(b, a, c)) {
      assert Tracks(b, a, c) <==> IsOpen(es[..n], a, c);
    }
    assert TracksTheOpen(fs) <==> KeepsTrack(b, es[n]);
    KeepsTrackIffHarmless(b, es[n]);
  }

  /** Over any trace at all: the maps hold exactly the open connections all along, those that were
      opened and have neither ended nor been closed by the proxy, exactly when every event is
      harmless at its point. */
  lemma {:induction false} TracksTheOpenIffHarmless(es: seq<Event>)
    ensures (forall n :: 0 <= n <= |es| ==> TracksTheOpen(es[..n]))
        <==> (forall n :: 0 <= n < |es| ==> Harmless(After(es[..n]), es[n]))
  {
    var holds := (n: nat) => n <= |es| && TracksTheOpen(es[..n]);
    var meets := (n: nat) => n < |es| && Harmless(After(es[..n]), es[n]);
    assert es[..0] == [];
    forall n: nat | n < |es| && holds(n) ensures holds(n + 1) <==> meets(n) {
      TracksOneMore(es, n);
    }
    Stepwise(holds, meets, |es|);
    assert forall n: nat :: n <= |es| ==> holds(n) == TracksTheOpen(es[..n]);
    assert forall n: nat :: n < |es| ==> meets(n) == Harmless(After(es[..n]), es[n]);
  }

  /** A late close of an old connection, after a new one was opened from its address, makes the
      proxy lose the new one. */
  lemma {:induction false} LateCloseLosesTheNewConnection(a: Addr, c: Conn, d: Conn)
    requires c != d
    ensures var es := [Change(a, c, StateNew), Change(a, d, StateNew), Change(a, c, StateClosed)];
            IsOpen(es, a, d) && !Tracks(After(es), a, d)
  {
    var es := [Change(a, c, StateNew), Change(a, d, StateNew), Change(a, c, StateClosed)];
    FromSnoc(EMPTY, es[..2], es[2]);
    assert es == es[..2] + [es[2]] && es[..2] == es[..1] + [es[1]];
    assert es[..2][..1] == es[..1];
  }
}
