/** Deduplication of forkchoice updates: a cache of the updates seen, with a periodic purge.
    Times are in nanoseconds. */
module Deduplication {
  import opened Wrappers
  import S = Scheduler
  import opened Scheduler
  import opened Jobs
  import opened Mirroring

  const TTL := 30_000_000_000

  type Key = string

  /** Head, safe and finalised block hash of an update. */
  datatype Hashes = Hashes(head: string, safe: string, finalised: string)

  function KeyOf(x: Hashes): Key {
    x.head + "/" + x.safe + "/" + x.finalised
  }

  /** A purge begins at `now`, and reads the clock again for every entry it visits: `at` has
      these readings. */
  datatype Event = Update(now: int, key: Key) | Purge(now: int, at: map<Key, int>)

  /** The cache after an event: an unknown key is entered with its time, and a purge removes
      what is older than 30 seconds when it is visited. */
  function OnEvent(seen: map<Key, int>, e: Event): map<Key, int> {
    match e
    case Update(now, k) => if k in seen then seen else seen[k := now]
    case Purge(_, at) => map k | k in seen && (k in at ==> at[k] - seen[k] <= TTL) :: seen[k]
  }

  /** An answer made up by the proxy, or an empty response for the backend to fill. */
  datatype Answer = Blank | Valid(id: string, latestValidHash: string)

  /** A raw JSON parameter. */
  datatype Param = Null | Json(text: string)

  /** The JSON decoders for the forkchoice state and for the timestamp of the payload
      attributes, on anything but null; decoding null gives three empty hashes. */
  datatype Decoders = Decoders(state: string -> Option<Hashes>, timestamp: string -> Option<int>)

  function StateOf(d: Decoders, p: Param): Option<Hashes> {
    if p.Null? then Some(Hashes("", "", "")) else (d.state)(p.text)
  }

  /** The number of parameters that are not null. */
  ghost function NonNull(ps: seq<Param>): int {
    |ps| - multiset(ps)[Null]
  }

  method ParamsCount(ps: seq<Param>) returns (n: nat)
    ensures n == |ps| - multiset(ps)[Null]
  {
    n := 0;
    for i := 0 to |ps|
      invariant n == i - multiset(ps[..i])[Null]
    {
      assert ps[..i + 1] == ps[..i] + [ps[i]];
      if ps[i].Null? {
        continue;
      }
      n := n + 1;
    }
    assert ps[..|ps|] == ps;
  }

  /** An update without payload attributes, as clients send it: one parameter, or nulls after it. */
  predicate IsPlain(ps: seq<Param>) {
    |ps| > 0 && ps[0].Json? && forall k :: 1 <= k < |ps| ==> ps[k].Null?
  }

  lemma {:induction false} AllNull(ps: seq<Param>)
    requires forall k :: 0 <= k < |ps| ==> ps[k].Null?
    ensures multiset(ps)[Null] == |ps|
  {
    if |ps| > 0 {
      AllNull(ps[1..]);
      assert ps == [ps[0]] + ps[1..];
    }
  }

  lemma {:induction false} PlainHasOne(ps: seq<Param>)
    requires IsPlain(ps)
    ensures |ps| - multiset(ps)[Null] == 1
  {
    AllNull(ps[1..]);
    assert ps == [ps[0]] + ps[1..];
  }

  /** What triage makes of an update that the proxy answers itself. */
  function Suppression(jrpcMethod: string, jrpcID: string): Triaged<()> {
    Triaged(false, false, false, jrpcMethod, jrpcID, [])
  }

  class Authrpc {
    const deduplicateFCUs: bool
    const decoders: Decoders
    var seenHeads: map<Key, int>

    constructor (deduplicateFCUs: bool, decoders: Decoders)
      ensures seenHeads == map[] && this.deduplicateFCUs == deduplicateFCUs && this.decoders == decoders
    {
      this.deduplicateFCUs := deduplicateFCUs;
      this.decoders := decoders;
      seenHeads := map[];
    }

    method AlreadySeen(head: string, safe: string, finalised: string, now: int) returns (seen: bool)
      modifies this
      ensures seen == (KeyOf(Hashes(head, safe, finalised)) in old(seenHeads))
      ensures seenHeads == OnEvent(old(seenHeads), Update(now, KeyOf(Hashes(head, safe, finalised))))
    {
      var key := head + "/" + safe + "/" + finalised;
      if key in seenHeads {
        return true;
      }
      seenHeads := seenHeads[key := now];
      return false;
    }

    /** One tick of the purge loop, over the keys in an arbitrary order. `clock(n)` is what the
        clock reads in round `n`. */
    method PurgeOld(clock: nat -> int) returns (ghost at: map<Key, int>)
      requires forall m: nat, n: nat :: m <= n ==> clock(m) <= clock(n)
      modifies this
      ensures seenHeads == OnEvent(old(seenHeads), Purge(clock(0), at))
      ensures at.Keys == old(seenHeads).Keys
      ensures forall k :: k in at ==> clock(0) <= at[k] <= clock(|old(seenHeads)|)
    {
      var todo, n := seenHeads.Keys, 0;
      at := map[];
      while todo != {}
        invariant todo <= old(seenHeads).Keys && n + |todo| == |old(seenHeads)|
        invariant at.Keys == old(seenHeads).Keys - todo
        invariant forall k :: k in at ==> clock(0) <= at[k] <= clock(n)
        invariant forall k :: k in seenHeads <==> k in old(seenHeads) && (k in at ==> at[k] - old(seenHeads)[k] <= TTL)
        invariant forall k :: k in seenHeads ==> seenHeads[k] == old(seenHeads)[k]
        decreases |todo|
      {
        var key :| key in todo;
        var now := clock(n);
        if now - seenHeads[key] > TTL {
          seenHeads := seenHeads - {key};
        }
        at := at[key := now];
        todo, n := todo - {key}, n + 1;
      }
    }

    /** The forkchoice branch of triage. `params` is the decoded parameter list, if it decodes. */
    method TriageForkchoice(jrpcMethod: string, jrpcID: string, params: Option<seq<Param>>, now: int)
      returns (r: Triaged<()>, deadline: Option<int>, answer: Answer)
      modifies this
      ensures var h := Deduplicated(params);
              if h.Some? && KeyOf(h.value) in old(seenHeads)
              then r == Suppression(jrpcMethod, jrpcID)
                && answer == Valid(jrpcID, h.value.head) && deadline == None
              else r.proxy && r.mirror && answer == Blank && r.jrpcID == jrpcID
      ensures var h := Deduplicated(params);
              seenHeads == if h.Some? then OnEvent(old(seenHeads), Update(now, KeyOf(h.value))) else old(seenHeads)
      ensures r.prioritise <==> params.Some? && |params.value| - multiset(params.value)[Null] == 2
      ensures r.jrpcMethod == if r.prioritise then jrpcMethod + "_withPayload" else jrpcMethod
      ensures deadline == if r.prioritise && params.value[1].Json?
                          then (decoders.timestamp)(params.value[1].text) else None
      ensures deduplicateFCUs && params.Some? && IsPlain(params.value) ==>
                match (decoders.state)(params.value[0].text)
                case Some(x) =>
                  var seen := KeyOf(x) in old(seenHeads);
                  && r == Triaged(!seen, false, !seen, jrpcMethod, jrpcID, [])
                  && answer == (if seen then Valid(jrpcID, x.head) else Blank)
                  && seenHeads == if seen then old(seenHeads) else old(seenHeads)[KeyOf(x) := now]
                case None => r.proxy && r.mirror && seenHeads == old(seenHeads)
      ensures deduplicateFCUs && params.Some? && |params.value| - multiset(params.value)[Null] == 1 ==>
                var ps0 := params.value[0];
                match (if ps0.Null? then Some(Hashes("", "", "")) else (decoders.state)(ps0.text))
                case Some(x) => answer.Valid? <==> KeyOf(x) in old(seenHeads)
                case None => answer == Blank
      ensures !deduplicateFCUs || params.None? || |params.value| - multiset(params.value)[Null] != 1 ==>
                r.proxy && r.mirror && answer == Blank && seenHeads == old(seenHeads)
    {
      r := Triaged(true, false, true, jrpcMethod, jrpcID, []);
      deadline := None;
      answer := Blank;
      if params == None {
        return;
      }
      var ps := params.value;
      var count := ParamsCount(ps);
      if IsPlain(ps) {
        PlainHasOne(ps);
      }
      if count == 2 {
        if ps[1].Json? {
          deadline := (decoders.timestamp)(ps[1].text);
        }
        r := Triaged(true, true, true, jrpcMethod + "_withPayload", jrpcID, []);
      } else if count == 1 && deduplicateFCUs {
        var fs := StateOf(decoders, ps[0]);
        if fs.Some? {
          var seen := AlreadySeen(fs.value.head, fs.value.safe, fs.value.finalised, now);
          if seen {
            r := Suppression(jrpcMethod, jrpcID);
            answer := Valid(jrpcID, fs.value.head);
          }
        }
      }
    }

    /** The hashes under which an update takes part in deduplication, if it does. */
    ghost function Deduplicated(params: Option<seq<Param>>): Option<Hashes> {
      if deduplicateFCUs && params.Some? && NonNull(params.value) == 1 then StateOf(decoders, params.value[0])
      else None
    }
  }

  // ---------- runs ----------

  function Cache(es: seq<Event>): map<Key, int> {
    if |es| == 0 then map[] else OnEvent(Cache(es[..|es| - 1]), es[|es| - 1])
  }

  /** Update number `i` goes to the backend and enters the cache. */
  ghost predicate Admitted(es: seq<Event>, i: nat) {
    i < |es| && es[i].Update? && es[i].key !in Cache(es[..i])
  }

  /** Update number `i` is answered by the proxy. */
  ghost predicate Suppressed(es: seq<Event>, i: nat) {
    i < |es| && es[i].Update? && es[i].key in Cache(es[..i])
  }

  /** Some purge after event `a` and before event `i` finds the entry of `a` too old. */
  ghost predicate ExpiredBetween(es: seq<Event>, a: nat, i: nat) {
    exists j :: a < j < i && j < |es| && FindsTooOld(es, j, a)
  }

  /** Event `j` is a purge that visits the entry of update `a` when it is too old. */
  ghost predicate FindsTooOld(es: seq<Event>, j: nat, a: nat)
    requires j < |es|
  {
    && a < |es| && es[a].Update? && es[j].Purge?
    && es[a].key in es[j].at && es[j].at[es[a].key] - es[a].now > TTL
  }

  ghost predicate Entered(es: seq<Event>, a: nat, k: Key) {
    Admitted(es, a) && es[a].key == k
  }

  lemma {:induction false} PrefixesAgree(es: seq<Event>, n: nat, a: nat)
    requires a < n <= |es|
    ensures Admitted(es[..n], a) <==> Admitted(es, a)
    ensures Suppressed(es[..n], a) <==> Suppressed(es, a)
  {
    assert es[..n][..a] == es[..a];
  }

  /** The cache holds exactly the admitted updates that no purge has found too old. */
  lemma {:induction false} CacheHoldsTheFresh(es: seq<Event>, k: Key)
    ensures k in Cache(es) ==>
              exists a: nat :: Entered(es, a, k) && es[a].now == Cache(es)[k] && !ExpiredBetween(es, a, |es|)
    ensures forall a: nat :: Entered(es, a, k) && !ExpiredBetween(es, a, |es|) ==>
              k in Cache(es) && Cache(es)[k] == es[a].now
    decreases |es|
  {
    if |es| > 0 {
      var n := |es| - 1;
      var p, e := es[..n], es[n];
      CacheHoldsTheFresh(p, k);
      if k in Cache(es) {
        if k in Cache(p) {
          var a: nat :| Entered(p, a, k) && p[a].now == Cache(p)[k] && !ExpiredBetween(p, a, n);
          PrefixesAgree(es, n, a);
          StillFresh(es, a, n);
          assert Entered(es, a, k);
        } else {
          assert Entered(es, n, k);
        }
      }
      forall a: nat | Entered(es, a, k) && !ExpiredBetween(es, a, |es|)
        ensures k in Cache(es) && Cache(es)[k] == es[a].now
      {
        if a < n {
          PrefixesAgree(es, n, a);
          StillFresh(es, a, n);
          assert Entered(p, a, k);
        }
      }
    }
  }

  lemma {:induction false} StillFresh(es: seq<Event>, a: nat, n: nat)
    requires a < n < |es|
    ensures ExpiredBetween(es, a, n + 1) <==> ExpiredBetween(es[..n], a, n) || FindsTooOld(es, n, a)
  {
    SameExpiry(es, a, n);
    if ExpiredBetween(es, a, n) {
      var j :| a < j < n && FindsTooOld(es, j, a);
      assert ExpiredBetween(es, a, n + 1);
    }
  }

  /** Exactly when an update is suppressed: an earlier one with its key was admitted, and no
      purge in between found that entry older than 30 seconds. Repeats play no part in it. */
  lemma {:induction false} SuppressedIffFreshOriginal(es: seq<Event>, i: nat)
    requires i < |es| && es[i].Update?
    ensures Suppressed(es, i) <==> exists a: nat :: a < i && Entered(es, a, es[i].key) && !ExpiredBetween(es, a, i)
  {
    var p := es[..i];
    var k := es[i].key;
    CacheHoldsTheFresh(p, k);
    forall a: nat | a < i
      ensures Entered(p, a, k) <==> Entered(es, a, k)
      ensures ExpiredBetween(p, a, i) <==> ExpiredBetween(es, a, i)
    {
      PrefixesAgree(es, i, a);
      SameExpiry(es, a, i);
    }
    if Suppressed(es, i) {
      var a: nat :| Entered(p, a, k) && p[a].now == Cache(p)[k] && !ExpiredBetween(p, a, |p|);
      assert a < i && Entered(es, a, k);
    }
    if a: nat :| a < i && Entered(es, a, k) && !ExpiredBetween(es, a, i) {
      assert Entered(p, a, k) && !ExpiredBetween(p, a, |p|);
    }
  }

  lemma {:induction false} SameExpiry(es: seq<Event>, a: nat, i: nat)
    requires a < i <= |es|
    ensures ExpiredBetween(es[..i], a, i) <==> ExpiredBetween(es, a, i)
  {
    forall j | a < j < i ensures FindsTooOld(es[..i], j, a) <==> FindsTooOld(es, j, a) {
    }
    if ExpiredBetween(es, a, i) {
      var j :| a < j < i && FindsTooOld(es, j, a);
      assert FindsTooOld(es[..i], j, a);
    }
    if ExpiredBetween(es[..i], a, i) {
      var j :| a < j < i && FindsTooOld(es[..i], j, a);
      assert FindsTooOld(es, j, a);
    }
  }

  /** The clock does not go back, within a purge either. */
  ghost predicate Monotone(es: seq<Event>) {
    && (forall i, j :: 0 <= i <= j < |es| ==> es[i].now <= es[j].now)
    && (forall i, k :: 0 <= i < |es| && es[i].Purge? && k in es[i].at ==> es[i].now <= es[i].at[k])
    && (forall i, j, k :: 0 <= i < j < |es| && es[i].Purge? && k in es[i].at ==> es[i].at[k] <= es[j].now)
  }

  /** Lower bound: with a clock that never goes back, two admissions of a key are more than 30
      seconds apart. */
  lemma {:induction false} AdmissionsAreApart(es: seq<Event>, a: nat, b: nat)
    requires Monotone(es) && a < b && Admitted(es, a) && Admitted(es, b) && es[a].key == es[b].key
    ensures es[b].now - es[a].now > 30_000_000_000
  {
    SuppressedIffFreshOriginal(es, b);
    assert Entered(es, a, es[b].key);
    var j :| a < j < b && FindsTooOld(es, j, a);
  }

  /** Every purge visits the whole cache. */
  ghost predicate PurgesVisitAll(es: seq<Event>) {
    forall j :: 0 <= j < |es| && es[j].Purge? ==> es[j].at.Keys == Cache(es[..j]).Keys
  }

  /** Every event happens within 30 seconds of the beginning of the last purge, or of the start. */
  ghost predicate PurgedOften(es: seq<Event>, start: int) {
    && (forall i :: 0 <= i < |es| ==> start <= es[i].now)
    && forall i :: 0 <= i < |es| ==>
         es[i].now - start <= TTL || exists j :: 0 <= j < i && es[j].Purge? && es[i].now - es[j].now <= TTL
  }

  /** A purge that visits all leaves no entry behind that was older than 30 seconds when it began. */
  lemma {:induction false} PurgeLeavesTheFresh(es: seq<Event>, a: nat, j: nat)
    requires Monotone(es) && PurgesVisitAll(es) && a < j < |es| && es[j].Purge?
    requires Admitted(es, a) && !ExpiredBetween(es, a, j + 1)
    ensures es[j].now - es[a].now <= TTL
  {
    var p := es[..j];
    PrefixesAgree(es, j, a);
    StillFresh(es, a, j);
    CacheHoldsTheFresh(p, es[a].key);
    assert Entered(p, a, es[a].key);
    assert es[a].key in es[j].at && !FindsTooOld(es, j, a);
  }

  lemma {:induction false} ExpiryGrows(es: seq<Event>, a: nat, i: nat, k: nat)
    requires i <= k <= |es| && ExpiredBetween(es, a, i)
    ensures ExpiredBetween(es, a, k)
  {
    var j :| a < j < i && j < |es| && FindsTooOld(es, j, a);
    assert a < j < k && FindsTooOld(es, j, a);
  }

  /** Upper bound: if purges are at most 30 seconds apart, a suppressed update has an admitted
      original at most 60 seconds before it, however many repeats came between. */
  lemma {:induction false} SuppressionEnds(es: seq<Event>, start: int, i: nat)
    requires Monotone(es) && PurgesVisitAll(es) && PurgedOften(es, start) && Suppressed(es, i)
    ensures exists a: nat :: a < i && Entered(es, a, es[i].key) && es[i].now - es[a].now <= 60_000_000_000
  {
    SuppressedIffFreshOriginal(es, i);
    var a: nat :| a < i && Entered(es, a, es[i].key) && !ExpiredBetween(es, a, i);
    if es[i].now - start > TTL {
      var j :| 0 <= j < i && es[j].Purge? && es[i].now - es[j].now <= TTL;
      if a < j {
        if ExpiredBetween(es, a, j + 1) {
          ExpiryGrows(es, a, j + 1, i);
        }
        PurgeLeavesTheFresh(es, a, j);
      }
    }
  }

  /** The 60 seconds are reached: a visit at exactly 30 seconds keeps the entry. */
  lemma {:induction false} SuppressionCanLastThatLong(k: Key)
    ensures var es := [Update(0, k), Purge(30_000_000_000, map[k := 30_000_000_000]), Update(60_000_000_000, k)];
            Monotone(es) && PurgesVisitAll(es) && PurgedOften(es, 0) && Suppressed(es, 2)
  {
    var es := [Update(0, k), Purge(30_000_000_000, map[k := 30_000_000_000]), Update(60_000_000_000, k)];
    assert es[..2] == [Update(0, k), Purge(30_000_000_000, map[k := 30_000_000_000])] && es[..1] == [Update(0, k)];
    assert es[..2][..1] == es[..1] && es[..1][..0] == [];
    assert Cache(es[..1]) == map[k := 0];
    assert es[1].Purge?;
  }

  // ---------- the key ----------

  ghost predicate NoSlash(s: string) {
    forall i :: 0 <= i < |s| ==> s[i] != '/'
  }

  /** A string splits in one way only at its first slash. */
  lemma {:induction false} FirstSlashIsUnique(a: string, b: string, c: string, d: string)
    requires NoSlash(a) && NoSlash(c) && a + "/" + b == c + "/" + d
    ensures a == c && b == d
  {
    var s := a + "/" + b;
    assert s[|a|] == '/' && forall i :: 0 <= i < |a| ==> s[i] == a[i];
    assert s == c + "/" + d;
    assert s[|c|] == '/' && forall i :: 0 <= i < |c| ==> s[i] == c[i];
    assert a == s[..|a|] && c == s[..|c|];
    assert b == s[|a| + 1..] && d == s[|c| + 1..];
  }

  /** Updates whose head and safe hashes have no slash are told apart by their keys. */
  lemma {:induction false} KeysTellUpdatesApart(x: Hashes, y: Hashes)
    requires NoSlash(x.head) && NoSlash(x.safe) && NoSlash(y.head) && NoSlash(y.safe)
    requires KeyOf(x) == KeyOf(y)
    ensures x == y
  {
    assert KeyOf(x) == x.head + "/" + (x.safe + "/" + x.finalised);
    assert KeyOf(y) == y.head + "/" + (y.safe + "/" + y.finalised);
    FirstSlashIsUnique(x.head, x.safe + "/" + x.finalised, y.head, y.safe + "/" + y.finalised);
    FirstSlashIsUnique(x.safe, x.finalised, y.safe, y.finalised);
  }

  lemma {:induction false} SplitAtSlash(s: string) returns (i: nat)
    requires !NoSlash(s)
    ensures i < |s| && s == s[..i] + "/" + s[i + 1..]
  {
    i :| 0 <= i < |s| && s[i] == '/';
  }

  /** Moving one slash from a component to a separator keeps the key. */
  lemma {:induction false} ShiftedKey(a: string, b: string, c: string, d: string)
    ensures KeyOf(Hashes(a + "/" + b, c, d)) == KeyOf(Hashes(a, b, c + "/" + d))
    ensures KeyOf(Hashes(a, b + "/" + c, d)) == KeyOf(Hashes(a, b, c + "/" + d))
  {
    var l := KeyOf(Hashes(a, b, c + "/" + d));
    assert KeyOf(Hashes(a + "/" + b, c, d)) == l;
    assert KeyOf(Hashes(a, b + "/" + c, d)) == l;
  }

  /** With a slash in some component, another update has the same key. */
  lemma {:induction false} SlashesCollide(x: Hashes) returns (y: Hashes)
    requires !NoSlash(x.head) || !NoSlash(x.safe) || !NoSlash(x.finalised)
    ensures y != x && KeyOf(y) == KeyOf(x)
  {
    if !NoSlash(x.head) {
      var i := SplitAtSlash(x.head);
      ShiftedKey(x.head[..i], x.head[i + 1..], x.safe, x.finalised);
      y := Hashes(x.head[..i], x.head[i + 1..], x.safe + "/" + x.finalised);
    } else if !NoSlash(x.safe) {
      var i := SplitAtSlash(x.safe);
      ShiftedKey(x.head, x.safe[..i], x.safe[i + 1..], x.finalised);
      y := Hashes(x.head, x.safe[..i], x.safe[i + 1..] + "/" + x.finalised);
    } else {
      var i := SplitAtSlash(x.finalised);
      ShiftedKey(x.head, x.safe, x.finalised[..i], x.finalised[i + 1..]);
      y := Hashes(x.head + "/" + x.safe, x.finalised[..i], x.finalised[i + 1..]);
      assert |y.head| != |x.head|;
    }
  }

  /** A key read back: two components up to the first two slashes, which are all its slashes. */
  lemma {:induction false} NoOtherReading(x: Hashes, y: Hashes)
    requires NoSlash(x.head) && NoSlash(x.safe) && NoSlash(x.finalised) && KeyOf(y) == KeyOf(x)
    ensures NoSlash(y.head) && NoSlash(y.safe)
  {
    var k := KeyOf(x);
    assert forall i :: 0 <= i < |k| && k[i] == '/' ==> i == |x.head| || i == |x.head| + 1 + |x.safe|;
    var l := KeyOf(y);
    assert l[|y.head|] == '/' && l[|y.head| + 1 + |y.safe|] == '/';
    forall i | 0 <= i < |y.head| ensures y.head[i] != '/' {
      assert l[i] == y.head[i];
    }
    forall i | 0 <= i < |y.safe| ensures y.safe[i] != '/' {
      assert l[|y.head| + 1 + i] == y.safe[i];
    }
  }

  /** The key stands for the update exactly when none of the three hashes contains a slash. */
  lemma {:induction false} KeyIdentifiesIffNoSlash(x: Hashes)
    ensures (forall y :: KeyOf(y) == KeyOf(x) ==> y == x)
        <==> NoSlash(x.head) && NoSlash(x.safe) && NoSlash(x.finalised)
  {
    if NoSlash(x.head) && NoSlash(x.safe) && NoSlash(x.finalised) {
      forall y | KeyOf(y) == KeyOf(x) ensures y == x {
        NoOtherReading(x, y);
        KeysTellUpdatesApart(x, y);
      }
    } else {
      var y := SlashesCollide(x);
    }
  }

  // ---------- what becomes of a suppressed update ----------

  /** A suppressed update, in every run of the proxy in which it arrives as event number `i`, with
      the answer `prepared`: the backend is never called for it; without chaos the client gets
      that answer; and it is offered to a peer only if its method is an extra mirrored one and no
      chaos error is drawn, and then it is, to every peer, once its handler is past mirroring. */
  lemma {:induction false} SuppressedStaysHere(
      cfg: Config, es: seq<S.Event>, i: nat, jrpcMethod: string, jrpcID: string,
      extraMirrored: set<string>, dice: Dice, prepared: Response, h: Host)
    requires S.Valid(cfg, Init(cfg), es) && i < |es| && h in cfg.hosts
    requires es[i] == Arrival(Suppression(jrpcMethod, jrpcID), extraMirrored, dice, prepared)
    ensures var s, id := After(cfg, Init(cfg), es), Arrivals(es[..i]);
            && id < |s.jobs| && h in s.peers
            && s.jobs[id].mode != Backend
            && (s.jobs[id].sent.Some? ==> Results(cfg, Init(cfg), es, id) == [s.jobs[id].sent.value])
            && (s.jobs[id].sent.Some? && !dice.Any() ==> s.jobs[id].sent.value == prepared)
            && (id in OffersTo(es, h) ==> jrpcMethod in extraMirrored && !dice.Any())
            && (jrpcMethod in extraMirrored && !dice.Any() && Stage(s.jobs[id].pc) >= 2 ==> id in OffersTo(es, h))
  {
    ServedAsTriaged(cfg, es, i, Suppression(jrpcMethod, jrpcID), extraMirrored, dice, prepared, h);
  }
}
