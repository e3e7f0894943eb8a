/** The validation of the peer list of an HTTP proxy: peers that cannot be used, or that are the
    backend itself, are removed from the list in place. */
module PeerFilter {
  import opened Wrappers
  import opened Utils

  /** `host` is the host with the port, `hostname` the host without it. */
  datatype Url = Url(host: string, hostname: string, port: string)

  /** Asking for a name. The network can answer differently every time, so questions are numbered:
      `0` for the backend, and `i + 1` for the peer in slot `i`. */
  type Lookup = (nat, string) -> Option<seq<IP>>

  /** Parsing and the network, as one validation finds them. */
  datatype World = World(parse: string -> Option<Url>, lookup: Lookup, localIPs: Option<seq<IP>>) {
    /** The network gives the same answer whenever it is asked. */
    ghost predicate Stable() {
      forall i, host :: lookup(i, host) == lookup(0, host)
    }
  }

  datatype Problem = NoLocalIPs | NoBackendIPs | BadPeer(url: string)

  /** A backend URL that does not parse is dereferenced all the same. */
  datatype Outcome = Panicked | Validated(problems: seq<Problem>)

  datatype Verdict = Malformed | Dropped | Kept

  function IPsOf(o: Option<seq<IP>>): seq<IP> {
    if o.Some? then o.value else []
  }

  /** What becomes of the peer in slot `i`. */
  ghost function Judge(w: World, remove: bool, backend: Url, i: nat, p: string): Verdict {
    var peer := (w.parse)(p);
    if peer.None? then Malformed
    else
      var peerIPs := (w.lookup)(i + 1, peer.value.hostname);
      var backendIPs := IPsOf((w.lookup)(0, backend.hostname));
      if peerIPs.None? then Dropped
      else if remove && IsBackend(backend, backendIPs, IPsOf(w.localIPs), peer.value, peerIPs.value) then Dropped
      else Kept
  }

  /** The same host, or the same port and: the same addresses, or two loopbacks, or a loopback
      backend and a peer on this machine. */
  ghost predicate IsBackend(backend: Url, backendIPs: seq<IP>, localIPs: seq<IP>, peer: Url, peerIPs: seq<IP>) {
    || peer.host == backend.host
    || (peer.port == backend.port
        && (|| Match(peerIPs, backendIPs)
            || (AllLoopback(backendIPs) && (AllLoopback(peerIPs) || Overlap(peerIPs, localIPs)))))
  }

  ghost function KeptOf(w: World, remove: bool, backend: Url, ps: seq<string>): seq<string> {
    if |ps| == 0 then []
    else
      var n := |ps| - 1;
      KeptOf(w, remove, backend, ps[..n]) + (if Judge(w, remove, backend, n, ps[n]).Kept? then [ps[n]] else [])
  }

  ghost function ProblemsOf(w: World, ps: seq<string>): seq<Problem> {
    if |ps| == 0 then []
    else
      var n := |ps| - 1;
      ProblemsOf(w, ps[..n]) + (if (w.parse)(ps[n]).None? then [BadPeer(ps[n])] else [])
  }

  function BackendProblems(w: World, remove: bool, backend: Url): seq<Problem> {
    (if remove && w.localIPs.None? then [NoLocalIPs] else [])
    + (if (w.lookup)(0, backend.hostname).None? then [NoBackendIPs] else [])
  }

  method IsTheBackend(backend: Url, backendIPs: seq<IP>, localIPs: seq<IP>, peer: Url, peerIPs: seq<IP>)
    returns (b: bool)
    ensures b <==> IsBackend(backend, backendIPs, localIPs, peer, peerIPs)
  {
    if peer.host == backend.host {
      return true;
    }
    var sameIPs := IPsMatch(peerIPs, backendIPs);
    if peer.port == backend.port && sameIPs {
      return true;
    }
    var backendLoops := IsLoopback(backendIPs);
    var peerLoops := IsLoopback(peerIPs);
    if peer.port == backend.port && backendLoops && peerLoops {
      return true;
    }
    var overlap := IPsOverlap(peerIPs, localIPs);
    return peer.port == backend.port && backendLoops && overlap;
  }

  /** The decision about the peer in slot `i`. */
  method Decide(w: World, remove: bool, backend: Url, backendIPs: seq<IP>, i: nat, p: string) returns (v: Verdict)
    requires backendIPs == IPsOf((w.lookup)(0, backend.hostname))
    ensures v == Judge(w, remove, backend, i, p)
  {
    var peer := (w.parse)(p);
    if peer.None? {
      return Malformed;
    }
    var peerIPs := (w.lookup)(i + 1, peer.value.hostname);
    if peerIPs.None? {
      return Dropped;
    }
    if remove {
      var drop := IsTheBackend(backend, backendIPs, IPsOf(w.localIPs), peer.value, peerIPs.value);
      if drop {
        return Dropped;
      }
    }
    return Kept;
  }

  /** Every problem, and only these: no local addresses where they are needed, a backend that does
      not resolve, and each peer that does not parse. */
  lemma {:induction false} ProblemsMean(w: World, remove: bool, backend: Url, ps: seq<string>, x: Problem)
    ensures x in BackendProblems(w, remove, backend) + ProblemsOf(w, ps) <==>
              match x
              case NoLocalIPs => remove && w.localIPs.None?
              case NoBackendIPs => (w.lookup)(0, backend.hostname).None?
              case BadPeer(p) => p in ps && (w.parse)(p).None?
  {
    if |ps| > 0 {
      var n := |ps| - 1;
      ProblemsMean(w, remove, backend, ps[..n], x);
      assert ps == ps[..n] + [ps[n]];
    }
  }

  lemma {:induction false} FilterSnoc(w: World, remove: bool, backend: Url, ps: seq<string>, p: string)
    ensures KeptOf(w, remove, backend, ps + [p])
         == KeptOf(w, remove, backend, ps) + (if Judge(w, remove, backend, |ps|, p).Kept? then [p] else [])
    ensures ProblemsOf(w, ps + [p])
         == ProblemsOf(w, ps) + (if Judge(w, remove, backend, |ps|, p).Malformed? then [BadPeer(p)] else [])
  {
    assert (ps + [p])[..|ps|] == ps;
  }

  /** The loop with a read and a write index over the first `count` slots of one array. */
  method Filter(w: World, remove: bool, backend: Url, backendIPs: seq<IP>, peers: array<string>, count: nat)
    returns (problems: seq<Problem>, idx: nat)
    requires backendIPs == IPsOf((w.lookup)(0, backend.hostname)) && count <= peers.Length
    modifies peers
    ensures idx <= count && peers[count..] == old(peers[count..])
    ensures peers[..idx] == KeptOf(w, remove, backend, old(peers[..count]))
    ensures problems == ProblemsOf(w, old(peers[..count]))
  {
    ghost var was := peers[..count];
    problems, idx := [], 0;
    for i := 0 to count
      invariant idx <= i
      invariant peers[i..] == old(peers[i..])
      invariant peers[..idx] == KeptOf(w, remove, backend, was[..i])
      invariant problems == ProblemsOf(w, was[..i])
    {
      var p := peers[i];
      assert was[..i + 1] == was[..i] + [p];
      FilterSnoc(w, remove, backend, was[..i], p);
      var verdict := Decide(w, remove, backend, backendIPs, i, p);
      if verdict.Malformed? {
        problems := problems + [BadPeer(p)];
      }
      if verdict.Kept? {
        idx := Keep(peers, idx, p, i);
      } else {
        assert KeptOf(w, remove, backend, was[..i]) + [] == KeptOf(w, remove, backend, was[..i]);
      }
    }
    assert was[..count] == was;
  }

  /** Write a peer read from slot `i` to the slot of the write index. */
  method Keep(peers: array<string>, idx: nat, p: string, ghost i: nat) returns (next: nat)
    requires idx <= i < peers.Length
    modifies peers
    ensures next == idx + 1
    ensures peers[..next] == old(peers[..idx]) + [p] && peers[i + 1..] == old(peers[i + 1..])
  {
    peers[idx] := p;
    next := idx + 1;
  }

  /** The check of the backend and of the peers. */
  method Validate(w: World, remove: bool, backendURL: string, peers: array<string>, count: nat)
    returns (outcome: Outcome, n: nat)
    requires count <= peers.Length
    modifies peers
    ensures n <= count && peers[count..] == old(peers[count..])
    ensures (w.parse)(backendURL).None? ==> outcome == Panicked && n == count && peers[..] == old(peers[..])
    ensures (w.parse)(backendURL).Some? ==>
              var b := (w.parse)(backendURL).value;
              && peers[..n] == KeptOf(w, remove, b, old(peers[..count]))
              && outcome == Validated(BackendProblems(w, remove, b) + ProblemsOf(w, old(peers[..count])))
  {
    var problems: seq<Problem> := [];
    if remove && w.localIPs.None? {
      problems := problems + [NoLocalIPs];
    }
    var backend := (w.parse)(backendURL);
    if backend.None? {
      return Panicked, count;
    }
    var backendIPs := (w.lookup)(0, backend.value.hostname);
    if backendIPs.None? {
      problems := problems + [NoBackendIPs];
    }
    var peerProblems;
    peerProblems, n := Filter(w, remove, backend.value, IPsOf(backendIPs), peers, count);
    outcome := Validated(problems + peerProblems);
  }

  // ---------- what the filter does ----------

  /** Which peers are kept, in terms of hosts, ports and addresses: without the removal of the
      backend, those that parse and resolve; with it, of these only the ones on another host that
      are on another port, or whose addresses differ from those of the backend and, if all of these
      are loopbacks, are neither all loopbacks nor shared with this machine. */
  lemma {:induction false} KeptIff(w: World, remove: bool, backend: Url, i: nat, p: string)
    ensures Judge(w, remove, backend, i, p).Malformed? <==> (w.parse)(p).None?
    ensures (w.parse)(p).Some? ==>
              var peer := (w.parse)(p).value;
              var (answer, own) := ((w.lookup)(i + 1, peer.hostname), IPsOf((w.lookup)(0, backend.hostname)));
              var verdict := Judge(w, remove, backend, i, p);
              && (answer.None? ==> verdict.Dropped?)
              && (answer.Some? && !remove ==> verdict.Kept?)
              && (answer.Some? && remove && NoRepeats(answer.value) && NoRepeats(own) ==>
                    (verdict.Kept? <==>
                       && peer.host != backend.host
                       && (|| peer.port != backend.port
                           || (&& Texts(answer.value) != Texts(own)
                               && (|| (exists k :: 0 <= k < |own| && !own[k].loopback)
                                   || (&& (exists k :: 0 <= k < |answer.value| && !answer.value[k].loopback)
                                       && !Share(answer.value, IPsOf(w.localIPs))))))))
  {
    var peer := (w.parse)(p);
    if peer.Some? {
      var answer, own := (w.lookup)(i + 1, peer.value.hostname), IPsOf((w.lookup)(0, backend.hostname));
      if answer.Some? && NoRepeats(answer.value) && NoRepeats(own) {
        MatchIsSetEquality(answer.value, own);
        OverlapIsSharing(answer.value, IPsOf(w.localIPs));
      }
    }
  }

  /** With repeated addresses too, a peer on another host and another port than the backend's is
      kept, and a peer on the backend's host is dropped. */
  lemma {:induction false} HostsAndPortsDecide(w: World, backend: Url, i: nat, p: string)
    requires (w.parse)(p).Some? && (w.lookup)(i + 1, (w.parse)(p).value.hostname).Some?
    ensures var peer := (w.parse)(p).value;
            && (peer.host != backend.host && peer.port != backend.port ==> Judge(w, true, backend, i, p).Kept?)
            && (peer.host == backend.host ==> Judge(w, true, backend, i, p).Dropped?)
  {
  }

  /** `at` lists, in ascending order, exactly the slots of `ps` whose peers are kept, and `kept` is
      what is in them. */
  ghost predicate Selects(
      w: World, remove: bool, backend: Url, ps: seq<string>, kept: seq<string>, at: seq<nat>) {
    && |kept| == |at|
    && (forall k :: 0 <= k < |at| ==> at[k] < |ps| && kept[k] == ps[at[k]])
    && (forall k, l :: 0 <= k < l < |at| ==> at[k] < at[l])
    && (forall i: nat :: i < |ps| ==> (Judge(w, remove, backend, i, ps[i]).Kept? <==> i in at))
  }

  /** The kept peers stand in their original order, each slot judged by its own answer of the
      network, and nothing is invented, lost or repeated. */
  lemma {:induction false} KeptInOrder(w: World, remove: bool, backend: Url, ps: seq<string>) returns (at: seq<nat>)
    ensures Selects(w, remove, backend, ps, KeptOf(w, remove, backend, ps), at)
  {
    if |ps| == 0 {
      at := [];
    } else {
      var n := |ps| - 1;
      at := KeptInOrder(w, remove, backend, ps[..n]);
      SelectsMore(w, remove, backend, ps, KeptOf(w, remove, backend, ps[..n]), at);
      if Judge(w, remove, backend, n, ps[n]).Kept? {
        at := at + [n];
      }
    }
  }

  lemma {:induction false} SelectsMore(
      w: World, remove: bool, backend: Url, ps: seq<string>, kept: seq<string>, at: seq<nat>)
    requires |ps| > 0 && Selects(w, remove, backend, ps[..|ps| - 1], kept, at)
    ensures var n := |ps| - 1;
            if Judge(w, remove, backend, n, ps[n]).Kept?
            then Selects(w, remove, backend, ps, kept + [ps[n]], at + [n])
            else Selects(w, remove, backend, ps, kept, at)
  {
    var n := |ps| - 1;
    forall i: nat | i < n
      ensures Judge(w, remove, backend, i, ps[i]).Kept? <==> i in at
      ensures i in at <==> i in at + [n]
    {
      assert ps[..n][i] == ps[i];
    }
    assert n !in at;
    assert (at + [n])[|at|] == n;
  }

  /** On a stable network no copy of a peer is treated differently: all stay, or none. */
  lemma {:induction false} KeptExactly(w: World, remove: bool, backend: Url, ps: seq<string>, p: string)
    requires w.Stable()
    ensures multiset(KeptOf(w, remove, backend, ps))[p]
         == if Judge(w, remove, backend, 0, p).Kept? then multiset(ps)[p] else 0
  {
    if |ps| > 0 {
      var qs, q := ps[..|ps| - 1], ps[|ps| - 1];
      KeptExactly(w, remove, backend, qs, p);
      FilterSnoc(w, remove, backend, qs, q);
      JudgedAlike(w, remove, backend, |qs|, q);
      assert ps == qs + [q];
    }
  }

  lemma {:induction false} JudgedAlike(w: World, remove: bool, backend: Url, i: nat, p: string)
    requires w.Stable()
    ensures Judge(w, remove, backend, i, p) == Judge(w, remove, backend, 0, p)
  {
    var peer := (w.parse)(p);
    if peer.Some? {
      assert (w.lookup)(i + 1, peer.value.hostname) == (w.lookup)(0, peer.value.hostname);
      assert (w.lookup)(1, peer.value.hostname) == (w.lookup)(0, peer.value.hostname);
    }
  }

  /** Two passes, each with its own answers, keep the peers that both keep, in order. In the second
      pass a peer is in the slot to which the first one moved it. */
  ghost function KeptByBoth(w: World, w': World, remove: bool, backend: Url, ps: seq<string>): seq<string> {
    if |ps| == 0 then []
    else
      var n := |ps| - 1;
      var slot := |KeptOf(w, remove, backend, ps[..n])|;
      KeptByBoth(w, w', remove, backend, ps[..n])
      + (if Judge(w, remove, backend, n, ps[n]).Kept? && Judge(w', remove, backend, slot, ps[n]).Kept?
         then [ps[n]] else [])
  }

  lemma {:induction false} FilterTwice(w: World, w': World, remove: bool, backend: Url, ps: seq<string>)
    ensures KeptOf(w', remove, backend, KeptOf(w, remove, backend, ps)) == KeptByBoth(w, w', remove, backend, ps)
    ensures w.parse == w'.parse ==> ProblemsOf(w', KeptOf(w, remove, backend, ps)) == []
  {
    if |ps| > 0 {
      var qs, q := ps[..|ps| - 1], ps[|ps| - 1];
      var kept := KeptOf(w, remove, backend, qs);
      FilterTwice(w, w', remove, backend, qs);
      if Judge(w, remove, backend, |qs|, q).Kept? {
        FilterSnoc(w', remove, backend, kept, q);
      } else {
        assert KeptOf(w, remove, backend, ps) == kept;
      }
    }
  }

  lemma {:induction false} SecondPassIsIdle(w: World, remove: bool, backend: Url, ps: seq<string>)
    requires w.Stable()
    ensures KeptByBoth(w, w, remove, backend, ps) == KeptOf(w, remove, backend, ps)
  {
    if |ps| > 0 {
      var qs, q := ps[..|ps| - 1], ps[|ps| - 1];
      SecondPassIsIdle(w, remove, backend, qs);
      JudgedAlike(w, remove, backend, |qs|, q);
      JudgedAlike(w, remove, backend, |KeptOf(w, remove, backend, qs)|, q);
    }
  }

  /** Validation runs twice over the same configuration, once through the embedding struct and
      once through its field; only the network can answer differently the second time. The list
      ends up with the peers that both passes keep, and malformed peers are reported once. On a
      stable network the list is as after one pass. After a panic there is no second pass. */
  method ValidateTwice(
      w: World, lookup': Lookup, localIPs': Option<seq<IP>>,
      remove: bool, backendURL: string, peers: array<string>, count: nat)
    returns (first: Outcome, second: Outcome, n: nat)
    requires count <= peers.Length
    modifies peers
    ensures n <= count && peers[count..] == old(peers[count..])
    ensures (w.parse)(backendURL).None? ==>
              first == second == Panicked && n == count && peers[..] == old(peers[..])
    ensures (w.parse)(backendURL).Some? ==>
              var (w', b) := (World(w.parse, lookup', localIPs'), (w.parse)(backendURL).value);
              && peers[..n] == KeptByBoth(w, w', remove, b, old(peers[..count]))
              && first == Validated(BackendProblems(w, remove, b) + ProblemsOf(w, old(peers[..count])))
              && second == Validated(BackendProblems(w', remove, b))
              && (w == w' && w.Stable() ==> peers[..n] == KeptOf(w, remove, b, old(peers[..count])))
  {
    ghost var was := peers[..count];
    first, n := Validate(w, remove, backendURL, peers, count);
    if first.Panicked? {
      return first, first, n;
    }
    var w' := World(w.parse, lookup', localIPs');
    ghost var b := (w.parse)(backendURL).value;
    second, n := Validate(w', remove, backendURL, peers, n);
    FilterTwice(w, w', remove, b, was);
    if w == w' && w.Stable() {
      SecondPassIsIdle(w, remove, b, was);
    }
    assert BackendProblems(w', remove, b) + [] == BackendProblems(w', remove, b);
  }
}
