/** Comparisons of address lists. */
module Utils {

  /** An address, by its text form, and whether it is a loopback address. */
  datatype IP = IP(text: string, loopback: bool)

  ghost function Texts(ips: seq<IP>): set<string> {
    set i | 0 <= i < |ips| :: ips[i].text
  }

  ghost predicate NoRepeats(ips: seq<IP>) {
    forall i, j :: 0 <= i < j < |ips| ==> ips[i].text != ips[j].text
  }

  ghost predicate Match(l: seq<IP>, r: seq<IP>) {
    |l| == |r| && Texts(r) <= Texts(l)
  }

  ghost predicate Overlap(l: seq<IP>, r: seq<IP>) {
    Texts(l) * Texts(r) != {}
  }

  ghost predicate AllLoopback(ips: seq<IP>) {
    forall i :: 0 <= i < |ips| ==> ips[i].loopback
  }

  method IPsMatch(l: seq<IP>, r: seq<IP>) returns (m: bool)
    ensures m <==> Match(l, r)
  {
    if |l| != |r| {
      return false;
    }
    var ips := Collect(l);
    for i := 0 to |r|
      invariant forall k :: 0 <= k < i ==> r[k].text in ips
    {
      if r[i].text !in ips {
        assert r[i].text in Texts(r);
        return false;
      }
    }
    return true;
  }

  method IPsOverlap(l: seq<IP>, r: seq<IP>) returns (m: bool)
    ensures m <==> Overlap(l, r)
  {
    if |l| == 0 || |r| == 0 {
      return false;
    }
    var ips := Collect(l);
    for i := 0 to |r|
      invariant forall k :: 0 <= k < i ==> r[k].text !in ips
    {
      if r[i].text in ips {
        assert r[i].text in Texts(l) * Texts(r);
        return true;
      }
    }
    return false;
  }

  method IsLoopback(ips: seq<IP>) returns (m: bool)
    ensures m <==> AllLoopback(ips)
  {
    for i := 0 to |ips|
      invariant forall k :: 0 <= k < i ==> ips[k].loopback
    {
      if !ips[i].loopback {
        return false;
      }
    }
    return true;
  }

  method Collect(l: seq<IP>) returns (ips: set<string>)
    ensures ips == Texts(l)
  {
    ips := {};
    for i := 0 to |l|
      invariant ips == set k | 0 <= k < i :: l[k].text
    {
      ips := ips + {l[i].text};
    }
  }

  /** Some entries have the same text. */
  ghost predicate Share(l: seq<IP>, r: seq<IP>) {
    exists i, j :: 0 <= i < |l| && 0 <= j < |r| && l[i].text == r[j].text
  }

  lemma {:induction false} OverlapIsSharing(l: seq<IP>, r: seq<IP>)
    ensures Overlap(l, r) <==> Share(l, r)
  {
    if Overlap(l, r) {
      var t :| t in Texts(l) * Texts(r);
      assert t in Texts(l) && t in Texts(r);
      var i :| 0 <= i < |l| && l[i].text == t;
      var j :| 0 <= j < |r| && r[j].text == t;
      assert l[i].text == r[j].text;
    }
    if Share(l, r) {
      var i, j :| 0 <= i < |l| && 0 <= j < |r| && l[i].text == r[j].text;
      assert l[i].text in Texts(l) * Texts(r);
    }
  }

  // ---------- when matching means equality ----------

  lemma {:induction false} TextsSnoc(ips: seq<IP>)
    requires |ips| > 0
    ensures Texts(ips) == Texts(ips[..|ips| - 1]) + {ips[|ips| - 1].text}
  {
    var n := |ips| - 1;
    forall t | t in Texts(ips) ensures t in Texts(ips[..n]) + {ips[n].text} {
      var i :| 0 <= i < |ips| && ips[i].text == t;
      assert i < n ==> ips[..n][i].text == t;
    }
    forall t | t in Texts(ips[..n]) ensures t in Texts(ips) {
      var i :| 0 <= i < n && ips[..n][i].text == t;
      assert ips[i].text == t;
    }
  }

  lemma {:induction false} LastIsNew(ips: seq<IP>)
    requires |ips| > 0 && NoRepeats(ips)
    ensures NoRepeats(ips[..|ips| - 1]) && ips[|ips| - 1].text !in Texts(ips[..|ips| - 1])
  {
    var n := |ips| - 1;
    forall t | t in Texts(ips[..n]) ensures t != ips[n].text {
      var i :| 0 <= i < n && ips[..n][i].text == t;
      assert ips[i].text == t;
    }
  }

  /** Pigeonhole: a list has at most as many texts as entries, and as many exactly when no text
      repeats. */
  lemma {:induction false} TextsCount(ips: seq<IP>)
    ensures |Texts(ips)| <= |ips|
    ensures |Texts(ips)| == |ips| <==> NoRepeats(ips)
  {
    if |ips| > 0 {
      var n := |ips| - 1;
      TextsCount(ips[..n]);
      TextsSnoc(ips);
      if NoRepeats(ips) {
        LastIsNew(ips);
      } else if |Texts(ips)| == |ips| {
        LastWasThere(ips);
      }
    }
  }

  lemma {:induction false} LastWasThere(ips: seq<IP>)
    requires |ips| > 0 && !NoRepeats(ips) && NoRepeats(ips[..|ips| - 1])
    ensures ips[|ips| - 1].text in Texts(ips[..|ips| - 1])
  {
    var n := |ips| - 1;
    var i, j :| 0 <= i < j < |ips| && ips[i].text == ips[j].text;
    assert ips[..n][i].text == ips[n].text;
  }

  lemma {:induction false} SubsetOfSameSize<T>(a: set<T>, b: set<T>)
    requires a <= b && |b| <= |a|
    ensures a == b
  {
    var rest := b - a;
    assert b == a + rest;
    assert |b| == |a| + |rest|;
  }

  lemma {:induction false} MatchIsEquality(l: seq<IP>, r: seq<IP>)
    requires NoRepeats(r)
    ensures Match(l, r) <==> |l| == |r| && Texts(l) == Texts(r)
  {
    TextsCount(l);
    TextsCount(r);
    if Match(l, r) {
      SubsetOfSameSize(Texts(r), Texts(l));
    }
  }

  /** Between lists without repeats, matching is equality of the sets of addresses. */
  lemma {:induction false} MatchIsSetEquality(l: seq<IP>, r: seq<IP>)
    requires NoRepeats(l) && NoRepeats(r)
    ensures Match(l, r) <==> Texts(l) == Texts(r)
  {
    TextsCount(l);
    TextsCount(r);
    MatchIsEquality(l, r);
  }

  /** The same addresses, each once. */
  function Distinct(ips: seq<IP>): (d: seq<IP>)
    ensures NoRepeats(d) && Texts(d) == Texts(ips)
  {
    if |ips| == 0 then []
    else
      var n := |ips| - 1;
      var d := Distinct(ips[..n]);
      TextsSnoc(ips);
      if exists i :: 0 <= i < |d| && d[i].text == ips[n].text then d
      else
        TextsSnoc(d + [ips[n]]);
        assert (d + [ips[n]])[..|d|] == d;
        d + [ips[n]]
  }

  /** For a list `r`, matching is equality of the sets of addresses with every list without
      repeats exactly when `r` has none either: a list with repeats does not match its own
      distinct addresses. */
  lemma {:induction false} MatchIsSetEqualityIffNoRepeats(r: seq<IP>)
    ensures (forall l :: NoRepeats(l) ==> (Match(l, r) <==> Texts(l) == Texts(r))) <==> NoRepeats(r)
  {
    if NoRepeats(r) {
      forall l | NoRepeats(l) ensures Match(l, r) <==> Texts(l) == Texts(r) {
        MatchIsSetEquality(l, r);
      }
    } else {
      var l := Distinct(r);
      TextsCount(l);
      TextsCount(r);
      assert NoRepeats(l) && Texts(l) == Texts(r) && !Match(l, r);
    }
  }

  /** A list with repeats matches one that has another address in place of a repeated one. */
  lemma {:induction false} RepeatsBreakMatch(r: seq<IP>, other: IP) returns (l: seq<IP>)
    requires !NoRepeats(r) && other.text !in Texts(r)
    ensures Match(l, r) && Texts(l) != Texts(r)
    ensures forall k :: 0 <= k < |l| ==> l[k] == other || l[k] == r[k]
  {
    var i, j :| 0 <= i < j < |r| && r[i].text == r[j].text;
    l := r[j := other];
    forall s | s in Texts(r) ensures s in Texts(l) {
      var k :| 0 <= k < |r| && r[k].text == s;
      var k' := if k == j then i else k;
      assert l[k'].text == s;
    }
    assert l[j].text == other.text && other.text in Texts(l);
  }

  /** A list that misses some address guarantees that whatever matches it has the same addresses
      exactly when it does not repeat one. */
  lemma {:induction false} MatchMeansEqualityIffNoRepeats(r: seq<IP>, other: IP)
    requires other.text !in Texts(r)
    ensures (forall l :: Match(l, r) ==> Texts(l) == Texts(r)) <==> NoRepeats(r)
  {
    if NoRepeats(r) {
      forall l | Match(l, r) ensures Texts(l) == Texts(r) {
        MatchIsEquality(l, r);
      }
    } else {
      var l := RepeatsBreakMatch(r, other);
    }
  }

  /** For such a list, matching is symmetric exactly when it does not repeat an address. */
  lemma {:induction false} MatchIsSymmetricIffNoRepeats(r: seq<IP>, other: IP)
    requires other.text !in Texts(r)
    ensures (forall l :: Match(l, r) ==> Match(r, l)) <==> NoRepeats(r)
  {
    forall l | Match(l, r) ensures Match(r, l) <==> Texts(l) == Texts(r) {
    }
    MatchMeansEqualityIffNoRepeats(r, other);
  }

  /** Matching is not symmetric once addresses repeat. */
  lemma {:induction false} RepeatsBreakSymmetry(a: IP, b: IP)
    requires a.text != b.text
    ensures Match([a, b], [a, a]) && !Match([a, a], [a, b])
  {
    var x, y := [a, b], [a, a];
    assert x[0].text in Texts(x) && x[1].text in Texts(x);
  }
}
