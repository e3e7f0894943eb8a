/** Triage of RPC calls, single and batched. */
module Rpc {
  import opened Wrappers
  import opened Jobs

  datatype Tx = Tx(from: string, to: Option<string>, hash: string, nonce: nat)

  /** A decoded call; `tx` is the transaction in its parameters, if they decode to one. */
  datatype Call = Call(jrpcMethod: string, id: string, tx: Option<Tx>)

  const RAW := "eth_sendRawTransaction"
  const BUNDLE := "eth_sendBundle"
  const QUOTE := "tee_getDcapQuote"

  /** Decoding refuses every method but the exact one. */
  function Decode(c: Call): Option<Tx> {
    if c.jrpcMethod != RAW then None else c.tx
  }

  function HasPrefix(s: string, prefix: string): bool {
    prefix <= s
  }

  /** `intercepted` calls are answered by the proxy itself. */
  function TriageSingle(c: Call): (r: (Triaged<Tx>, bool)) {
    var m := c.jrpcMethod;
    if m == QUOTE then (Triaged(false, false, false, m, c.id, []), true)
    else if HasPrefix(m, RAW) then
      var txs := if Decode(c).Some? then [Decode(c).value] else [];
      (Triaged(true, true, true, m, c.id, txs), false)
    else if HasPrefix(m, BUNDLE) then (Triaged(true, true, true, m, c.id, []), false)
    else (Triaged(true, false, false, m, c.id, []), false)
  }

  function Decimal(n: nat): string {
    if n < 10 then [(n as char + '0')] else Decimal(n / 10) + Decimal(n % 10)
  }

  function Gather<A, B>(f: A -> seq<B>, xs: seq<A>): seq<B> {
    if |xs| == 0 then [] else Gather(f, xs[..|xs| - 1]) + f(xs[|xs| - 1])
  }

  /** The transactions of the members, each triaged alone, in order. */
  function TransactionsOf(batch: seq<Call>): seq<Tx> {
    Gather(TransactionsOfOne, batch)
  }

  function TransactionsOfOne(c: Call): seq<Tx> {
    TriageSingle(c).0.transactions
  }

  method MapHasKeyWithPrefix(m: set<string>, prefix: string) returns (found: bool)
    ensures found <==> exists k :: k in m && HasPrefix(k, prefix)
  {
    var todo := m;
    while todo != {}
      invariant todo <= m
      invariant forall k :: k in m && k !in todo ==> !HasPrefix(k, prefix)
      decreases |todo|
    {
      var key :| key in todo;
      if HasPrefix(key, prefix) {
        return true;
      }
      todo := todo - {key};
    }
    return false;
  }

  /** Batch triage is the join of single triage: mirrored and prioritised when some member
      would be, with the transactions of all members in order. It is proxied unless empty, which
      is not a join: of quote requests only, none would be proxied alone. */
  method TriageBatch(batch: seq<Call>) returns (r: Triaged<Tx>)
    ensures r.mirror <==> exists i :: 0 <= i < |batch| && TriageSingle(batch[i]).0.mirror
    ensures r.prioritise <==> exists i :: 0 <= i < |batch| && TriageSingle(batch[i]).0.prioritise
    ensures r.transactions == TransactionsOf(batch)
    ensures r.proxy <==> |batch| > 0
    ensures (r.proxy <==> exists i :: 0 <= i < |batch| && TriageSingle(batch[i]).0.proxy)
        <==> (|batch| == 0 || exists i :: 0 <= i < |batch| && batch[i].jrpcMethod != QUOTE)
    ensures r.jrpcMethod == if |batch| == 0 then "" else "batch(" + Decimal(|batch|) + ")"
    ensures r.jrpcID == if |batch| == 0 then "" else batch[0].id
  {
    if |batch| == 0 {
      return Triaged(false, false, false, "", "", []);
    }
    ProxiedMembers(batch);
    var methods: set<string> := {};
    for i := 0 to |batch|
      invariant forall m :: m in methods <==> exists k :: 0 <= k < i && batch[k].jrpcMethod == m
    {
      methods := methods + {batch[i].jrpcMethod};
    }
    var name := "batch(" + Decimal(|batch|) + ")";
    var raw := MapHasKeyWithPrefix(methods, RAW);
    var bundle := MapHasKeyWithPrefix(methods, BUNDLE);
    SomePrefix(batch, methods, RAW);
    SomePrefix(batch, methods, BUNDLE);
    MirroredMembers(batch);
    if raw {
      var txs := CollectTransactions(batch);
      return Triaged(true, true, true, name, batch[0].id, txs);
    }
    NoRawNoTransactions(batch);
    if bundle {
      return Triaged(true, true, true, name, batch[0].id, []);
    }
    return Triaged(true, false, false, name, batch[0].id, []);
  }

  /** The second loop of batch triage, which looks only at the exact method. */
  method CollectTransactions(batch: seq<Call>) returns (txs: seq<Tx>)
    ensures txs == TransactionsOf(batch)
  {
    txs := [];
    for i := 0 to |batch|
      invariant txs == TransactionsOf(batch[..i])
    {
      assert batch[..i + 1][..i] == batch[..i];
      if batch[i].jrpcMethod != RAW {
        continue;
      }
      var tx := Decode(batch[i]);
      if tx.Some? {
        txs := txs + [tx.value];
      }
    }
    assert batch[..|batch|] == batch;
  }

  ghost predicate Has(batch: seq<Call>, prefix: string) {
    exists i :: 0 <= i < |batch| && HasPrefix(batch[i].jrpcMethod, prefix)
  }

  lemma {:induction false} SomePrefix(batch: seq<Call>, methods: set<string>, prefix: string)
    requires forall m :: m in methods <==> exists k :: 0 <= k < |batch| && batch[k].jrpcMethod == m
    ensures (exists m :: m in methods && HasPrefix(m, prefix)) <==> Has(batch, prefix)
  {
    if Has(batch, prefix) {
      var i :| 0 <= i < |batch| && HasPrefix(batch[i].jrpcMethod, prefix);
      assert batch[i].jrpcMethod in methods;
    }
  }

  /** A member is mirrored, and prioritised, exactly when it sends a transaction or a bundle. */
  lemma {:induction false} MirroredMembers(batch: seq<Call>)
    ensures Has(batch, RAW) || Has(batch, BUNDLE)
        <==> exists i :: 0 <= i < |batch| && TriageSingle(batch[i]).0.mirror
    ensures forall i :: 0 <= i < |batch| ==> TriageSingle(batch[i]).0.mirror == TriageSingle(batch[i]).0.prioritise
  {
    assert !HasPrefix(QUOTE, RAW) by {
      assert QUOTE[0] != RAW[0];
    }
    assert !HasPrefix(QUOTE, BUNDLE) by {
      assert QUOTE[0] != BUNDLE[0];
    }
    if i :| 0 <= i < |batch| && HasPrefix(batch[i].jrpcMethod, RAW) {
      assert TriageSingle(batch[i]).0.mirror;
    }
    if i :| 0 <= i < |batch| && HasPrefix(batch[i].jrpcMethod, BUNDLE) {
      assert TriageSingle(batch[i]).0.mirror;
    }
    if i :| 0 <= i < |batch| && TriageSingle(batch[i]).0.mirror {
      assert HasPrefix(batch[i].jrpcMethod, RAW) || HasPrefix(batch[i].jrpcMethod, BUNDLE);
    }
  }

  lemma {:induction false} NoRawNoTransactions(batch: seq<Call>)
    ensures !Has(batch, RAW) ==> TransactionsOf(batch) == []
  {
    if |batch| > 0 && !Has(batch, RAW) {
      var n := |batch| - 1;
      NoRawNoTransactions(batch[..n]);
      assert !HasPrefix(batch[n].jrpcMethod, RAW);
    }
  }

  lemma {:induction false} GatherParts<A, B>(f: A -> seq<B>, xs: seq<A>, ys: seq<A>)
    ensures Gather(f, xs + ys) == Gather(f, xs) + Gather(f, ys)
    decreases |ys|
  {
    if |ys| == 0 {
      assert xs + ys == xs;
    } else {
      var n := |ys| - 1;
      GatherParts(f, xs, ys[..n]);
      assert (xs + ys)[..|xs| + n] == xs + ys[..n];
    }
  }

  /** Splitting a batch changes nothing in its transactions. */
  lemma {:induction false} TransactionsOfParts(a: seq<Call>, b: seq<Call>)
    ensures TransactionsOf(a + b) == TransactionsOf(a) + TransactionsOf(b)
  {
    GatherParts(TransactionsOfOne, a, b);
  }

  /** Some member would be proxied exactly when not all are quote requests. */
  lemma {:induction false} ProxiedMembers(batch: seq<Call>)
    ensures (exists i :: 0 <= i < |batch| && TriageSingle(batch[i]).0.proxy)
        <==> (exists i :: 0 <= i < |batch| && batch[i].jrpcMethod != QUOTE)
  {
    if i :| 0 <= i < |batch| && batch[i].jrpcMethod != QUOTE {
      assert TriageSingle(batch[i]).0.proxy;
    }
  }

  /** The transactions of a batch, in terms of methods and parameters: those that are in the
      parameters of a call of exactly `eth_sendRawTransaction`, in order. `at` lists these calls. */
  lemma {:induction false} TransactionsAreTheDecoded(batch: seq<Call>) returns (at: seq<nat>)
    ensures |TransactionsOf(batch)| == |at|
    ensures forall k :: 0 <= k < |at| ==>
              at[k] < |batch| && batch[at[k]].tx == Some(TransactionsOf(batch)[k])
    ensures forall k, l :: 0 <= k < l < |at| ==> at[k] < at[l]
    ensures forall i: nat :: i < |batch| ==>
              (i in at <==> batch[i].jrpcMethod == "eth_sendRawTransaction" && batch[i].tx.Some?)
  {
    if |batch| == 0 {
      at := [];
    } else {
      var n := |batch| - 1;
      var init := TransactionsAreTheDecoded(batch[..n]);
      OneTransaction(batch[n]);
      assert forall i: nat :: i < n ==> batch[..n][i] == batch[i];
      assert n !in init;
      if TransactionsOfOne(batch[n]) == [] {
        at := init;
      } else {
        at := init + [n];
        assert at[|init|] == n;
      }
    }
  }

  lemma {:induction false} OneTransaction(c: Call)
    ensures if c.jrpcMethod == "eth_sendRawTransaction" && c.tx.Some? then TransactionsOfOne(c) == [c.tx.value]
            else TransactionsOfOne(c) == []
  {
    assert !HasPrefix(QUOTE, RAW) by {
      assert QUOTE[0] != RAW[0];
    }
    assert c.jrpcMethod == RAW ==> HasPrefix(c.jrpcMethod, RAW);
  }

  /** Which calls are mirrored, prioritised and proxied, in terms of their methods. */
  lemma {:induction false} MethodsDecide(c: Call)
    ensures var r := TriageSingle(c).0;
            && (r.mirror <==> "eth_sendRawTransaction" <= c.jrpcMethod || "eth_sendBundle" <= c.jrpcMethod)
            && (r.prioritise <==> "eth_sendRawTransaction" <= c.jrpcMethod || "eth_sendBundle" <= c.jrpcMethod)
            && (r.proxy <==> c.jrpcMethod != "tee_getDcapQuote")
            && (TriageSingle(c).1 <==> c.jrpcMethod == "tee_getDcapQuote")
            && r.jrpcMethod == c.jrpcMethod && r.jrpcID == c.id
  {
    assert !HasPrefix(QUOTE, RAW) by {
      assert QUOTE[0] != RAW[0];
    }
    assert !HasPrefix(QUOTE, BUNDLE) by {
      assert QUOTE[0] != BUNDLE[0];
    }
  }

  /** The number that a string of decimal digits denotes. */
  function Denoted(s: string): int {
    if |s| == 0 then 0 else 10 * Denoted(s[..|s| - 1]) + (s[|s| - 1] as int - '0' as int)
  }

  lemma {:induction false} DecimalDenotes(n: nat)
    ensures Denoted(Decimal(n)) == n && |Decimal(n)| > 0
    ensures forall k :: 0 <= k < |Decimal(n)| ==> '0' <= Decimal(n)[k] <= '9'
    ensures |Decimal(n)| > 1 ==> Decimal(n)[0] != '0'
    decreases n
  {
    if n < 10 {
      assert Decimal(n)[..0] == "";
    } else {
      DecimalDenotes(n / 10);
      var s := Decimal(n);
      assert Decimal(n % 10) == [(n % 10) as char + '0'];
      assert s[..|s| - 1] == Decimal(n / 10);
      if |Decimal(n / 10)| == 1 {
        assert Denoted(Decimal(n / 10)[..0]) == 0;
      }
    }
  }
}
