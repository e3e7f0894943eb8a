/** Replacing raw transactions by their hashes in a decoded JSON-RPC message, before it is
    logged. */
module Sanitizer {
  import opened Wrappers

  datatype Json =
    | Null
    | Bool(b: bool)
    | Num(text: string)
    | Str(s: string)
    | Arr(items: seq<Json>)
    | Obj(fields: map<string, Json>)

  /** What decoding a raw transaction gives: its hash, or an error text. */
  datatype Decoded = Hash(hex: string) | Error(text: string)

  type Decoder = string -> Decoded

  function Mask(d: Decoder, tx: Json): Json {
    match tx
    case Str(s) =>
      (match d(s)
       case Hash(h) => Str(h)
       case Error(e) => Str("[error decoding tx: " + e + "]"))
    case _ => Str("[error casting tx to string]")
  }

  function MaskAll(d: Decoder, txs: seq<Json>): seq<Json> {
    seq(|txs|, i requires 0 <= i < |txs| => Mask(d, txs[i]))
  }

  function SanitizeTransactions(d: Decoder, obj: map<string, Json>, key: string): map<string, Json> {
    if key in obj && obj[key].Arr? then obj[key := Arr(MaskAll(d, obj[key].items))] else obj
  }

  function MethodOf(m: map<string, Json>): string {
    if "method" in m && m["method"].Str? then m["method"].s else ""
  }

  /** Sanitize the object at one position of the parameters, if it is there. */
  function SanitizeParam(d: Decoder, params: seq<Json>, i: nat, key: string): seq<Json> {
    if i < |params| && params[i].Obj? then params[i := Obj(SanitizeTransactions(d, params[i].fields, key))] else params
  }

  function SanitizeParams(d: Decoder, name: string, params: seq<Json>): seq<Json> {
    if name == "engine_forkchoiceUpdatedV3" then SanitizeParam(d, params, 1, "transactions")
    else if name == "engine_newPayloadV4" then SanitizeParam(d, params, 0, "transactions")
    else if name == "eth_sendBundle" then SanitizeParam(d, params, 0, "txs")
    else if name == "eth_sendRawTransaction" then MaskAll(d, params)
    else params
  }

  function SanitizeResult(d: Decoder, r: map<string, Json>): map<string, Json> {
    if "executionPayload" in r && r["executionPayload"].Obj?
    then r["executionPayload" := Obj(SanitizeTransactions(d, r["executionPayload"].fields, "transactions"))]
    else r
  }

  function SanitizeMessage(d: Decoder, m: map<string, Json>): map<string, Json> {
    var name := MethodOf(m);
    if name != "" then
      if "params" in m && m["params"].Arr? then m["params" := Arr(SanitizeParams(d, name, m["params"].items))] else m
    else if "result" in m && m["result"].Obj? then m["result" := Obj(SanitizeResult(d, m["result"].fields))]
    else m
  }

  function Sanitize(d: Decoder, j: Json): Json {
    match j
    case Arr(items) => Arr(seq(|items|, i requires 0 <= i < |items| => Sanitize(d, items[i])))
    case Obj(m) => Obj(SanitizeMessage(d, m))
    case _ => j
  }

  // ---------- paths ----------

  datatype Step = At(i: nat) | Field(k: string)

  type Path = seq<Step>

  function Child(j: Json, s: Step): Option<Json> {
    if s.At? && j.Arr? && s.i < |j.items| then Some(j.items[s.i])
    else if s.Field? && j.Obj? && s.k in j.fields then Some(j.fields[s.k])
    else None
  }

  function Get(j: Json, p: Path): Option<Json>
    decreases |p|
  {
    if |p| == 0 then Some(j)
    else
      var c := Child(j, p[0]);
      if c.None? then None else Get(c.value, p[1..])
  }

  /** The same node apart from the children: equal leaves, lists of the same length, objects
      with the same keys, or nothing on both sides. */
  predicate SameNode(a: Option<Json>, b: Option<Json>) {
    if a.Some? && b.Some? then
      (match (a.value, b.value)
       case (Arr(xs), Arr(ys)) => |xs| == |ys|
       case (Obj(m), Obj(n)) => m.Keys == n.Keys
       case (x, y) => x == y)
    else a.None? && b.None?
  }

  /** The paths at which a message holds transactions, by the method it names. */
  predicate IsTransactionPath(name: string, p: Path) {
    match name
    case "engine_forkchoiceUpdatedV3" =>
      |p| == 4 && p[..3] == [Field("params"), At(1), Field("transactions")] && p[3].At?
    case "engine_newPayloadV4" =>
      |p| == 4 && p[..3] == [Field("params"), At(0), Field("transactions")] && p[3].At?
    case "eth_sendBundle" =>
      |p| == 4 && p[..3] == [Field("params"), At(0), Field("txs")] && p[3].At?
    case "eth_sendRawTransaction" =>
      |p| == 2 && p[0] == Field("params") && p[1].At?
    case "" =>
      |p| == 4 && p[..3] == [Field("result"), Field("executionPayload"), Field("transactions")] && p[3].At?
    case _ => false
  }

  /** The paths that are rewritten: transaction paths of the message itself, or of a message in
      a batch, nested to any depth. */
  predicate Covered(j: Json, p: Path)
    decreases |p|
  {
    match j
    case Arr(items) => |p| > 0 && p[0].At? && p[0].i < |items| && Covered(items[p[0].i], p[1..])
    case Obj(m) => Get(j, p).Some? && IsTransactionPath(MethodOf(m), p)
    case _ => false
  }

  // ---------- the specification of a rewriting, and how specifications compose ----------

  type Paths = Path -> bool

  const NOWHERE: Paths := _ => false

  /** Some proper prefix of `p` is among the paths. */
  ghost predicate Under(c: Paths, p: Path) {
    exists n :: 0 <= n < |p| && c(p[..n])
  }

  /** At path `p`, `b` is `a` with what lies at the paths `c` masked: a masked node is a string,
      so nothing is left under it, and every other node is kept. */
  ghost predicate MaskedAt(d: Decoder, a: Json, b: Json, c: Paths, p: Path) {
    && (c(p) ==> Get(a, p).Some? && Get(b, p) == Some(Mask(d, Get(a, p).value)))
    && (Under(c, p) ==> Get(b, p) == None)
    && (!c(p) && !Under(c, p) ==> SameNode(Get(a, p), Get(b, p)))
  }

  ghost predicate Masked(d: Decoder, a: Json, b: Json, c: Paths) {
    forall p :: MaskedAt(d, a, b, c, p)
  }

  /** The paths that start with a step and go on with one of `c`. */
  ghost function Behind(s: Step, c: Paths): Paths {
    (p: Path) => |p| > 0 && p[0] == s && c(p[1..])
  }

  lemma {:induction false} UnderBehind(s: Step, c: Paths, p: Path)
    requires |p| > 0 && p[0] == s
    ensures Under(Behind(s, c), p) <==> Under(c, p[1..])
  {
    if Under(Behind(s, c), p) {
      var n :| 0 <= n < |p| && Behind(s, c)(p[..n]);
      assert p[..n][1..] == p[1..][..n - 1];
      assert c(p[1..][..n - 1]);
    }
    if Under(c, p[1..]) {
      var n :| 0 <= n < |p| - 1 && c(p[1..][..n]);
      assert p[..n + 1][1..] == p[1..][..n];
      assert Behind(s, c)(p[..n + 1]);
    }
  }

  lemma {:induction false} NothingMasked(d: Decoder, a: Json)
    ensures Masked(d, a, a, NOWHERE)
  {
    forall p: Path ensures MaskedAt(d, a, a, NOWHERE, p) {
    }
  }

  lemma {:induction false} MaskIsMasked(d: Decoder, a: Json)
    ensures Masked(d, a, Mask(d, a), p => |p| == 0)
  {
    var c: Paths := p => |p| == 0;
    forall p: Path ensures MaskedAt(d, a, Mask(d, a), c, p) {
      if |p| > 0 {
        assert c(p[..0]);
      }
    }
  }

  lemma {:induction false} SamePaths(d: Decoder, a: Json, b: Json, c: Paths, c': Paths)
    requires Masked(d, a, b, c) && forall p :: c(p) <==> c'(p)
    ensures Masked(d, a, b, c')
  {
    forall p: Path ensures MaskedAt(d, a, b, c', p) {
      assert MaskedAt(d, a, b, c, p);
    }
  }

  /** Masking inside one child. */
  lemma {:induction false} ChildMasked(d: Decoder, a: Json, b: Json, s: Step, c: Paths)
    requires SameNode(Some(a), Some(b))
    requires Child(a, s).Some? && Child(b, s).Some? && Masked(d, Child(a, s).value, Child(b, s).value, c)
    requires forall t :: t != s ==> Child(b, t) == Child(a, t)
    ensures Masked(d, a, b, Behind(s, c))
  {
    forall p: Path ensures MaskedAt(d, a, b, Behind(s, c), p) {
      if |p| > 0 && p[0] == s {
        assert MaskedAt(d, Child(a, s).value, Child(b, s).value, c, p[1..]);
        UnderBehind(s, c, p);
      } else if |p| > 0 {
        assert Get(b, p) == Get(a, p);
        forall n | 0 <= n < |p| ensures !Behind(s, c)(p[..n]) {
        }
      }
    }
  }

  /** The paths that lead into some element of a list and go on with one of its paths. */
  ghost function InSome(cs: nat -> Paths, n: nat): Paths {
    (p: Path) => |p| > 0 && p[0].At? && p[0].i < n && cs(p[0].i)(p[1..])
  }

  lemma {:induction false} UnderInSome(cs: nat -> Paths, n: nat, p: Path)
    requires |p| > 0 && p[0].At? && p[0].i < n
    ensures Under(InSome(cs, n), p) <==> Under(cs(p[0].i), p[1..])
  {
    var c := cs(p[0].i);
    if Under(InSome(cs, n), p) {
      var k :| 0 <= k < |p| && InSome(cs, n)(p[..k]);
      assert p[..k][1..] == p[1..][..k - 1];
      assert c(p[1..][..k - 1]);
    }
    if Under(c, p[1..]) {
      var k :| 0 <= k < |p| - 1 && c(p[1..][..k]);
      assert p[..k + 1][1..] == p[1..][..k];
      assert InSome(cs, n)(p[..k + 1]);
    }
  }

  /** Masking inside every element of a list. */
  lemma {:induction false} ElementsMasked(d: Decoder, xs: seq<Json>, ys: seq<Json>, cs: nat -> Paths)
    requires |xs| == |ys|
    requires forall i: nat :: i < |xs| ==> Masked(d, xs[i], ys[i], cs(i))
    ensures Masked(d, Arr(xs), Arr(ys), InSome(cs, |xs|))
  {
    forall p: Path ensures MaskedAt(d, Arr(xs), Arr(ys), InSome(cs, |xs|), p) {
      if |p| > 0 && p[0].At? && p[0].i < |xs| {
        assert MaskedAt(d, xs[p[0].i], ys[p[0].i], cs(p[0].i), p[1..]);
        UnderInSome(cs, |xs|, p);
      } else if |p| > 0 {
        assert Child(Arr(xs), p[0]) == None && Child(Arr(ys), p[0]) == None;
      }
    }
  }

  // ---------- the sanitizer meets its specification ----------

  const LEAF: Paths := p => |p| == 0

  /** The paths of the elements of a list. */
  ghost function Elements(n: nat): Paths {
    InSome(_ => LEAF, n)
  }

  lemma {:induction false} AllMasked(d: Decoder, txs: seq<Json>)
    ensures Masked(d, Arr(txs), Arr(MaskAll(d, txs)), Elements(|txs|))
  {
    forall i: nat | i < |txs| ensures Masked(d, txs[i], MaskAll(d, txs)[i], LEAF) {
      MaskIsMasked(d, txs[i]);
      SamePaths(d, txs[i], Mask(d, txs[i]), p => |p| == 0, LEAF);
    }
    ElementsMasked(d, txs, MaskAll(d, txs), _ => LEAF);
  }

  ghost function TransactionsIn(obj: map<string, Json>, key: string): Paths {
    if key in obj && obj[key].Arr? then Behind(Field(key), Elements(|obj[key].items|)) else NOWHERE
  }

  lemma {:induction false} TransactionsMasked(d: Decoder, obj: map<string, Json>, key: string)
    ensures Masked(d, Obj(obj), Obj(SanitizeTransactions(d, obj, key)), TransactionsIn(obj, key))
  {
    if key in obj && obj[key].Arr? {
      AllMasked(d, obj[key].items);
      ChildMasked(d, Obj(obj), Obj(SanitizeTransactions(d, obj, key)), Field(key), Elements(|obj[key].items|));
    } else {
      NothingMasked(d, Obj(obj));
    }
  }

  ghost function InParam(params: seq<Json>, i: nat, key: string): Paths {
    if i < |params| && params[i].Obj? then Behind(At(i), TransactionsIn(params[i].fields, key)) else NOWHERE
  }

  lemma {:induction false} ParamMasked(d: Decoder, params: seq<Json>, i: nat, key: string)
    ensures Masked(d, Arr(params), Arr(SanitizeParam(d, params, i, key)), InParam(params, i, key))
  {
    if i < |params| && params[i].Obj? {
      TransactionsMasked(d, params[i].fields, key);
      ChildMasked(d, Arr(params), Arr(SanitizeParam(d, params, i, key)), At(i), TransactionsIn(params[i].fields, key));
    } else {
      NothingMasked(d, Arr(params));
    }
  }

  ghost function InParams(name: string, params: seq<Json>): Paths {
    if name == "engine_forkchoiceUpdatedV3" then InParam(params, 1, "transactions")
    else if name == "engine_newPayloadV4" then InParam(params, 0, "transactions")
    else if name == "eth_sendBundle" then InParam(params, 0, "txs")
    else if name == "eth_sendRawTransaction" then Elements(|params|)
    else NOWHERE
  }

  lemma {:induction false} ParamsMasked(d: Decoder, name: string, params: seq<Json>)
    ensures Masked(d, Arr(params), Arr(SanitizeParams(d, name, params)), InParams(name, params))
  {
    if name == "engine_forkchoiceUpdatedV3" {
      ParamMasked(d, params, 1, "transactions");
    } else if name == "engine_newPayloadV4" {
      ParamMasked(d, params, 0, "transactions");
    } else if name == "eth_sendBundle" {
      ParamMasked(d, params, 0, "txs");
    } else if name == "eth_sendRawTransaction" {
      AllMasked(d, params);
    } else {
      NothingMasked(d, Arr(params));
    }
  }

  ghost function InResult(m: map<string, Json>): Paths {
    if "executionPayload" in m && m["executionPayload"].Obj?
    then Behind(Field("executionPayload"), TransactionsIn(m["executionPayload"].fields, "transactions"))
    else NOWHERE
  }

  ghost function InMessage(m: map<string, Json>): Paths {
    if MethodOf(m) != "" then
      if "params" in m && m["params"].Arr? then Behind(Field("params"), InParams(MethodOf(m), m["params"].items))
      else NOWHERE
    else if "result" in m && m["result"].Obj? then Behind(Field("result"), InResult(m["result"].fields))
    else NOWHERE
  }

  lemma {:induction false} ResultMasked(d: Decoder, r: map<string, Json>)
    ensures Masked(d, Obj(r), Obj(SanitizeResult(d, r)), InResult(r))
  {
    if "executionPayload" in r && r["executionPayload"].Obj? {
      TransactionsMasked(d, r["executionPayload"].fields, "transactions");
      ChildMasked(d, Obj(r), Obj(SanitizeResult(d, r)), Field("executionPayload"),
                  TransactionsIn(r["executionPayload"].fields, "transactions"));
    } else {
      NothingMasked(d, Obj(r));
    }
  }

  lemma {:induction false} MessageMasked(d: Decoder, m: map<string, Json>)
    ensures Masked(d, Obj(m), Obj(SanitizeMessage(d, m)), InMessage(m))
  {
    var name := MethodOf(m);
    var b := Obj(SanitizeMessage(d, m));
    if name != "" && "params" in m && m["params"].Arr? {
      ParamsMasked(d, name, m["params"].items);
      ChildMasked(d, Obj(m), b, Field("params"), InParams(name, m["params"].items));
    } else if name == "" && "result" in m && m["result"].Obj? {
      ResultMasked(d, m["result"].fields);
      ChildMasked(d, Obj(m), b, Field("result"), InResult(m["result"].fields));
    } else {
      NothingMasked(d, Obj(m));
    }
  }

  // ---------- the composed paths are the covered ones ----------

  lemma {:induction false} ElementsAreIndices(n: nat, p: Path)
    ensures Elements(n)(p) <==> |p| == 1 && p[0].At? && p[0].i < n
  {
  }

  lemma {:induction false} TransactionsInMeans(obj: map<string, Json>, key: string, p: Path)
    ensures TransactionsIn(obj, key)(p) <==> Get(Obj(obj), p).Some? && |p| == 2 && p[0] == Field(key) && p[1].At?
  {
    if |p| > 0 && p[0] == Field(key) && key in obj && obj[key].Arr? {
      ElementsAreIndices(|obj[key].items|, p[1..]);
      assert Get(Obj(obj), p) == Get(obj[key], p[1..]);
      if |p| == 2 {
        assert Get(obj[key], p[1..]).Some? <==> Child(obj[key], p[1]).Some?;
      }
    }
  }

  lemma {:induction false} InParamMeans(params: seq<Json>, i: nat, key: string, p: Path)
    ensures InParam(params, i, key)(p) <==>
              Get(Arr(params), p).Some? && |p| == 3 && p[0] == At(i) && p[1] == Field(key) && p[2].At?
  {
    if |p| > 0 && p[0] == At(i) && i < |params| && params[i].Obj? {
      TransactionsInMeans(params[i].fields, key, p[1..]);
    }
  }

  lemma {:induction false} InResultMeans(r: map<string, Json>, p: Path)
    ensures InResult(r)(p) <==>
              && Get(Obj(r), p).Some? && |p| == 3
              && p[0] == Field("executionPayload") && p[1] == Field("transactions") && p[2].At?
  {
    if |p| > 0 && p[0] == Field("executionPayload") && "executionPayload" in r && r["executionPayload"].Obj? {
      TransactionsInMeans(r["executionPayload"].fields, "transactions", p[1..]);
    }
  }

  lemma {:induction false} FourSteps(p: Path)
    requires |p| == 4
    ensures p[..3] == [p[0], p[1], p[2]]
  {
  }

  lemma {:induction false} ParamsAreCovered(m: map<string, Json>, p: Path)
    requires MethodOf(m) != "" && "params" in m && m["params"].Arr? && |p| > 0 && p[0] == Field("params")
    ensures InMessage(m)(p) <==> Covered(Obj(m), p)
  {
    var params, q := m["params"].items, p[1..];
    InParamMeans(params, 1, "transactions", q);
    InParamMeans(params, 0, "transactions", q);
    InParamMeans(params, 0, "txs", q);
    ElementsAreIndices(|params|, q);
    assert Get(Obj(m), p) == Get(m["params"], q);
    if |p| == 4 {
      FourSteps(p);
    }
    if |p| == 2 {
      assert Get(m["params"], q).Some? <==> Child(m["params"], p[1]).Some?;
    }
  }

  lemma {:induction false} ResultPath(p: Path)
    ensures IsTransactionPath("", p) <==>
              && |p| == 4 && p[0] == Field("result") && p[1] == Field("executionPayload")
              && p[2] == Field("transactions") && p[3].At?
  {
    if |p| == 4 {
      FourSteps(p);
    }
  }

  /** A transaction path of a request goes into the list of parameters. */
  lemma {:induction false} RequestPath(name: string, p: Path)
    requires name != "" && IsTransactionPath(name, p)
    ensures |p| >= 2 && p[0] == Field("params") && p[1].At?
  {
    if |p| == 4 {
      FourSteps(p);
    }
  }

  lemma {:induction false} ResultsAreCovered(m: map<string, Json>, p: Path)
    requires MethodOf(m) == "" && "result" in m && m["result"].Obj? && |p| > 0 && p[0] == Field("result")
    ensures InMessage(m)(p) <==> Covered(Obj(m), p)
  {
    var q := p[1..];
    ResultPath(p);
    assert InMessage(m)(p) <==> InResult(m["result"].fields)(q);
    InResultMeans(m["result"].fields, q);
    assert Get(Obj(m), p) == Get(m["result"], q);
  }

  /** Nothing lies on a path whose second step does not exist. */
  lemma {:induction false} SecondStepMissing(j: Json, p: Path)
    requires |p| >= 2 && Child(j, p[0]).Some? ==> Child(Child(j, p[0]).value, p[1]).None?
    ensures |p| >= 2 ==> Get(j, p).None?
  {
    if |p| >= 2 && Child(j, p[0]).Some? {
      assert p[1..][0] == p[1];
    }
  }

  lemma {:induction false} ElsewhereIsNotCovered(m: map<string, Json>, p: Path)
    requires !(MethodOf(m) != "" && "params" in m && m["params"].Arr? && |p| > 0 && p[0] == Field("params"))
    requires !(MethodOf(m) == "" && "result" in m && m["result"].Obj? && |p| > 0 && p[0] == Field("result"))
    ensures !Covered(Obj(m), p)
  {
    if IsTransactionPath(MethodOf(m), p) {
      if MethodOf(m) == "" {
        ResultPath(p);
      } else {
        RequestPath(MethodOf(m), p);
      }
      SecondStepMissing(Obj(m), p);
    }
  }

  lemma {:induction false} InMessageIsCovered(m: map<string, Json>, p: Path)
    ensures InMessage(m)(p) <==> Covered(Obj(m), p)
  {
    if MethodOf(m) != "" && "params" in m && m["params"].Arr? && |p| > 0 && p[0] == Field("params") {
      ParamsAreCovered(m, p);
    } else if MethodOf(m) == "" && "result" in m && m["result"].Obj? && |p| > 0 && p[0] == Field("result") {
      ResultsAreCovered(m, p);
    } else {
      ElsewhereIsNotCovered(m, p);
      assert !InMessage(m)(p);
    }
  }

  ghost function CoveredIn(j: Json): Paths {
    p => Covered(j, p)
  }

  /** The path specification: in a message, or a batch nested to any depth, every covered path
      holds the masked original, nothing is left under it, and every other node is unchanged. */
  lemma {:induction false} SanitizeMasksExactlyTheCovered(d: Decoder, j: Json)
    ensures Masked(d, j, Sanitize(d, j), CoveredIn(j))
    decreases j
  {
    match j
    case Arr(items) =>
      var out := Sanitize(d, j).items;
      var cs: nat -> Paths := (i: nat) => if i < |items| then CoveredIn(items[i]) else NOWHERE;
      forall i: nat | i < |items| ensures Masked(d, items[i], out[i], cs(i)) {
        SanitizeMasksExactlyTheCovered(d, items[i]);
      }
      ElementsMasked(d, items, out, cs);
      SamePaths(d, j, Sanitize(d, j), InSome(cs, |items|), CoveredIn(j));
    case Obj(m) =>
      MessageMasked(d, m);
      forall p: Path ensures InMessage(m)(p) <==> CoveredIn(j)(p) {
        InMessageIsCovered(m, p);
      }
      SamePaths(d, j, Sanitize(d, j), InMessage(m), CoveredIn(j));
    case _ =>
      NothingMasked(d, j);
      SamePaths(d, j, j, NOWHERE, CoveredIn(j));
  }

  /** What a log shows in place of a transaction: its hash if it decodes, else the error, and
      another error if it is no string. */
  lemma {:induction false} CoveredTransactionIsReplaced(d: Decoder, j: Json, p: Path)
    requires Covered(j, p)
    ensures Get(j, p).Some?
    ensures var tx := Get(j, p).value;
            Get(Sanitize(d, j), p) == Some(Str(
              if !tx.Str? then "[error casting tx to string]"
              else match d(tx.s)
                case Hash(hex) => hex
                case Error(text) => "[error decoding tx: " + text + "]"))
  {
    SanitizeMasksExactlyTheCovered(d, j);
    assert MaskedAt(d, j, Sanitize(d, j), CoveredIn(j), p);
  }

  /** So no raw transaction is left in a message that sends one, whatever else it holds. */
  lemma {:induction false} SentTransactionIsHashed(d: Decoder, m: map<string, Json>, i: nat, raw: string)
    requires "method" in m && m["method"] == Str("eth_sendRawTransaction")
    requires "params" in m && m["params"].Arr? && i < |m["params"].items| && m["params"].items[i] == Str(raw)
    requires d(raw).Hash?
    ensures Get(Sanitize(d, Obj(m)), [Field("params"), At(i)]) == Some(Str(d(raw).hex))
  {
    var p := [Field("params"), At(i)];
    assert p[1..] == [At(i)] && p[1..][1..] == [];
    assert Get(m["params"], p[1..]) == Some(Str(raw));
    assert Get(Obj(m), p) == Some(Str(raw));
    assert Covered(Obj(m), p);
    CoveredTransactionIsReplaced(d, Obj(m), p);
  }

  // ---------- the specification leaves no choice ----------

  ghost predicate SameEverywhere(a: Json, b: Json) {
    forall p: Path :: SameNode(Get(a, p), Get(b, p))
  }

  lemma {:induction false} SameBelow(a: Json, b: Json, s: Step)
    requires SameEverywhere(a, b) && Child(a, s).Some? && Child(b, s).Some?
    ensures SameEverywhere(Child(a, s).value, Child(b, s).value)
  {
    forall p: Path ensures SameNode(Get(Child(a, s).value, p), Get(Child(b, s).value, p)) {
      assert ([s] + p)[1..] == p;
      assert SameNode(Get(a, [s] + p), Get(b, [s] + p));
    }
  }

  lemma {:induction false} SameEverywhereIsEqual(a: Json, b: Json)
    requires SameEverywhere(a, b)
    ensures a == b
    decreases a
  {
    assert SameNode(Get(a, []), Get(b, []));
    match a
    case Arr(xs) =>
      forall i: nat | i < |xs| ensures xs[i] == b.items[i] {
        SameBelow(a, b, At(i));
        SameEverywhereIsEqual(xs[i], b.items[i]);
      }
      assert xs == b.items;
    case Obj(m) =>
      forall k | k in m ensures m[k] == b.fields[k] {
        SameBelow(a, b, Field(k));
        SameEverywhereIsEqual(m[k], b.fields[k]);
      }
      assert m == b.fields;
    case _ =>
  }

  /** The path specification determines the result. */
  lemma {:induction false} MaskedIsUnique(d: Decoder, a: Json, b: Json, b': Json, c: Paths)
    requires Masked(d, a, b, c) && Masked(d, a, b', c)
    ensures b == b'
  {
    forall p: Path ensures SameNode(Get(b, p), Get(b', p)) {
      assert MaskedAt(d, a, b, c, p) && MaskedAt(d, a, b', c, p);
      MaskedAtIsUnique(d, a, b, b', c, p);
    }
    SameEverywhereIsEqual(b, b');
  }

  lemma {:induction false} MaskedAtIsUnique(d: Decoder, a: Json, b: Json, b': Json, c: Paths, p: Path)
    requires MaskedAt(d, a, b, c, p) && MaskedAt(d, a, b', c, p)
    ensures SameNode(Get(b, p), Get(b', p))
  {
  }
}
