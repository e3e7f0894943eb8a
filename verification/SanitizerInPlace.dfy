/** The sanitizer as it runs: decoded lists are slices on the heap, and transactions are
    overwritten in their slots. The methods are proved to have the effect of the functions of
    the module `Sanitizer` on the JSON tree that the heap holds. */
module SanitizerInPlace {
  import opened Sanitizer

  /** A decoded value. Objects are never assigned to, so only slices live on the heap. */
  datatype Value = Atom(j: Json) | Slice(a: array<Value>) | Table(fields: map<string, Value>)

  /** What a value stands for at some moment, with the arrays it is stored in. */
  datatype Tree = Leaf(j: Json) | List(a: array<Value>, kids: seq<Tree>) | Record(members: map<string, Tree>)

  ghost function ValueOf(t: Tree): Value {
    match t
    case Leaf(j) => Atom(j)
    case List(a, _) => Slice(a)
    case Record(ms) => Table(map k | k in ms :: ValueOf(ms[k]))
  }

  ghost function JsonOf(t: Tree): Json {
    match t
    case Leaf(j) => j
    case List(_, kids) => Arr(seq(|kids|, i requires 0 <= i < |kids| => JsonOf(kids[i])))
    case Record(ms) => Obj(map k | k in ms :: JsonOf(ms[k]))
  }

  ghost function Arrays(t: Tree): set<array<Value>> {
    match t
    case Leaf(_) => {}
    case List(a, kids) => {a} + set i, b | 0 <= i < |kids| && b in Arrays(kids[i]) :: b
    case Record(ms) => set k, b | k in ms && b in Arrays(ms[k]) :: b
  }

  /** No array occurs twice in a decoded tree, and leaves are not containers. */
  ghost predicate Apart(t: Tree) {
    match t
    case Leaf(j) => !j.Arr? && !j.Obj?
    case List(a, kids) =>
      && (forall i :: 0 <= i < |kids| ==> Apart(kids[i]) && a !in Arrays(kids[i]))
      && (forall i, j :: 0 <= i < j < |kids| ==> Arrays(kids[i]) !! Arrays(kids[j]))
    case Record(ms) =>
      && (forall k :: k in ms ==> Apart(ms[k]))
      && (forall k, l :: k in ms && l in ms && k != l ==> Arrays(ms[k]) !! Arrays(ms[l]))
  }

  /** The heap holds the tree. */
  ghost predicate Stored(t: Tree)
    reads Arrays(t)
  {
    match t
    case Leaf(_) => true
    case List(a, kids) =>
      && a.Length == |kids|
      && forall i :: 0 <= i < |kids| ==> a[i] == ValueOf(kids[i]) && Stored(kids[i])
    case Record(ms) => forall k :: k in ms ==> Stored(ms[k])
  }

  /** `t'` is stored, in no more arrays than `t` and as the same value, and stands for `j`. */
  ghost predicate Became(t: Tree, t': Tree, j: Json)
    reads Arrays(t')
  {
    && Apart(t') && Stored(t')
    && Arrays(t') <= Arrays(t) && ValueOf(t') == ValueOf(t)
    && JsonOf(t') == j
  }

  method RawTransactionToHash(d: Decoder, tx: Value, ghost t: Tree) returns (r: Value)
    requires Apart(t) && tx == ValueOf(t)
    ensures r == Atom(Mask(d, JsonOf(t)))
    ensures JsonOf(t).Str? ==>
              match d(JsonOf(t).s)
              case Hash(hex) => r == Atom(Str(hex))
              case Error(text) => r == Atom(Str("[error decoding tx: " + text + "]"))
    ensures !JsonOf(t).Str? ==> r == Atom(Str("[error casting tx to string]"))
  {
    if tx.Atom? && tx.j.Str? {
      match d(tx.j.s) {
        case Hash(h) => r := Atom(Str(h));
        case Error(e) => r := Atom(Str("[error decoding tx: " + e + "]"));
      }
    } else {
      r := Atom(Str("[error casting tx to string]"));
    }
  }

  /** The loop over a slice of transactions. */
  method MaskSlots(d: Decoder, txs: array<Value>, ghost t: Tree) returns (ghost t': Tree)
    requires Apart(t) && Stored(t) && t.List? && t.a == txs
    modifies txs
    ensures Became(t, t', Arr(MaskAll(d, JsonOf(t).items)))
  {
    for i := 0 to txs.Length
      invariant forall k :: 0 <= k < i ==> txs[k] == Atom(Mask(d, JsonOf(t.kids[k])))
      invariant forall k :: i <= k < txs.Length ==> txs[k] == ValueOf(t.kids[k])
    {
      txs[i] := RawTransactionToHash(d, txs[i], t.kids[i]);
    }
    t' := List(txs, seq(|t.kids|, k requires 0 <= k < |t.kids| => Leaf(Mask(d, JsonOf(t.kids[k])))));
  }

  type Memory = map<array<Value>, seq<Value>>

  /** The tree is held by a remembered state of some arrays. */
  ghost predicate Remembered(t: Tree, m: Memory) {
    match t
    case Leaf(_) => true
    case List(a, kids) =>
      && a in m && |m[a]| == |kids|
      && forall i :: 0 <= i < |kids| ==> m[a][i] == ValueOf(kids[i]) && Remembered(kids[i], m)
    case Record(ms) => forall k :: k in ms ==> Remembered(ms[k], m)
  }

  ghost predicate Current(t: Tree, m: Memory)
    reads Arrays(t)
  {
    forall a :: a in Arrays(t) ==> a in m && m[a] == a[..]
  }

  /** While its arrays are as remembered, a tree is stored exactly if it is remembered. */
  lemma {:induction false} StoredIsRemembered(t: Tree, m: Memory)
    requires Current(t, m)
    ensures Stored(t) <==> Remembered(t, m)
    decreases t
  {
    match t
    case Leaf(_) =>
    case List(a, kids) =>
      assert a in Arrays(t);
      forall i | 0 <= i < |kids| ensures Stored(kids[i]) <==> Remembered(kids[i], m) {
        KidArrays(t, i);
        StoredIsRemembered(kids[i], m);
      }
    case Record(ms) =>
      forall k | k in ms ensures Stored(ms[k]) <==> Remembered(ms[k], m) {
        MemberArrays(t, k);
        StoredIsRemembered(ms[k], m);
      }
  }

  ghost function Remember(t: Tree): (m: Memory)
    reads Arrays(t)
    ensures m.Keys == Arrays(t) && forall a :: a in m ==> m[a] == a[..]
  {
    map a | a in Arrays(t) :: a[..]
  }

  lemma {:induction false} Unchanged(t: Tree)
    requires Apart(t) && Stored(t)
    ensures Became(t, t, JsonOf(t))
  {
  }

  lemma {:induction false} MemberArrays(t: Tree, k: string)
    requires t.Record? && k in t.members
    ensures Arrays(t.members[k]) <= Arrays(t)
  {
  }

  lemma {:induction false} KidArrays(t: Tree, i: nat)
    requires t.List? && i < |t.kids|
    ensures Arrays(t.kids[i]) <= Arrays(t)
  {
  }

  lemma {:induction false} ReplacedMemberLooksSame(t: Tree, k: string, c: Tree)
    requires t.Record? && k in t.members && ValueOf(c) == ValueOf(t.members[k])
    ensures ValueOf(Record(t.members[k := c])) == ValueOf(t)
    ensures JsonOf(Record(t.members[k := c])) == Obj(JsonOf(t).fields[k := JsonOf(c)])
  {
    var t' := Record(t.members[k := c]);
    assert ValueOf(t').fields == ValueOf(t).fields;
    assert JsonOf(t').fields == JsonOf(t).fields[k := JsonOf(c)];
  }

  lemma {:induction false} ReplacedMemberIsApart(t: Tree, k: string, c: Tree)
    requires Apart(t) && t.Record? && k in t.members && Apart(c) && Arrays(c) <= Arrays(t.members[k])
    ensures Apart(Record(t.members[k := c]))
    ensures Arrays(Record(t.members[k := c])) <= Arrays(t)
  {
    var ms := t.members[k := c];
    forall l, m | l in ms && m in ms && l != m ensures Arrays(ms[l]) !! Arrays(ms[m]) {
      assert Arrays(t.members[l]) !! Arrays(t.members[m]);
    }
    forall x | x in Arrays(Record(ms)) ensures x in Arrays(t) {
      var l :| l in ms && x in Arrays(ms[l]);
      MemberArrays(t, l);
    }
  }

  /** When the value of one field has changed, and the others are still stored. */
  lemma {:induction false} FieldBecame(t: Tree, k: string, c: Tree, j: Json)
    requires Apart(t) && t.Record? && k in t.members
    requires forall l :: l in t.members && l != k ==> Stored(t.members[l])
    requires Became(t.members[k], c, j)
    ensures Became(t, Record(t.members[k := c]), Obj(JsonOf(t).fields[k := j]))
  {
    ReplacedMemberLooksSame(t, k, c);
    ReplacedMemberIsApart(t, k, c);
  }

  /** When one element of a slice has changed, and the others are still stored. */
  lemma {:induction false} ElementBecame(t: Tree, i: nat, c: Tree, j: Json)
    requires Apart(t) && t.List? && i < |t.kids| && t.a.Length == |t.kids|
    requires forall n :: 0 <= n < |t.kids| ==> t.a[n] == ValueOf(t.kids[n])
    requires forall n :: 0 <= n < |t.kids| && n != i ==> Stored(t.kids[n])
    requires Became(t.kids[i], c, j)
    ensures Became(t, List(t.a, t.kids[i := c]), Arr(JsonOf(t).items[i := j]))
  {
    var t' := List(t.a, t.kids[i := c]);
    assert JsonOf(t').items == JsonOf(t).items[i := j];
  }

  /** Every array of the tree outside `changed` is as remembered. */
  ghost predicate OthersCurrent(t: Tree, m: Memory, changed: set<array<Value>>)
    reads Arrays(t)
  {
    forall a :: a in Arrays(t) && a !in changed ==> a in m && m[a] == a[..]
  }

  lemma {:induction false} OtherMembersStay(t: Tree, m: Memory, k: string)
    requires Apart(t) && t.Record? && k in t.members
    requires Remembered(t, m) && OthersCurrent(t, m, Arrays(t.members[k]))
    ensures forall l :: l in t.members && l != k ==> Stored(t.members[l])
  {
    forall l | l in t.members && l != k ensures Stored(t.members[l]) {
      MemberArrays(t, l);
      assert Arrays(t.members[l]) !! Arrays(t.members[k]);
      StoredIsRemembered(t.members[l], m);
    }
  }

  lemma {:induction false} OtherKidsStay(t: Tree, m: Memory, i: nat)
    requires Apart(t) && t.List? && i < |t.kids|
    requires Remembered(t, m) && OthersCurrent(t, m, Arrays(t.kids[i]))
    ensures forall n :: 0 <= n < |t.kids| && n != i ==> Stored(t.kids[n])
    ensures t.a.Length == |t.kids| && forall n :: 0 <= n < |t.kids| ==> t.a[n] == ValueOf(t.kids[n])
  {
    assert t.a in Arrays(t) && t.a !in Arrays(t.kids[i]);
    forall n | 0 <= n < |t.kids| && n != i ensures Stored(t.kids[n]) {
      KidArrays(t, n);
      assert Arrays(t.kids[n]) !! Arrays(t.kids[i]);
      StoredIsRemembered(t.kids[n], m);
    }
  }

  ghost predicate HasList(t: Tree, key: string) {
    t.Record? && key in t.members && t.members[key].List?
  }

  ghost predicate HasRecord(t: Tree, key: string) {
    t.Record? && key in t.members && t.members[key].Record?
  }

  lemma {:induction false} MembersOfTree(t: Tree, obj: map<string, Value>, key: string)
    requires Apart(t) && ValueOf(t) == Table(obj)
    ensures key in obj && obj[key].Slice? <==> HasList(t, key)
    ensures HasList(t, key) ==> obj[key] == Slice(t.members[key].a)
    ensures key in obj && obj[key].Table? <==> HasRecord(t, key)
    ensures HasRecord(t, key) ==> obj[key] == ValueOf(t.members[key])
    ensures HasList(t, key) <==> key in JsonOf(t).fields && JsonOf(t).fields[key].Arr?
    ensures HasRecord(t, key) <==> key in JsonOf(t).fields && JsonOf(t).fields[key].Obj?
    ensures HasList(t, key) || HasRecord(t, key) ==> JsonOf(t).fields[key] == JsonOf(t.members[key])
  {
  }

  /** Mask the list in one field of an object. */
  method MaskField(d: Decoder, txs: array<Value>, key: string, ghost t: Tree, ghost m: Memory)
    returns (ghost t': Tree)
    requires Apart(t) && HasList(t, key) && t.members[key].a == txs
    requires Remembered(t, m) && Current(t, m)
    modifies txs
    ensures Became(t, t', Obj(JsonOf(t).fields[key := Arr(MaskAll(d, JsonOf(t.members[key]).items))]))
  {
    ghost var c := t.members[key];
    StoredIsRemembered(t, m);
    ghost var c' := MaskSlots(d, txs, c);
    OtherMembersStay(t, m, key);
    FieldBecame(t, key, c', Arr(MaskAll(d, JsonOf(c).items)));
    t' := Record(t.members[key := c']);
  }

  method SanitizeTransactions(d: Decoder, obj: map<string, Value>, key: string, ghost t: Tree) returns (ghost t': Tree)
    requires Apart(t) && Stored(t) && ValueOf(t) == Table(obj)
    modifies Arrays(t)
    ensures Became(t, t', Obj(Sanitizer.SanitizeTransactions(d, JsonOf(t).fields, key)))
  {
    MembersOfTree(t, obj, key);
    if key in obj && obj[key].Slice? {
      MemberArrays(t, key);
      StoredIsRemembered(t, Remember(t));
      t' := MaskField(d, obj[key].a, key, t, Remember(t));
    } else {
      t' := t;
      Unchanged(t);
    }
  }

  /** Sanitize the object in one slot of a list. */
  method SanitizeSlot(d: Decoder, obj: map<string, Value>, i: nat, key: string, ghost t: Tree, ghost m: Memory)
    returns (ghost t': Tree)
    requires Apart(t) && t.List? && i < |t.kids| && ValueOf(t.kids[i]) == Table(obj)
    requires Remembered(t, m) && Current(t, m)
    modifies Arrays(t.kids[i])
    ensures var obj' := Obj(Sanitizer.SanitizeTransactions(d, JsonOf(t.kids[i]).fields, key));
            Became(t, t', Arr(JsonOf(t).items[i := obj']))
  {
    StoredIsRemembered(t, m);
    ghost var c' := SanitizeTransactions(d, obj, key, t.kids[i]);
    OtherKidsStay(t, m, i);
    ElementBecame(t, i, c', Obj(Sanitizer.SanitizeTransactions(d, JsonOf(t.kids[i]).fields, key)));
    t' := List(t.a, t.kids[i := c']);
  }

  lemma {:induction false} ParamOfTree(d: Decoder, t: Tree, i: nat, key: string)
    requires Apart(t) && t.List?
    ensures Sanitizer.SanitizeParam(d, JsonOf(t).items, i, key)
         == if i < |t.kids| && t.kids[i].Record?
            then JsonOf(t).items[i := Obj(Sanitizer.SanitizeTransactions(d, JsonOf(t.kids[i]).fields, key))]
            else JsonOf(t).items
  {
  }

  method SanitizeParam(d: Decoder, params: array<Value>, i: nat, key: string, ghost t: Tree) returns (ghost t': Tree)
    requires Apart(t) && Stored(t) && t.List? && t.a == params
    modifies Arrays(t)
    ensures Became(t, t', Arr(Sanitizer.SanitizeParam(d, JsonOf(t).items, i, key)))
  {
    ParamOfTree(d, t, i, key);
    if i < params.Length && params[i].Table? {
      KidArrays(t, i);
      StoredIsRemembered(t, Remember(t));
      t' := SanitizeSlot(d, params[i].fields, i, key, t, Remember(t));
    } else {
      t' := t;
      Unchanged(t);
    }
  }

  method SanitizeParams(d: Decoder, name: string, params: array<Value>, ghost t: Tree) returns (ghost t': Tree)
    requires Apart(t) && Stored(t) && t.List? && t.a == params
    modifies Arrays(t)
    ensures Became(t, t', Arr(Sanitizer.SanitizeParams(d, name, JsonOf(t).items)))
  {
    if name == "engine_forkchoiceUpdatedV3" {
      t' := SanitizeParam(d, params, 1, "transactions", t);
    } else if name == "engine_newPayloadV4" {
      t' := SanitizeParam(d, params, 0, "transactions", t);
    } else if name == "eth_sendBundle" {
      t' := SanitizeParam(d, params, 0, "txs", t);
    } else if name == "eth_sendRawTransaction" {
      t' := MaskSlots(d, params, t);
    } else {
      t' := t;
      Unchanged(t);
    }
  }

  /** The execution payload of an `engine_getPayloadV4` result. */
  method SanitizeResult(d: Decoder, r: map<string, Value>, ghost t: Tree, ghost m: Memory) returns (ghost t': Tree)
    requires Apart(t) && ValueOf(t) == Table(r)
    requires Remembered(t, m) && Current(t, m)
    modifies Arrays(t)
    ensures Became(t, t', Obj(Sanitizer.SanitizeResult(d, JsonOf(t).fields)))
  {
    ghost var key := "executionPayload";
    MembersOfTree(t, r, key);
    StoredIsRemembered(t, m);
    if "executionPayload" in r && r["executionPayload"].Table? {
      MemberArrays(t, key);
      ghost var c := t.members[key];
      ghost var c' := SanitizeTransactions(d, r["executionPayload"].fields, "transactions", c);
      OtherMembersStay(t, m, key);
      FieldBecame(t, key, c', Obj(Sanitizer.SanitizeTransactions(d, JsonOf(c).fields, "transactions")));
      t' := Record(t.members[key := c']);
    } else {
      t' := t;
      Unchanged(t);
    }
  }

  method SanitizeRequest(d: Decoder, name: string, msg: map<string, Value>, ghost t: Tree, ghost m: Memory)
    returns (ghost t': Tree)
    requires Apart(t) && ValueOf(t) == Table(msg) && name == MethodOf(JsonOf(t).fields) != ""
    requires Remembered(t, m) && Current(t, m)
    modifies Arrays(t)
    ensures Became(t, t', Obj(Sanitizer.SanitizeMessage(d, JsonOf(t).fields)))
  {
    ghost var key := "params";
    MembersOfTree(t, msg, key);
    StoredIsRemembered(t, m);
    if "params" in msg && msg["params"].Slice? {
      MemberArrays(t, key);
      ghost var c := t.members[key];
      ghost var c' := SanitizeParams(d, name, msg["params"].a, c);
      OtherMembersStay(t, m, key);
      FieldBecame(t, key, c', Arr(Sanitizer.SanitizeParams(d, name, JsonOf(c).items)));
      t' := Record(t.members[key := c']);
    } else {
      t' := t;
      Unchanged(t);
    }
  }

  method SanitizeResponse(d: Decoder, msg: map<string, Value>, ghost t: Tree, ghost m: Memory) returns (ghost t': Tree)
    requires Apart(t) && ValueOf(t) == Table(msg) && MethodOf(JsonOf(t).fields) == ""
    requires Remembered(t, m) && Current(t, m)
    modifies Arrays(t)
    ensures Became(t, t', Obj(Sanitizer.SanitizeMessage(d, JsonOf(t).fields)))
  {
    ghost var key := "result";
    MembersOfTree(t, msg, key);
    StoredIsRemembered(t, m);
    if "result" in msg && msg["result"].Table? {
      MemberArrays(t, key);
      ghost var c := t.members[key];
      StoredIsRemembered(c, m);
      ghost var c' := SanitizeResult(d, msg["result"].fields, c, m);
      OtherMembersStay(t, m, key);
      FieldBecame(t, key, c', Obj(Sanitizer.SanitizeResult(d, JsonOf(c).fields)));
      t' := Record(t.members[key := c']);
    } else {
      t' := t;
      Unchanged(t);
    }
  }

  lemma {:induction false} MethodOfTree(t: Tree, msg: map<string, Value>)
    requires Apart(t) && ValueOf(t) == Table(msg)
    ensures MethodOf(JsonOf(t).fields)
         == if "method" in msg && msg["method"].Atom? && msg["method"].j.Str? then msg["method"].j.s else ""
  {
  }

  method SanitizeMessage(d: Decoder, msg: map<string, Value>, ghost t: Tree) returns (ghost t': Tree)
    requires Apart(t) && Stored(t) && ValueOf(t) == Table(msg)
    modifies Arrays(t)
    ensures Became(t, t', Obj(Sanitizer.SanitizeMessage(d, JsonOf(t).fields)))
  {
    var name := if "method" in msg && msg["method"].Atom? && msg["method"].j.Str? then msg["method"].j.s else "";
    MethodOfTree(t, msg);
    StoredIsRemembered(t, Remember(t));
    if name != "" {
      t' := SanitizeRequest(d, name, msg, t, Remember(t));
    } else {
      t' := SanitizeResponse(d, msg, t, Remember(t));
    }
  }

  /** One message of a batch: the others stay. */
  method SanitizeItem(d: Decoder, item: Value, i: nat, ghost t: Tree, ghost m: Memory) returns (ghost t': Tree)
    requires Apart(t) && t.List? && i < |t.kids| && item == ValueOf(t.kids[i])
    requires Remembered(t, m) && Current(t, m)
    modifies Arrays(t.kids[i])
    ensures t'.List? && |t'.kids| == |t.kids| && forall k :: i < k < |t.kids| ==> t'.kids[k] == t.kids[k]
    ensures Became(t, t', Arr(JsonOf(t).items[i := Sanitizer.Sanitize(d, JsonOf(t.kids[i]))]))
    decreases t.kids[i], 2
  {
    StoredIsRemembered(t, m);
    ghost var c' := Sanitize(d, item, t.kids[i]);
    OtherKidsStay(t, m, i);
    ElementBecame(t, i, c', Sanitizer.Sanitize(d, JsonOf(t.kids[i])));
    t' := List(t.a, t.kids[i := c']);
  }

  /** The items of a batch when the first `n` have been sanitized. */
  ghost function SanitizedUpTo(d: Decoder, items: seq<Json>, n: nat): seq<Json> {
    seq(|items|, i requires 0 <= i < |items| => if i < n then Sanitizer.Sanitize(d, items[i]) else items[i])
  }

  lemma {:induction false} OneMoreItem(d: Decoder, t: Tree, u: Tree, i: nat)
    requires t.List? && u.List? && i < |t.kids| == |u.kids| && u.kids[i] == t.kids[i]
    requires JsonOf(u) == Arr(SanitizedUpTo(d, JsonOf(t).items, i))
    ensures SanitizedUpTo(d, JsonOf(t).items, i + 1)
         == JsonOf(u).items[i := Sanitizer.Sanitize(d, JsonOf(u.kids[i]))]
  {
  }

  lemma {:induction false} NoneAndAll(d: Decoder, t: Tree)
    requires t.List?
    ensures JsonOf(t) == Arr(SanitizedUpTo(d, JsonOf(t).items, 0))
    ensures Sanitizer.Sanitize(d, JsonOf(t)) == Arr(SanitizedUpTo(d, JsonOf(t).items, |t.kids|))
  {
  }

  /** `u` is the batch `t` when its first `n` items have been sanitized. */
  ghost predicate DoneUpTo(d: Decoder, t: Tree, u: Tree, n: nat)
    reads Arrays(u)
  {
    && t.List? && u.List? && |u.kids| == |t.kids|
    && (forall k :: n <= k < |t.kids| ==> u.kids[k] == t.kids[k])
    && Became(t, u, Arr(SanitizedUpTo(d, JsonOf(t).items, n)))
  }

  /** One round of the loop over a batch. */
  method SanitizeNext(d: Decoder, items: array<Value>, i: nat, ghost t: Tree, ghost u: Tree)
    returns (ghost u': Tree)
    requires Apart(t) && DoneUpTo(d, t, u, i) && i < |t.kids| && t.a == items
    modifies Arrays(u)
    ensures DoneUpTo(d, t, u', i + 1)
    decreases t, 0, 0
  {
    StoredIsRemembered(u, Remember(u));
    OneMoreItem(d, t, u, i);
    KidArrays(u, i);
    u' := SanitizeItem(d, items[i], i, u, Remember(u));
  }

  method SanitizeBatch(d: Decoder, items: array<Value>, ghost t: Tree) returns (ghost t': Tree)
    requires Apart(t) && Stored(t) && t.List? && t.a == items
    modifies Arrays(t)
    ensures Became(t, t', Sanitizer.Sanitize(d, JsonOf(t)))
    decreases t, 0, 1
  {
    NoneAndAll(d, t);
    t' := t;
    for i := 0 to items.Length
      invariant DoneUpTo(d, t, t', i) && items.Length == |t.kids|
    {
      t' := SanitizeNext(d, items, i, t, t');
    }
  }

  /** Sanitizing the decoded value that the heap holds turns the JSON it stands for into what
      the function `Sanitizer.Sanitize` gives. */
  method Sanitize(d: Decoder, message: Value, ghost t: Tree) returns (ghost t': Tree)
    requires Apart(t) && Stored(t) && message == ValueOf(t)
    modifies Arrays(t)
    ensures Became(t, t', Sanitizer.Sanitize(d, JsonOf(t)))
    decreases t, 1
  {
    match message {
      case Slice(a) => t' := SanitizeBatch(d, a, t);
      case Table(msg) => t' := SanitizeMessage(d, msg, t);
      case Atom(_) =>
        t' := t;
        Unchanged(t);
    }
  }
}
