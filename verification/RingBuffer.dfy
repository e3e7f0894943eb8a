/** The growable ring buffer: a circular array that is kept from filling up completely, so
    that equal indices always mean an empty buffer. */
module Data {
  import opened Wrappers

  /** What an index finds; indexing outside the array panics. */
  datatype Lookup<T> = Found(value: T) | Missing | Panicked

  /** One operation, as far as sizes go. A push says whether the contents were wrapped. */
  datatype Op = Push(wrapped: bool) | Pop | Pick | Forget(count: nat)

  /** Sizes over a run: the initial capacity, the current one, the length and its peak so far,
      and how many pushes and how many slot copies made by growing there were. */
  datatype Sizes = Sizes(initial: nat, capacity: nat, length: nat, peak: nat, pushes: nat, copied: nat)

  function Fresh(capacity: nat): Sizes {
    Sizes(capacity, capacity, 0, 0, 0, 0)
  }

  function Resized(z: Sizes, op: Op): Sizes {
    match op
    case Push(wrapped) =>
      var z' := z.(length := z.length + 1, pushes := z.pushes + 1,
                   peak := if z.peak < z.length + 1 then z.length + 1 else z.peak);
      if z.length + 1 < z.capacity then z'
      else z'.(capacity := 2 * z.capacity, copied := z.copied + (if wrapped then z.length else z.capacity))
    case Pop => if z.length == 0 then z else z.(length := z.length - 1)
    case Pick => if z.length == 0 then z else z.(length := z.length - 1)
    case Forget(n) => if z.length <= n then z.(length := 0) else z.(length := z.length - n)
  }

  class RingBuffer<T(0)> {
    var buf: array<T>
    var head: int
    var tail: int
    ghost var sizes: Sizes

    ghost predicate Valid()
      reads this
    {
      && 0 <= head < buf.Length && 0 <= tail < buf.Length
      && sizes.capacity == buf.Length && sizes.length == Size()
    }

    ghost function Size(): int
      reads this
    {
      if tail <= head then head - tail else buf.Length + head - tail
    }

    /** The elements, oldest first. */
    ghost function Contents(): (s: seq<T>)
      requires Valid()
      reads this, buf
      ensures |s| == sizes.length
    {
      if tail <= head then buf[tail..head] else buf[tail..] + buf[..head]
    }

    /** Zero or a negative argument selects the default capacity, like no argument at all. */
    constructor (capacity: Option<int>)
      ensures Valid() && fresh(buf) && Contents() == []
      ensures sizes == Fresh(if capacity.Some? && capacity.value > 0 then capacity.value else 16)
    {
      var c := if capacity.Some? && capacity.value > 0 then capacity.value else 16;
      buf := new T[c];
      head, tail := 0, 0;
      sizes := Fresh(c);
    }

    method Capacity() returns (c: nat)
      requires Valid()
      ensures c == sizes.capacity
    {
      c := buf.Length;
    }

    method Length() returns (n: nat)
      requires Valid()
      ensures n == |Contents()|
    {
      if head >= tail {
        n := head - tail;
      } else {
        n := buf.Length + head - tail;
      }
    }

    /** A buffer twice as large that starts with the old slots. */
    static method Doubled(buf: array<T>) returns (newBuf: array<T>)
      ensures fresh(newBuf) && newBuf.Length == 2 * buf.Length
      ensures newBuf[..buf.Length] == buf[..]
    {
      newBuf := new T[2 * buf.Length];
      forall i | 0 <= i < buf.Length {
        newBuf[i] := buf[i];
      }
    }

    /** A buffer twice as large that starts with the wrapped contents, laid out in order. */
    static method Unwrapped(buf: array<T>, tail: nat, head: nat) returns (newBuf: array<T>)
      requires head < tail < buf.Length
      ensures fresh(newBuf) && newBuf.Length == 2 * buf.Length
      ensures newBuf[..buf.Length - tail + head] == buf[tail..] + buf[..head]
    {
      newBuf := new T[2 * buf.Length];
      var n := buf.Length - tail;
      forall i | 0 <= i < n {
        newBuf[i] := buf[tail + i];
      }
      forall i | 0 <= i < head {
        newBuf[n + i] := buf[i];
      }
    }

    method Push(value: T)
      requires Valid()
      modifies this, buf
      ensures Valid() && (buf == old(buf) || fresh(buf))
      ensures Contents() == old(Contents()) + [value]
      ensures sizes == Resized(old(sizes), Op.Push(old(head < tail)))
    {
      sizes := Resized(sizes, Op.Push(head < tail));
      if head >= tail {
        var size := head - tail;
        if size == buf.Length - 1 {
          buf := Doubled(buf);
          assert buf[tail..head] == buf[..old(buf.Length)][tail..head];
        }
        PutFlat(value);
      } else {
        var size := buf.Length + head - tail;
        if size == buf.Length - 1 {
          buf := Unwrapped(buf, tail, head);
          tail := 0;
          head := size;
          assert buf[tail..head] == old(Contents());
        }
        PutBelow(value);
      }
    }

    /** Store above the oldest element, and wrap the index at the end of the buffer. */
    method PutFlat(value: T)
      requires 0 <= tail <= head < buf.Length && (head < buf.Length - 1 || tail > 0)
      modifies this`head, buf
      ensures 0 <= head < buf.Length && head != tail
      ensures (if tail <= head then buf[tail..head] else buf[tail..] + buf[..head]) == old(buf[tail..head]) + [value]
    {
      buf[head] := value;
      head := head + 1;
      if head == buf.Length {
        head := 0;
      }
    }

    /** Store without reaching the end of the buffer. */
    method PutBelow(value: T)
      requires 0 <= tail < buf.Length && 0 <= head < buf.Length - 1
      requires head < tail ==> head + 1 < tail
      modifies this`head, buf
      ensures head == old(head) + 1
      ensures old(head) < tail ==> buf[tail..] + buf[..head] == old(buf[tail..] + buf[..head]) + [value]
      ensures tail <= old(head) ==> buf[tail..head] == old(buf[tail..head]) + [value]
    {
      buf[head] := value;
      head := head + 1;
    }

    method Pop() returns (v: Option<T>)
      requires Valid()
      modifies this
      ensures Valid() && buf == old(buf)
      ensures if |old(Contents())| == 0 then v == None && Contents() == []
              else v == Some(old(Contents())[0]) && Contents() == old(Contents())[1..]
      ensures sizes == Resized(old(sizes), Op.Pop)
    {
      if head == tail {
        return None;
      }
      v := Some(buf[tail]);
      tail := tail + 1;
      if tail == buf.Length {
        tail := 0;
      }
      sizes := Resized(sizes, Op.Pop);
    }

    method Pick() returns (v: Option<T>)
      requires Valid()
      modifies this
      ensures Valid() && buf == old(buf)
      ensures var was := old(Contents());
              if |was| == 0 then v == None && Contents() == []
              else v == Some(was[|was| - 1]) && Contents() == was[..|was| - 1]
      ensures sizes == Resized(old(sizes), Op.Pick)
    {
      if head == tail {
        return None;
      }
      head := head - 1;
      if head < 0 {
        head := head + buf.Length;
      }
      v := Some(buf[head]);
      sizes := Resized(sizes, Op.Pick);
    }

    /** A negative count moves the head up without a check, over whatever is there. */
    method Forget(count: int)
      requires Valid()
      modifies this
      ensures buf == old(buf)
      ensures var was := old(Contents());
              count >= 0 ==> Valid() && Contents() == if |was| <= count then [] else was[..|was| - count]
      ensures count >= 0 ==> sizes == Resized(old(sizes), Op.Forget(count))
      ensures count < 0 ==> head == old(head) - count && tail == old(tail) && sizes == old(sizes)
    {
      if count >= 0 {
        sizes := Resized(sizes, Op.Forget(count));
      }
      var n := if head >= tail then head - tail else buf.Length + head - tail;
      if count >= n {
        head := 0;
        tail := 0;
        return;
      }
      head := head - count;
      if head < 0 {
        head := head + buf.Length;
      }
    }

    /** A negative index reads below the oldest element, if there is a slot. */
    method At(idx: int) returns (v: Lookup<T>)
      requires Valid()
      ensures 0 <= idx < |Contents()| ==> v == Found(Contents()[idx])
      ensures |Contents()| <= idx ==> v == Missing
      ensures idx < 0 ==> v == if tail + idx < 0 then Panicked else Found(buf[tail + idx])
    {
      var n := Length();
      if idx >= n {
        return Missing;
      }
      var pos := tail + idx;
      if pos >= buf.Length {
        pos := pos - buf.Length;
      }
      if pos < 0 {
        return Panicked;
      }
      v := Found(buf[pos]);
    }
  }

  // ---------- growth ----------

  function Run(z: Sizes, ops: seq<Op>): Sizes {
    if |ops| == 0 then z else Resized(Run(z, ops[..|ops| - 1]), ops[|ops| - 1])
  }

  /** What every run keeps. */
  ghost predicate Amortised(z: Sizes) {
    && z.initial > 0
    && z.length < z.capacity
    && (z.capacity == z.initial || z.capacity <= 2 * z.peak)
    && z.copied <= z.capacity - z.initial
    && z.length <= z.peak <= z.pushes
  }

  lemma {:induction false} OpKeepsAmortised(z: Sizes, op: Op)
    requires Amortised(z)
    ensures Amortised(Resized(z, op)) && Resized(z, op).initial == z.initial
  {
  }

  /** Over any run from a fresh buffer of positive capacity: the buffer is never full, so full
      is never mistaken for empty; it never outgrows twice its peak length unless it started
      that large; and growing copied at most two slots per push. */
  lemma {:induction false} GrowthIsAmortised(c: nat, ops: seq<Op>)
    requires c > 0
    ensures var z := Run(Fresh(c), ops);
            && Amortised(z) && z.initial == c
            && z.copied <= 2 * z.pushes
  {
    if |ops| > 0 {
      GrowthIsAmortised(c, ops[..|ops| - 1]);
      OpKeepsAmortised(Run(Fresh(c), ops[..|ops| - 1]), ops[|ops| - 1]);
    }
  }

  /** The sizes after a number of healthchecks, each of which pushes once and trims to
      `depth`; the flags say where the contents were wrapped. */
  function Checks(depth: nat, wrapped: seq<bool>): Sizes {
    if |wrapped| == 0 then Fresh(depth)
    else
      var z := Resized(Checks(depth, wrapped[..|wrapped| - 1]), Op.Push(wrapped[|wrapped| - 1]));
      if z.length > depth then Resized(z, Op.Pop) else z
  }

  /** However many checks run, the buffer of a healthcheck stays bounded. */
  lemma {:induction false} ChecksStayBounded(depth: nat, wrapped: seq<bool>)
    requires depth >= 1
    ensures Checks(depth, wrapped).length == if |wrapped| < depth then |wrapped| else depth
    ensures var c := Checks(depth, wrapped).capacity;
            c in {depth, 2 * depth} || (depth == 1 && c == 4)
    ensures Checks(depth, wrapped).length < Checks(depth, wrapped).capacity
  {
    if |wrapped| > 0 {
      ChecksStayBounded(depth, wrapped[..|wrapped| - 1]);
    }
  }
}
