/** The pooled packet buffer with headroom, and the bounded pool it returns to when dropped. */
module PacketBuffers {
  import opened Bytes

  const HEADER_HEADROOM := 64
  const MAX_FRAME_SIZE := 1522
  const BUF_TOTAL := HEADER_HEADROOM + MAX_FRAME_SIZE

  /** A buffer while it is owned by the queue: the same four fields, `pooled` telling whether it knows a pool. */
  datatype Queued = Queued(data: array?<byte>, head: nat, len: nat, pooled: bool)

  /** The owner of a storage array. */
  datatype Holder = InQueue | HeldBy(buf: PacketBuf)

  class PacketBuf {
    var data: array?<byte>
    var head: nat
    var len: nat
    var pool: BufferPool?

    /** Storage is present and the valid window lies inside it. */
    ghost predicate Usable()
      reads this
    {
      data != null && data.Length == BUF_TOTAL && head + len <= BUF_TOTAL
    }

    function Slice(): seq<byte>
      reads this, data
      requires Usable()
    {
      data[head..head + len]
    }

    constructor ()
      ensures fresh(data) && Usable() && head == HEADER_HEADROOM && len == 0 && pool == null
    {
      data := new byte[BUF_TOTAL](_ => 0);
      head, len, pool := HEADER_HEADROOM, 0, null;
    }

    /** A buffer moved out of the queue of `pool`. */
    constructor Moved(moved: Queued, pool: BufferPool)
      ensures data == moved.data && head == moved.head && len == moved.len && this.pool == pool
    {
      data, head, len, this.pool := moved.data, moved.head, moved.len, pool;
    }

    /** A read or copy of `frame` into the payload area, followed by `set_len`. */
    method ReceivePayload(frame: seq<byte>)
      requires data != null && data.Length == BUF_TOTAL && |frame| <= MAX_FRAME_SIZE
      modifies this`head, this`len, data
      ensures Usable() && head == HEADER_HEADROOM && Slice() == frame
    {
      for i := 0 to |frame|
        invariant data == old(data)
        invariant data[HEADER_HEADROOM..HEADER_HEADROOM + i] == frame[..i]
      {
        data[HEADER_HEADROOM + i] := frame[i];
      }
      SetLen(|frame|);
    }

    method SetLen(newLen: nat)
      requires newLen <= MAX_FRAME_SIZE
      modifies this`head, this`len
      ensures head == HEADER_HEADROOM && len == newLen
    {
      head, len := HEADER_HEADROOM, newLen;
    }

    /** Moves the head back; the caller writes the header into data[head..head + headerLen]. */
    method PrependHeader(headerLen: nat)
      requires Usable() && headerLen <= head
      modifies this`head, this`len
      ensures Usable() && head == old(head) - headerLen
      ensures |Slice()| == headerLen + |old(Slice())| && Slice()[headerLen..] == old(Slice())
    {
      head := head - headerLen;
      len := len + headerLen;
    }

    method Reset()
      modifies this`head, this`len
      ensures head == HEADER_HEADROOM && len == 0
    {
      head, len := HEADER_HEADROOM, 0;
    }
  }

  /** Between two states of a pool nothing became or ceased to be live, or just the one buffer that was taken. */
  ghost predicate Took(pooled0: set<PacketBuf>, standalone0: set<PacketBuf>, pooled: set<PacketBuf>,
                       standalone: set<PacketBuf>, taken: Option<PacketBuf>)
  {
    match taken
    case None => pooled == pooled0 && standalone == standalone0
    case Some(b) => (pooled == pooled0 + {b} && standalone == standalone0)
                    || (pooled == pooled0 && standalone == standalone0 + {b})
  }

  lemma TookIsLive(pooled0: set<PacketBuf>, standalone0: set<PacketBuf>, pooled: set<PacketBuf>,
                   standalone: set<PacketBuf>, taken: Option<PacketBuf>)
    requires Took(pooled0, standalone0, pooled, standalone, taken)
    ensures var live := pooled0 + standalone0;
      pooled + standalone == if taken.Some? then live + {taken.value} else live
  {
  }

  /** A buffer that is taken and given up again has not been taken. */
  lemma TakenAndReturned(pooled0: set<PacketBuf>, standalone0: set<PacketBuf>, pooled: set<PacketBuf>,
                         standalone: set<PacketBuf>, b: PacketBuf)
    requires Took(pooled0, standalone0, pooled, standalone, Some(b)) && b !in pooled0 && b !in standalone0
    ensures Took(pooled0, standalone0, pooled - {b}, standalone - {b}, None)
  {
  }

  class BufferPool {
    const capacity: nat
    var queue: seq<Queued>
    /** Outstanding buffers that were drawn from the queue. */
    ghost var pooled: set<PacketBuf>
    /** Outstanding buffers allocated while the queue was empty. */
    ghost var standalone: set<PacketBuf>
    /** The one owner of each storage array. */
    ghost var holder: map<array?<byte>, Holder>

    ghost function Live(): set<PacketBuf>
      reads this
    {
      pooled + standalone
    }

    /** `b` holds the storage `data`, which neither the queue nor another live buffer holds. */
    static ghost predicate Holds(holder: map<array?<byte>, Holder>, b: PacketBuf, data: array?<byte>) {
      data != null && data.Length == BUF_TOTAL && data in holder && holder[data] == HeldBy(b)
    }

    /** A queued buffer has storage, is reset, and does not know its pool. */
    static ghost predicate Resting(holder: map<array?<byte>, Holder>, q: Queued)
    {
      && q.data != null && q.data.Length == BUF_TOTAL && q.data in holder && holder[q.data] == InQueue
      && q.head == HEADER_HEADROOM && q.len == 0 && !q.pooled
    }

    /** Every buffer of the pool is either queued or out: none is lost, none is counted twice. */
    ghost predicate Conserved()
      reads this
    {
      |queue| + |pooled| == capacity
    }

    ghost predicate Valid()
      reads this, Live()`data, Live()`pool
    {
      && pooled !! standalone
      && (forall i :: 0 <= i < |queue| ==> Resting(holder, queue[i]))
      && (forall i, j :: 0 <= i < j < |queue| ==> queue[i].data != queue[j].data)
      && (forall b :: b in pooled ==> Holds(holder, b, b.data) && b.pool == this)
      && (forall b :: b in standalone ==> Holds(holder, b, b.data) && b.pool == null)
    }

    /** `ArrayQueue::new` refuses a zero capacity. */
    constructor (capacity: nat)
      requires capacity > 0
      ensures Valid() && Conserved() && this.capacity == capacity && |queue| == capacity && Live() == {}
      ensures forall i :: 0 <= i < |queue| ==> fresh(queue[i].data)
    {
      this.capacity := capacity;
      queue, pooled, standalone, holder := [], {}, {}, map[];
      new;
      for i := 0 to capacity
        invariant |queue| == i && pooled == standalone == {}
        invariant forall j :: 0 <= j < |queue| ==> Resting(holder, queue[j]) && fresh(queue[j].data)
        invariant forall j, k :: 0 <= j < k < |queue| ==> queue[j].data != queue[k].data
      {
        var b := new PacketBuf();
        queue := queue + [Queued(b.data, b.head, b.len, b.pool != null)];
        holder := holder[b.data := InQueue];
      }
    }

    /** The match of `get`: the queue's first buffer, or a new one when the queue is empty. */
    method Draw() returns (b: PacketBuf)
      requires Valid() && Conserved()
      modifies this
      ensures Valid() && Conserved() && fresh(b) && b in Live() && b !in old(pooled) && b !in old(standalone)
      ensures Took(old(pooled), old(standalone), pooled, standalone, Some(b))
      ensures b.Usable() && b.head == HEADER_HEADROOM && b.len == 0
      ensures b.pool == if old(queue) == [] then null else this
      ensures queue == if old(queue) == [] then [] else old(queue)[1..]
      ensures if old(queue) == [] then fresh(b.data) else b.data == old(queue)[0].data
    {
      if queue != [] {
        b := Pop();
      } else {
        b := new PacketBuf();
      }
      Lend(b);
    }

    /** Draws from the queue, or allocates when the queue is empty. Nothing that is live is touched. */
    method Get() returns (b: PacketBuf)
      requires Valid() && Conserved()
      modifies this
      ensures Valid() && Conserved() && fresh(b)
      ensures b !in old(Live()) && Live() == old(Live()) + {b}
      ensures Took(old(pooled), old(standalone), pooled, standalone, Some(b))
      ensures forall c :: c in old(Live()) ==> c.data != b.data
      ensures b.Usable() && b.head == HEADER_HEADROOM && b.len == 0
      ensures b.pool == if old(queue) == [] then null else this
      ensures queue == if old(queue) == [] then [] else old(queue)[1..]
      ensures if old(queue) == [] then fresh(b.data) else b.data == old(queue)[0].data
    {
      b := Draw();
      TookIsLive(old(pooled), old(standalone), pooled, standalone, Some(b));
      forall c | c in old(Live())
        ensures c.data != b.data
      {
        Apart(b, c);
      }
    }

    /** No two live buffers share storage. */
    lemma Apart(b: PacketBuf, c: PacketBuf)
      requires Valid() && b in Live() && c in Live() && b != c
      ensures b.data != c.data
    {
      assert Holds(holder, b, b.data) && Holds(holder, c, c.data);
    }

    /** The `Some` arm: the popped buffer is reset and told its pool. */
    method Pop() returns (b: PacketBuf)
      requires Valid() && queue != []
      modifies this`queue
      ensures Valid() && fresh(b) && b.pool == this
      ensures b.head == HEADER_HEADROOM && b.len == 0 && b.data == old(queue)[0].data
      ensures queue == old(queue)[1..] && Resting(holder, old(queue)[0])
      ensures forall i :: 0 <= i < |queue| ==> queue[i].data != b.data
    {
      b := new PacketBuf.Moved(queue[0], this);
      b.Reset();
      queue := queue[1..];
    }

    /** A buffer whose storage is neither queued nor held becomes live, on the side its `pool` field tells. */
    ghost method Lend(b: PacketBuf)
      requires Valid() && b !in Live() && b.data != null && b.data.Length == BUF_TOTAL
      requires b.data in holder ==> holder[b.data] == InQueue
      requires forall i :: 0 <= i < |queue| ==> queue[i].data != b.data
      requires b.pool == null || b.pool == this
      modifies this`pooled, this`standalone, this`holder
      ensures Valid() && Live() == old(Live()) + {b}
      ensures pooled == if b.pool == this then old(pooled) + {b} else old(pooled)
      ensures standalone == if b.pool == this then old(standalone) else old(standalone) + {b}
    {
      if b.pool == this {
        pooled := pooled + {b};
      } else {
        standalone := standalone + {b};
      }
      holder := holder[b.data := HeldBy(b)];
    }

    /** Draws a buffer and receives `frame` into it. The contents of every other live buffer survive. */
    method GetFilled(frame: seq<byte>) returns (b: PacketBuf)
      requires Valid() && Conserved() && |frame| <= MAX_FRAME_SIZE
      modifies this, if queue == [] then {} else {queue[0].data}
      ensures Valid() && Conserved() && fresh(b)
      ensures b !in old(pooled) && b !in old(standalone) && b in Live()
      ensures Took(old(pooled), old(standalone), pooled, standalone, Some(b))
      ensures b.Usable() && b.head == HEADER_HEADROOM && b.Slice() == frame
      ensures if old(queue) == [] then fresh(b.data) else b.data == old(queue)[0].data
    {
      b := Draw();
      ghost var pooled1, standalone1 := pooled, standalone;
      ReceiveInto(b, frame);
      assert pooled == pooled1 && standalone == standalone1;
    }

    /** Writing into a live buffer's payload area concerns nothing but that buffer. */
    method ReceiveInto(b: PacketBuf, frame: seq<byte>)
      requires Valid() && b in Live() && b.Usable() && |frame| <= MAX_FRAME_SIZE
      modifies b`head, b`len, b.data
      ensures Valid() && b.Usable() && b.head == HEADER_HEADROOM && b.Slice() == frame
    {
      b.ReceivePayload(frame);
    }

    /** The `Drop` of a buffer: a pooled one gives its storage back, a standalone one is freed. */
    method Drop(b: PacketBuf)
      requires Valid() && Conserved() && b in Live()
      modifies this, b
      ensures Valid() && Conserved()
      ensures pooled == old(pooled) - {b} && standalone == old(standalone) - {b} && Live() == old(Live()) - {b}
      ensures queue == if b in old(pooled) then old(queue) + [Queued(old(b.data), HEADER_HEADROOM, 0, false)]
                       else old(queue)
    {
      if b.pool != null {
        GiveBack(b);
      } else {
        Free(b);
      }
    }

    /** The drop of a buffer that was taken since the pool's state was `pooled0`, `standalone0`: that state is back. */
    method DropTaken(b: PacketBuf, ghost pooled0: set<PacketBuf>, ghost standalone0: set<PacketBuf>)
      requires Valid() && Conserved() && b in Live() && b !in pooled0 && b !in standalone0
      requires Took(pooled0, standalone0, pooled, standalone, Some(b))
      modifies this, b
      ensures Valid() && Conserved() && Took(pooled0, standalone0, pooled, standalone, None)
    {
      TakenAndReturned(pooled0, standalone0, pooled, standalone, b);
      Drop(b);
    }

    /** The standalone half of the drop: the storage goes to the allocator, not to the queue. */
    ghost method Free(b: PacketBuf)
      requires Valid() && b in standalone
      modifies this`standalone
      ensures Valid()
      ensures standalone == old(standalone) - {b}
    {
      standalone := standalone - {b};
    }

    /** The pooled half of the drop: `data` is moved out into a fresh value that is pushed onto the queue. */
    method GiveBack(b: PacketBuf)
      requires Valid() && Conserved() && b in pooled
      modifies this, b
      ensures Valid() && Conserved()
      ensures pooled == old(pooled) - {b} && standalone == old(standalone)
      ensures queue == old(queue) + [Queued(old(b.data), HEADER_HEADROOM, 0, false)]
    {
      var returned := Queued(b.data, HEADER_HEADROOM, 0, false);
      b.pool, b.head, b.len, b.data := null, HEADER_HEADROOM, 0, null;
      pooled := pooled - {b};
      holder := holder[returned.data := InQueue];
      // The push into the bounded queue finds room: the dropped buffer's place is free.
      assert |queue| < capacity;
      queue := if |queue| < capacity then queue + [returned] else queue;
    }
  }

  /** The storage that the next `Get` of a pool may reuse. */
  function Storage(pool: BufferPool): set<object?>
    reads pool
  {
    if pool.queue == [] then {} else {pool.queue[0].data}
  }

  /** What the packet paths do to buffers: draw one, or give up one they hold (a drop after use, a failed
      send, one step of clearing a batch). Sending to a channel only moves a buffer to another owner. */
  datatype Use = Draw | GiveUp(i: nat)

  /** `xs` lists the elements of `s`, each once. */
  ghost predicate Lists<T>(xs: seq<T>, s: set<T>) {
    if xs == [] then s == {} else xs[0] in s && Lists(xs[1..], s - {xs[0]})
  }

  lemma {:induction false} ListsAdd<T>(xs: seq<T>, s: set<T>, x: T)
    requires Lists(xs, s) && x !in s
    ensures Lists(xs + [x], s + {x})
  {
    if xs == [] {
      assert (xs + [x])[1..] == [];
    } else {
      ListsAdd(xs[1..], s - {xs[0]}, x);
      assert (xs + [x])[1..] == xs[1..] + [x];
      assert s + {x} - {xs[0]} == s - {xs[0]} + {x};
    }
  }

  lemma {:induction false} ListsRemove<T>(xs: seq<T>, s: set<T>, i: nat)
    requires Lists(xs, s) && i < |xs|
    ensures xs[i] in s && Lists(xs[..i] + xs[i + 1..], s - {xs[i]})
  {
    var rest := xs[..i] + xs[i + 1..];
    if i == 0 {
      assert rest == xs[1..];
    } else {
      ListsRemove(xs[1..], s - {xs[0]}, i - 1);
      assert rest[1..] == xs[1..][..i - 1] + xs[1..][i..];
      assert s - {xs[0]} - {xs[i]} == s - {xs[i]} - {xs[0]};
    }
  }

  lemma {:induction false} ListsCount<T>(xs: seq<T>, s: set<T>)
    requires Lists(xs, s)
    ensures |xs| == |s|
  {
    if xs != [] {
      ListsCount(xs[1..], s - {xs[0]});
    }
  }

  method DrawOne(pool: BufferPool, held: seq<PacketBuf>) returns (b: PacketBuf)
    requires pool.Valid() && pool.Conserved() && Lists(held, pool.Live())
    modifies pool
    ensures pool.Valid() && pool.Conserved() && Lists(held + [b], pool.Live()) && fresh(b)
  {
    ghost var live := pool.Live();
    b := pool.Get();
    ListsAdd(held, live, b);
  }

  method GiveUpOne(pool: BufferPool, held: seq<PacketBuf>, i: nat) returns (held': seq<PacketBuf>)
    requires pool.Valid() && pool.Conserved() && Lists(held, pool.Live()) && i < |held|
    modifies pool, held[i]
    ensures pool.Valid() && pool.Conserved() && Lists(held', pool.Live())
    ensures held' == held[..i] + held[i + 1..]
  {
    ListsRemove(held, pool.Live(), i);
    pool.Drop(held[i]);
    assert pool.Live() == old(pool.Live()) - {held[i]};
    held' := held[..i] + held[i + 1..];
  }

  /** Dropping every buffer that is out leaves the pool full again: nothing leaks and nothing is queued twice. */
  method DropAll(pool: BufferPool, held: seq<PacketBuf>)
    requires pool.Valid() && pool.Conserved() && Lists(held, pool.Live())
    modifies pool, held
    ensures pool.Valid() && pool.Conserved() && pool.Live() == {} && |pool.queue| == pool.capacity
  {
    if held != [] {
      var rest := GiveUpOne(pool, held, 0);
      assert rest == held[1..];
      DropAll(pool, rest);
    }
  }

  lemma Balance(pool: BufferPool, held: seq<PacketBuf>)
    requires pool.Valid() && pool.Conserved() && Lists(held, pool.Live())
    ensures |pool.queue| + |held| == pool.capacity + |pool.standalone|
  {
    ListsCount(held, pool.Live());
    assert |pool.Live()| == |pool.pooled| + |pool.standalone|;
  }

  /** One use; a give-up of a buffer that is not there is none. */
  method UseOne(pool: BufferPool, held: seq<PacketBuf>, use: Use) returns (held': seq<PacketBuf>)
    requires pool.Valid() && pool.Conserved() && Lists(held, pool.Live())
    modifies pool, held
    ensures pool.Valid() && pool.Conserved() && Lists(held', pool.Live())
    ensures forall k :: 0 <= k < |held'| ==> held'[k] in held || fresh(held'[k])
  {
    match use
    case Draw =>
      var b := DrawOne(pool, held);
      held' := held + [b];
    case GiveUp(i) =>
      held' := held;
      if i < |held| {
        held' := GiveUpOne(pool, held, i);
      }
  }

  /** Any run of uses, in any order. */
  method RunUses(pool: BufferPool, held: seq<PacketBuf>, uses: seq<Use>) returns (held': seq<PacketBuf>)
    requires pool.Valid() && pool.Conserved() && Lists(held, pool.Live())
    modifies pool, held
    ensures pool.Valid() && pool.Conserved() && Lists(held', pool.Live())
    decreases |uses|
  {
    held' := held;
    if uses != [] {
      held' := UseOne(pool, held, uses[0]);
      held' := RunUses(pool, held', uses[1..]);
    }
  }

  /** After any run of uses the queue and the buffers that are out add up to the capacity and the standalone buffers. */
  method AnyRun(pool: BufferPool, held: seq<PacketBuf>, uses: seq<Use>) returns (held': seq<PacketBuf>)
    requires pool.Valid() && pool.Conserved() && Lists(held, pool.Live())
    modifies pool, held
    ensures pool.Valid() && pool.Conserved() && Lists(held', pool.Live())
    ensures |pool.queue| + |held'| == pool.capacity + |pool.standalone|
  {
    held' := RunUses(pool, held, uses);
    Balance(pool, held');
  }
}
