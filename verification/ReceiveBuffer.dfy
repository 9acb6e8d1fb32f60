/** The receive buffer of a TCP link: a byte queue in an array that grows, compacted lazily. */
module ReceiveBuffers {
  import opened Bytes

  /** `TCP_LINK_BUFFER_DEFAULT`, `TCP_LINK_BUFFER_MAX`, and the size of one read. */
  const BUFFER_DEFAULT: nat := 1024 * 256
  const BUFFER_MAX: nat := 1024 * 1024
  const READ_MAX: nat := 64 * 1024

  // ---- the queue

  /** What the link keeps: the bytes not yet handled, the handled bytes still in front of them in the array,
      and the array's size. */
  datatype View = View(stale: seq<byte>, queue: seq<byte>, capacity: nat)

  const Empty: View := View([], [], BUFFER_DEFAULT)

  ghost predicate Fits(v: View) {
    && BUFFER_DEFAULT <= v.capacity < BUFFER_MAX + READ_MAX
    && |v.stale| + |v.queue| <= v.capacity
    && (v.stale == [] || |v.stale| < |v.queue|)
  }

  predicate Full(v: View, data: seq<byte>) { |v.stale| + |v.queue| + |data| >= v.capacity }

  /** The link gives up all it has, the new bytes included. */
  predicate Drops(v: View, data: seq<byte>) { Full(v, data) && v.capacity >= BUFFER_MAX }

  function Added(v: View, data: seq<byte>): View {
    if Drops(v, data) then View([], [], v.capacity)
    else if Full(v, data) then View([], v.queue + data, |v.stale| + |v.queue| + |data|)
    else v.(queue := v.queue + data)
  }

  /** Bytes that a removal of `n` bytes has to move to the front of the array. */
  function Moved(v: View, n: nat): nat {
    if n < |v.queue| <= |v.stale| + 2 * n then |v.queue| - n else 0
  }

  function Removed(v: View, n: nat): View {
    if n >= |v.queue| then View([], [], v.capacity)
    else if |v.queue| <= |v.stale| + 2 * n then View([], v.queue[n..], v.capacity)
    else View(v.stale + v.queue[..n], v.queue[n..], v.capacity)
  }

  /** What the handler is shown: as many bytes as the queue has, from the start of the array. */
  function Shown(v: View): seq<byte> { (v.stale + v.queue)[..|v.queue|] }

  lemma AddedFits(v: View, data: seq<byte>)
    requires Fits(v) && |data| <= READ_MAX
    ensures Fits(Added(v, data)) && |Added(v, data).stale| <= |v.stale|
  {}

  lemma RemovedFits(v: View, n: nat)
    requires Fits(v)
    ensures Fits(Removed(v, n))
    ensures Moved(v, n) + |Removed(v, n).stale| <= |v.stale| + if n <= |v.queue| then n else |v.queue|
  {}

  lemma AddedCases(v: View, data: seq<byte>)
    ensures var n := |v.stale| + |v.queue| + |data|;
            Added(v, data) ==
              if n < v.capacity then View(v.stale, v.queue + data, v.capacity)
              else if v.capacity >= BUFFER_MAX then View([], [], v.capacity)
              else View([], v.queue + data, n)
  {}

  lemma RemovedCases(v: View, n: nat)
    ensures n >= |v.queue| ==> Removed(v, n) == View([], [], v.capacity) && Moved(v, n) == 0
    ensures n < |v.queue| ==>
              if |v.queue| - n <= |v.stale| + n
              then Removed(v, n) == View([], v.queue[n..], v.capacity) && Moved(v, n) == |v.queue| - n
              else Removed(v, n) == View(v.stale + v.queue[..n], v.queue[n..], v.capacity) && Moved(v, n) == 0
  {}

  // ---- the link's buffer

  /** `memcpy`: its ranges may not overlap. */
  method CopyBytes(dst: array<byte>, to: nat, src: array<byte>, from: nat, n: nat)
    requires to + n <= dst.Length && from + n <= src.Length
    requires dst == src ==> to + n <= from || from + n <= to
    modifies dst
    ensures forall k :: 0 <= k < dst.Length ==> dst[k] == if to <= k < to + n then old(src[from + k - to]) else old(dst[k])
  {
    for i := 0 to n
      invariant forall k :: 0 <= k < dst.Length ==> dst[k] == if to <= k < to + i then old(src[from + k - to]) else old(dst[k])
      invariant forall k :: from <= k < from + n ==> src[k] == old(src[k])
    {
      dst[to + i] := src[from + i];
    }
  }

  class ReceiveBuffer {
    var m_pBuffer: array<byte>
    var m_nPos: int
    var m_nLen: int
    var m_nCapacity: int
    ghost var moved: nat      // bytes moved by compaction so far
    ghost var removed: nat    // bytes removed so far

    ghost predicate Valid()
      reads this, m_pBuffer
    {
      && Shaped()
      && Fits(Abstract())
      && moved + m_nPos <= removed
    }

    ghost function Abstract(): View
      reads this, m_pBuffer
      requires Shaped()
    {
      View(m_pBuffer[..m_nPos], m_pBuffer[m_nPos..m_nPos + m_nLen], m_nCapacity)
    }

    constructor ()
      ensures Valid() && fresh(m_pBuffer) && Abstract() == Empty == View([], [], 0x40000) && moved == removed == 0
    {
      m_pBuffer := new byte[BUFFER_DEFAULT];
      m_nPos, m_nLen, m_nCapacity := 0, 0, BUFFER_DEFAULT;
      moved, removed := 0, 0;
    }

    /** The fields agree with each other. */
    ghost predicate Shaped()
      reads this, m_pBuffer
    {
      m_pBuffer.Length == m_nCapacity && 0 <= m_nPos && 0 <= m_nLen && m_nPos + m_nLen <= m_nCapacity
    }

    /** The queue in a new array, at its start. */
    method Grow(capacity: int)
      requires Shaped() && m_nLen <= capacity
      modifies this
      ensures Shaped() && fresh(m_pBuffer) && m_nLen == old(m_nLen) && moved == old(moved) && removed == old(removed)
      ensures Abstract() == View([], old(Abstract().queue), capacity)
    {
      m_nCapacity := capacity;
      var grown := new byte[m_nCapacity];
      CopyBytes(grown, 0, m_pBuffer, m_nPos, m_nLen);
      assert grown[0..m_nLen] == m_pBuffer[m_nPos..m_nPos + m_nLen];
      m_nPos := 0;
      m_pBuffer := grown;
    }

    /** The bytes after the queue. */
    method Append(data: array<byte>, len: int)
      requires Shaped() && 0 <= len <= data.Length && m_nPos + m_nLen + len <= m_nCapacity && data != m_pBuffer
      modifies this`m_nLen, m_pBuffer
      ensures Shaped() && Abstract() == old(Abstract()).(queue := old(Abstract().queue) + data[..len])
    {
      CopyBytes(m_pBuffer, m_nPos + m_nLen, data, 0, len);
      m_nLen := m_nLen + len;
      assert m_pBuffer[m_nPos..m_nPos + m_nLen] == old(m_pBuffer[m_nPos..m_nPos + m_nLen]) + data[..len];
      assert m_pBuffer[..m_nPos] == old(m_pBuffer[..m_nPos]);
    }

    /** `TcpLink::addData` */
    method AddData(data: array<byte>, len: int)
      requires Valid() && 0 <= len <= data.Length && len <= READ_MAX && data != m_pBuffer
      modifies this, m_pBuffer
      ensures Valid() && (m_pBuffer == old(m_pBuffer) || fresh(m_pBuffer))
      ensures Abstract() == Added(old(Abstract()), data[..len])
      ensures var v := old(Abstract());
              var n := |v.stale| + |v.queue| + len;
              Abstract() ==
              if n < v.capacity then v.(queue := v.queue + data[..len])
              else if v.capacity < 0x100000 then View([], v.queue + data[..len], n)
              else View([], [], v.capacity)
      ensures moved == old(moved) && removed == old(removed) && data[..] == old(data[..])
    {
      hide Fits, Added, Full, Drops;
      ghost var v, given := Abstract(), data[..len];
      AddedFits(v, given);
      AddedCases(v, given);
      if m_nPos + m_nLen + len >= m_nCapacity {
        if m_nCapacity >= BUFFER_MAX {
          m_nLen := 0;
          m_nPos := 0;
          return;
        } else {
          Grow(m_nPos + m_nLen + len);
        }
      }
      Append(data, len);
    }

    /** The queue at the start of the same array. */
    method Compact()
      requires Shaped() && m_nPos >= m_nLen
      modifies this`m_nPos, this`moved, m_pBuffer
      ensures Shaped() && Abstract() == old(Abstract()).(stale := []) && moved == old(moved) + m_nLen
    {
      CopyBytes(m_pBuffer, 0, m_pBuffer, m_nPos, m_nLen);
      moved := moved + m_nLen;
      m_nPos := 0;
      assert m_pBuffer[0..m_nLen] == old(m_pBuffer[m_nPos..m_nPos + m_nLen]);
    }

    /** The queue's first `len` bytes have become stale. */
    twostate lemma Advanced(len: int)
      requires old(Shaped()) && 0 <= len <= old(m_nLen)
      requires m_nPos == old(m_nPos) + len && m_nLen == old(m_nLen) - len
      requires m_pBuffer == old(m_pBuffer) && m_pBuffer[..] == old(m_pBuffer[..]) && m_nCapacity == old(m_nCapacity)
      ensures Shaped()
      ensures var v := old(Abstract()); Abstract() == View(v.stale + v.queue[..len], v.queue[len..], v.capacity)
    {
      ghost var v := old(Abstract());
      assert m_pBuffer[..m_nPos] == v.stale + v.queue[..len];
      assert m_pBuffer[m_nPos..m_nPos + m_nLen] == v.queue[len..];
    }

    /** `TcpLink::removeData` */
    method RemoveData(len: int)
      requires Valid() && 0 <= len
      modifies this, m_pBuffer
      ensures Valid() && m_pBuffer == old(m_pBuffer)
      ensures Abstract() == Removed(old(Abstract()), len)
      ensures moved == old(moved) + Moved(old(Abstract()), len)
      ensures removed == old(removed) + if len <= old(m_nLen) then len else old(m_nLen)
    {
      hide Fits, Removed, Moved;
      ghost var v := Abstract();
      RemovedFits(v, len);
      RemovedCases(v, len);
      removed := removed + if len <= m_nLen then len else m_nLen;
      m_nPos := m_nPos + len;
      m_nLen := m_nLen - len;
      if m_nLen < 0 {
        m_nLen := 0;
        m_nPos := 0;
      } else if m_nLen == 0 {
        m_nPos := 0;
      } else {
        Advanced(len);
        if m_nPos >= m_nLen { Compact(); }
      }
    }

    /** The buffer part of `TcpLink::on_read`, up to the handler: what the handler is shown begins at the start
        of the array, wherever the queue begins. */
    method Receive(data: array<byte>, nread: int) returns (shown: seq<byte>)
      requires Valid() && 0 < nread <= data.Length && nread <= READ_MAX && data != m_pBuffer
      modifies this, m_pBuffer
      ensures Valid() && (m_pBuffer == old(m_pBuffer) || fresh(m_pBuffer))
      ensures Abstract() == Added(old(Abstract()), data[..nread])
      ensures shown == Shown(Abstract())
    {
      AddData(data, nread);
      shown := m_pBuffer[..m_nLen];
      assert Abstract().stale + Abstract().queue == m_pBuffer[..m_nPos + m_nLen];
    }

    /** The rest of it: `handled` is what the handler returned. */
    method Handled(handled: int)
      requires Valid()
      modifies this, m_pBuffer
      ensures Valid() && m_pBuffer == old(m_pBuffer)
      ensures Abstract() == if handled > 0 then Removed(old(Abstract()), handled) else old(Abstract())
    {
      if handled > 0 { RemoveData(handled); }
    }
  }

  // ---- whole runs

  datatype Op = Add(data: seq<byte>) | Remove(n: nat)

  /** What has gone in and out, beside the queue itself. */
  datatype Ledger = Ledger(v: View, added: seq<byte>, taken: seq<byte>, dropped: nat, moved: nat)

  function Begin(): Ledger { Ledger(Empty, [], [], 0, 0) }

  function Step(l: Ledger, op: Op): Ledger {
    match op
    case Add(data) =>
      l.(v := Added(l.v, data), added := l.added + data,
         dropped := if Drops(l.v, data) then l.dropped + |l.v.queue| + |data| else l.dropped)
    case Remove(n) =>
      l.(v := Removed(l.v, n), moved := l.moved + Moved(l.v, n),
         taken := l.taken + l.v.queue[..if n <= |l.v.queue| then n else |l.v.queue|])
  }

  function Run(l: Ledger, ops: seq<Op>): Ledger {
    if ops == [] then l else Step(Run(l, ops[..|ops| - 1]), ops[|ops| - 1])
  }

  predicate SmallReads(ops: seq<Op>) {
    forall i :: 0 <= i < |ops| ==> ops[i].Add? ==> |ops[i].data| <= READ_MAX
  }

  /** The ledger balances. */
  ghost predicate Balanced(l: Ledger) {
    && Fits(l.v)
    && |l.added| == |l.taken| + |l.v.queue| + l.dropped
    && (l.dropped == 0 ==> l.added == l.taken + l.v.queue)
    && l.moved + |l.v.stale| <= |l.taken| && l.v.stale == l.taken[|l.taken| - |l.v.stale|..]
  }

  lemma StepBalanced(l: Ledger, op: Op)
    requires Balanced(l) && (op.Add? ==> |op.data| <= READ_MAX)
    ensures Balanced(Step(l, op))
  {
    match op
    case Add(data) =>
      if l.dropped == 0 && !Drops(l.v, data) {
        assert l.added + data == l.taken + (l.v.queue + data);
      }
    case Remove(n) =>
      var q := l.v.queue;
      var k := if n <= |q| then n else |q|;
      assert q == q[..k] + q[k..];
      if l.dropped == 0 { assert l.added == (l.taken + q[..k]) + q[k..]; }
  }

  /** Over any run of reads and removals: the positions stay inside the array, which stays below 1 MiB + 64 KiB;
      as long as nothing was dropped, what was added is what was taken followed by the queue, in order; and
      compaction has moved no more bytes than were taken. */
  lemma {:induction false} RunBalanced(ops: seq<Op>)
    requires SmallReads(ops)
    ensures Balanced(Run(Begin(), ops))
    decreases |ops|
  {
    if ops != [] {
      RunBalanced(ops[..|ops| - 1]);
      StepBalanced(Run(Begin(), ops[..|ops| - 1]), ops[|ops| - 1]);
    }
  }

  /** Every read comes on a queue that, doubled, leaves room for it below 1 MiB. */
  ghost predicate ShortQueues(ops: seq<Op>) {
    forall i :: 0 <= i < |ops| ==> ops[i].Add? ==> 2 * |Run(Begin(), ops[..i]).v.queue| + |ops[i].data| < BUFFER_MAX
  }

  /** Then no byte is ever dropped. */
  lemma {:induction false} NothingDropped(ops: seq<Op>)
    requires SmallReads(ops) && ShortQueues(ops)
    ensures Run(Begin(), ops).dropped == 0
    decreases |ops|
  {
    if ops != [] {
      var front := ops[..|ops| - 1];
      forall i | 0 <= i < |front| ensures front[..i] == ops[..i] {}
      RunBalanced(front);
      NothingDropped(front);
    }
  }

  // ---- what the handler is shown

  /** A step after which the queue begins at the start of the array, if it did before: each handler call takes
      nothing or at least half of the queue. */
  predicate TakesHalf(l: Ledger, op: Op) { op.Remove? ==> op.n == 0 || |l.v.queue| <= 2 * op.n }

  ghost predicate AllTakeHalf(ops: seq<Op>) {
    forall i :: 0 <= i < |ops| ==> TakesHalf(Run(Begin(), ops[..i]), ops[i])
  }

  ghost predicate AllInFront(ops: seq<Op>) {
    forall k :: 0 <= k <= |ops| ==> Run(Begin(), ops[..k]).v.stale == []
  }

  /** The queue begins at the start of the array after every step, which is where the handler looks, if and
      only if each handler call takes nothing or at least half of the queue. */
  lemma {:induction false} QueueInFront(ops: seq<Op>)
    ensures AllTakeHalf(ops) <==> AllInFront(ops)
    decreases |ops|
  {
    hide Run, Begin, TakesHalf;
    if ops == [] {
      assert ops[..0] == [];
      NothingRun();
    } else {
      var n := |ops| - 1;
      var front := ops[..n];
      QueueInFront(front);
      Longer(ops);
      RunLast(ops);
      if AllInFront(front) {
        assert front[..n] == front && Run(Begin(), front[..n]).v.stale == [];
        FrontStep(Run(Begin(), front), ops[n]);
      }
    }
  }

  lemma NothingRun()
    ensures Run(Begin(), []).v.stale == []
  {}

  lemma RunLast(ops: seq<Op>)
    requires ops != []
    ensures Run(Begin(), ops) == Step(Run(Begin(), ops[..|ops| - 1]), ops[|ops| - 1])
  {}

  lemma Longer(ops: seq<Op>)
    requires ops != []
    ensures var n := |ops| - 1;
            (AllTakeHalf(ops) <==> AllTakeHalf(ops[..n]) && TakesHalf(Run(Begin(), ops[..n]), ops[n])) &&
            (AllInFront(ops) <==> AllInFront(ops[..n]) && Run(Begin(), ops).v.stale == [])
  {
    hide Run, Begin, TakesHalf;
    var n := |ops| - 1;
    var front := ops[..n];
    forall i | 0 <= i <= n ensures front[..i] == ops[..i] {}
    assert ops[..n + 1] == ops;
    if AllTakeHalf(ops) {
      forall i | 0 <= i < n ensures TakesHalf(Run(Begin(), front[..i]), front[i]) {
        assert TakesHalf(Run(Begin(), ops[..i]), ops[i]);
      }
    }
    if AllTakeHalf(front) {
      forall i | 0 <= i < n ensures TakesHalf(Run(Begin(), ops[..i]), ops[i]) {
        assert TakesHalf(Run(Begin(), front[..i]), front[i]);
      }
    }
    if AllInFront(ops) {
      forall k | 0 <= k <= n ensures Run(Begin(), front[..k]).v.stale == [] {
        assert Run(Begin(), ops[..k]).v.stale == [];
      }
      assert Run(Begin(), ops[..n + 1]).v.stale == [];
    }
    if AllInFront(front) && Run(Begin(), ops).v.stale == [] {
      forall k | 0 <= k <= n + 1 ensures Run(Begin(), ops[..k]).v.stale == [] {
        if k <= n { assert Run(Begin(), front[..k]).v.stale == []; }
      }
    }
  }

  lemma FrontStep(l: Ledger, op: Op)
    requires l.v.stale == []
    ensures Step(l, op).v.stale == [] <==> TakesHalf(l, op)
  {}

  /** What the handler is shown after any run: the bytes it took since the queue was last at the start of the
      array, and after them the front of the queue, cut off by as many bytes. It is the queue if and only if
      those bytes come again at its start and it repeats itself at their distance from there on. */
  lemma ShownBytes(ops: seq<Op>)
    requires SmallReads(ops)
    ensures var l := Run(Begin(), ops);
            var k, q := |l.v.stale|, l.v.queue;
            k <= |l.taken| && k <= |q| &&
            Shown(l.v) == l.taken[|l.taken| - k..] + q[..|q| - k] &&
            (Shown(l.v) == q <==> q[..k] == l.taken[|l.taken| - k..] && forall i :: k <= i < |q| ==> q[i] == q[i - k])
  {
    RunBalanced(ops);
    var l := Run(Begin(), ops);
    var k, q := |l.v.stale|, l.v.queue;
    assert Shown(l.v) == l.v.stale + q[..|q| - k];
    if Shown(l.v) == q {
      forall i | k <= i < |q| ensures q[i] == q[i - k] { assert Shown(l.v)[i] == q[i]; }
    }
    if q[..k] == l.v.stale && forall i :: k <= i < |q| ==> q[i] == q[i - k] {
      forall i | 0 <= i < |q| ensures q[i] == Shown(l.v)[i] {
        if i < k { assert q[..k][i] == l.v.stale[i]; }
      }
      assert Shown(l.v) == q;
    }
  }

  /** A handler that takes one of three bytes is shown that byte again on the next read. */
  lemma StaleRead(a: byte, b: byte, c: byte, d: byte)
    ensures var v := Added(Removed(Added(Empty, [a, b, c]), 1), [d]);
            v.queue == [b, c, d] && Shown(v) == [a, b, c]
  {
    assert [] + [a, b, c] == [a, b, c];
    assert Removed(View([], [a, b, c], BUFFER_DEFAULT), 1) == View([a], [b, c], BUFFER_DEFAULT);
  }
}
