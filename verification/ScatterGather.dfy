/**
 The scatter/gather copy engine: a cursor (`curSge`, `sgeOffset`, `resid`) that survives from packet
 to packet walks a list of buffers.  The sender gathers the buffers into packets, the receiver
 scatters packets into its own buffers, and a short message may travel inline instead.

 The specification is independent of the cursor: `Gathered` is the concatenation of the buffers.
 */
module ScatterGather {
  import opened Prelude

  /** One buffer, inside the memory region registered under `lkey`. */
  datatype Sge = Sge(addr: nat, length: nat, lkey: nat)

  /** A registered range of addresses. */
  datatype Region = Region(start: nat, length: nat)

  type Regions = map<nat, Region>

  /** The access rule of a registered region. */
  predicate Covers(regions: Regions, lkey: nat, addr: nat, length: nat) {
    && lkey in regions
    && regions[lkey].start <= addr
    && addr + length <= regions[lkey].start + regions[lkey].length
  }

  /** Every buffer lies in memory and, unless it is empty, in its own region. */
  predicate Mapped(sges: seq<Sge>, regions: Regions, size: nat) {
    forall s <- sges :: (s.length > 0 ==> Covers(regions, s.lkey, s.addr, s.length)) && s.addr + s.length <= size
  }

  predicate InMemory(sges: seq<Sge>, size: nat) {
    forall s <- sges :: s.addr + s.length <= size
  }

  function Total(sges: seq<Sge>): nat {
    if sges == [] then 0 else sges[0].length + Total(sges[1..])
  }

  /** The contents of the buffers, one after the other. */
  function Gathered(memory: seq<byte>, sges: seq<Sge>): (r: seq<byte>)
    requires InMemory(sges, |memory|)
    ensures |r| == Total(sges)
  {
    if sges == [] then []
    else memory[sges[0].addr..sges[0].addr + sges[0].length] + Gathered(memory, sges[1..])
  }

  /** The address of byte `p` of the concatenation. */
  function Address(sges: seq<Sge>, p: nat): (a: nat)
    requires p < Total(sges)
    ensures forall size: nat :: InMemory(sges, size) ==> a < size
  {
    if p < sges[0].length then
      assert sges[0] in sges;
      sges[0].addr + p
    else
      assert forall size: nat :: InMemory(sges, size) ==> InMemory(sges[1..], size);
      Address(sges[1..], p - sges[0].length)
  }

  /** The buffers do not overlap: distinct bytes of the concatenation have distinct addresses. */
  ghost predicate Disjoint(sges: seq<Sge>) {
    forall p: nat, q: nat | p < q < Total(sges) :: Address(sges, p) != Address(sges, q)
  }

  lemma {:induction false} GatheredAt(memory: seq<byte>, sges: seq<Sge>, p: nat)
    requires InMemory(sges, |memory|) && p < Total(sges)
    ensures Gathered(memory, sges)[p] == memory[Address(sges, p)]
  {
    var head, tail := memory[sges[0].addr..sges[0].addr + sges[0].length], Gathered(memory, sges[1..]);
    AppendAt(head, tail, p);
    if p >= sges[0].length {
      GatheredAt(memory, sges[1..], p - sges[0].length);
    }
  }

  lemma AppendAt(a: seq<byte>, b: seq<byte>, p: nat)
    requires p < |a| + |b|
    ensures (a + b)[p] == if p < |a| then a[p] else b[p - |a|]
  {}

  /** The position in the concatenation of the first byte of buffer `k`. */
  function Start(sges: seq<Sge>, k: nat): nat
    requires k <= |sges|
  {
    if k == 0 then 0 else sges[0].length + Start(sges[1..], k - 1)
  }

  lemma {:induction false} StartNext(sges: seq<Sge>, k: nat)
    requires k < |sges|
    ensures Start(sges, k + 1) == Start(sges, k) + sges[k].length <= Total(sges)
    ensures k + 1 == |sges| ==> Start(sges, k + 1) == Total(sges)
  {
    if k > 0 {
      StartNext(sges[1..], k - 1);
    }
  }

  /** Byte `offset` of buffer `k` is byte `Start(sges, k) + offset` of the concatenation. */
  lemma {:induction false} AddressAt(sges: seq<Sge>, k: nat, offset: nat)
    requires k < |sges| && offset < sges[k].length
    ensures Start(sges, k) + offset < Total(sges)
    ensures Address(sges, Start(sges, k) + offset) == sges[k].addr + offset
  {
    if k > 0 {
      AddressAt(sges[1..], k - 1, offset);
    }
  }

  lemma SliceOfTail(a: seq<byte>, b: seq<byte>, from: nat, to: nat)
    requires from <= to <= |b|
    ensures (a + b)[|a| + from..|a| + to] == b[from..to]
  {}

  lemma SliceOfPart(a: seq<byte>, part: seq<byte>, base: nat, length: nat, offset: nat, bytes: nat)
    requires base + length <= |a| && part == a[base..base + length] && offset + bytes <= length
    ensures part[offset..offset + bytes] == a[base + offset..base + offset + bytes]
  {
    var l, r := part[offset..offset + bytes], a[base + offset..base + offset + bytes];
    assert forall i | 0 <= i < bytes :: l[i] == r[i];
  }

  lemma SliceOfSuffix(a: seq<byte>, at: nat, n: nat)
    requires at + n <= |a|
    ensures a[at..][..n] == a[at..at + n] && a[at..][n..] == a[at + n..]
  {}

  lemma SliceExtend(a: seq<byte>, from: nat, mid: nat, to: nat)
    requires from <= mid <= to <= |a|
    ensures a[from..mid] + a[mid..to] == a[from..to]
  {}

  lemma SliceOfHead(a: seq<byte>, b: seq<byte>, from: nat, to: nat)
    requires from <= to <= |a|
    ensures (a + b)[from..to] == a[from..to]
  {}

  lemma GatheredHead(memory: seq<byte>, sges: seq<Sge>, head: seq<byte>, tail: seq<byte>)
    requires sges != [] && InMemory(sges, |memory|) && sges[0].addr + sges[0].length <= |memory|
    requires head == memory[sges[0].addr..sges[0].addr + sges[0].length] && tail == Gathered(memory, sges[1..])
    ensures Gathered(memory, sges) == head + tail && |head| == sges[0].length
  {}

  lemma TailRange(head: seq<byte>, tail: seq<byte>, from: nat, bytes: nat)
    requires |head| <= from && from + bytes <= |head| + |tail|
    ensures (head + tail)[from..from + bytes] == tail[from - |head|..from - |head| + bytes]
  {
    SliceOfTail(head, tail, from - |head|, from - |head| + bytes);
  }

  lemma {:induction false} BufferInside(sges: seq<Sge>, size: nat, k: nat, offset: nat, bytes: nat)
    requires InMemory(sges, size) && k < |sges| && offset + bytes <= sges[k].length
    ensures Start(sges, k) + offset + bytes <= Total(sges) && sges[k].addr + sges[k].length <= size
  {
    if k > 0 {
      BufferInside(sges[1..], size, k - 1, offset, bytes);
    }
  }

  lemma PartOfHead(a: seq<byte>, head: seq<byte>, tail: seq<byte>, addr: nat, offset: nat, bytes: nat)
    requires addr + |head| <= |a| && head == a[addr..addr + |head|] && offset + bytes <= |head|
    ensures (head + tail)[offset..offset + bytes] == a[addr + offset..addr + offset + bytes]
  {
    SliceOfHead(head, tail, offset, offset + bytes);
    SliceOfPart(a, head, addr, |head|, offset, bytes);
  }

  lemma RangeInHead(memory: seq<byte>, sges: seq<Sge>, offset: nat, bytes: nat)
    requires sges != [] && InMemory(sges, |memory|) && offset + bytes <= sges[0].length
    requires sges[0].addr + sges[0].length <= |memory|
    ensures Gathered(memory, sges)[offset..offset + bytes] == memory[sges[0].addr + offset..sges[0].addr + offset + bytes]
  {
    var head, tail := memory[sges[0].addr..sges[0].addr + sges[0].length], Gathered(memory, sges[1..]);
    PartOfHead(memory, head, tail, sges[0].addr, offset, bytes);
    GatheredHead(memory, sges, head, tail);
  }

  lemma RangeInTail(memory: seq<byte>, sges: seq<Sge>, from: nat, bytes: nat, part: seq<byte>)
    requires sges != [] && InMemory(sges, |memory|) && sges[0].length <= from && from + bytes <= Total(sges)
    requires sges[0].addr + sges[0].length <= |memory|
    requires Gathered(memory, sges[1..])[from - sges[0].length..from - sges[0].length + bytes] == part
    ensures Gathered(memory, sges)[from..from + bytes] == part
  {
    var head, tail := memory[sges[0].addr..sges[0].addr + sges[0].length], Gathered(memory, sges[1..]);
    GatheredHead(memory, sges, head, tail);
    TailRange(head, tail, from, bytes);
  }

  /** Part of buffer `k`, from position `from` of the concatenation, is the corresponding part of it. */
  lemma {:induction false} GatheredRange(memory: seq<byte>, sges: seq<Sge>, k: nat, offset: nat, bytes: nat, from: nat)
    requires InMemory(sges, |memory|) && k < |sges| && sges[k].addr + sges[k].length <= |memory|
    requires offset + bytes <= sges[k].length && from == Start(sges, k) + offset && from + bytes <= Total(sges)
    ensures Gathered(memory, sges)[from..from + bytes] == memory[sges[k].addr + offset..sges[k].addr + offset + bytes]
  {
    assert sges[0] in sges;
    if k == 0 {
      RangeInHead(memory, sges, offset, bytes);
    } else {
      GatheredRange(memory, sges[1..], k - 1, offset, bytes, from - sges[0].length);
      RangeInTail(memory, sges, from, bytes, memory[sges[k].addr + offset..sges[k].addr + offset + bytes]);
    }
  }

  // ---------------------------------------------------------------- scattering

  /** `memory` after writing `data` over the bytes of the concatenation from position `from` on. */
  function Scattered(memory: seq<byte>, sges: seq<Sge>, from: nat, data: seq<byte>): (r: seq<byte>)
    requires InMemory(sges, |memory|) && from + |data| <= Total(sges)
    ensures |r| == |memory|
    decreases |data|
  {
    if data == [] then memory
    else Scattered(memory[Address(sges, from) := data[0]], sges, from + 1, data[1..])
  }

  /** `memory` with `data` in the place of the bytes from `addr` on. */
  function Overwritten(memory: seq<byte>, addr: nat, data: seq<byte>): (r: seq<byte>)
    requires addr + |data| <= |memory|
    ensures |r| == |memory|
  {
    memory[..addr] + data + memory[addr + |data|..]
  }

  lemma OverwriteNext(memory: seq<byte>, addr: nat, data: seq<byte>)
    requires addr + |data| <= |memory|
    ensures Overwritten(memory, addr, data)
         == if data == [] then memory else Overwritten(memory[addr := data[0]], addr + 1, data[1..])
  {}

  /** Inside one buffer, scattering is a block copy. */
  lemma {:induction false} ScatterBlock(memory: seq<byte>, sges: seq<Sge>, k: nat, offset: nat, data: seq<byte>)
    requires InMemory(sges, |memory|) && k < |sges| && offset + |data| <= sges[k].length
    ensures Start(sges, k) + offset + |data| <= Total(sges)
    ensures sges[k].addr + offset + |data| <= |memory|
    ensures Scattered(memory, sges, Start(sges, k) + offset, data)
         == Overwritten(memory, sges[k].addr + offset, data)
    decreases |data|
  {
    StartNext(sges, k);
    assert sges[k] in sges;
    var addr := sges[k].addr + offset;
    OverwriteNext(memory, addr, data);
    if data != [] {
      AddressAt(sges, k, offset);
      ScatterBlock(memory[addr := data[0]], sges, k, offset + 1, data[1..]);
    }
  }

  lemma {:induction false} ScatterAppend(memory: seq<byte>, sges: seq<Sge>, from: nat, a: seq<byte>, b: seq<byte>)
    requires InMemory(sges, |memory|) && from + |a| + |b| <= Total(sges)
    ensures Scattered(memory, sges, from, a + b)
         == Scattered(Scattered(memory, sges, from, a), sges, from + |a|, b)
    decreases |a|
  {
    if a == [] {
      assert a + b == b;
    } else {
      assert (a + b)[1..] == a[1..] + b;
      ScatterAppend(memory[Address(sges, from) := a[0]], sges, from + 1, a[1..], b);
    }
  }

  /** Scattering leaves every address alone that no written byte of the buffers has. */
  lemma {:induction false} ScatterFrame(memory: seq<byte>, sges: seq<Sge>, from: nat, data: seq<byte>, a: nat)
    requires InMemory(sges, |memory|) && from + |data| <= Total(sges) && a < |memory|
    requires forall p: nat | from <= p < from + |data| :: Address(sges, p) != a
    ensures Scattered(memory, sges, from, data)[a] == memory[a]
    decreases |data|
  {
    if data != [] {
      ScatterFrame(memory[Address(sges, from) := data[0]], sges, from + 1, data[1..], a);
    }
  }

  lemma {:induction false} ScatterAt(memory: seq<byte>, sges: seq<Sge>, from: nat, data: seq<byte>, i: nat)
    requires InMemory(sges, |memory|) && from + |data| <= Total(sges) && i < |data|
    requires Disjoint(sges)
    ensures Scattered(memory, sges, from, data)[Address(sges, from + i)] == data[i]
    decreases |data|
  {
    var memory' := memory[Address(sges, from) := data[0]];
    if i == 0 {
      ScatterFrame(memory', sges, from + 1, data[1..], Address(sges, from));
    } else {
      ScatterAt(memory', sges, from + 1, data[1..], i - 1);
    }
  }

  /** A byte of disjoint buffers that was not written keeps its value. */
  lemma ScatterElsewhere(memory: seq<byte>, sges: seq<Sge>, from: nat, data: seq<byte>, i: nat)
    requires InMemory(sges, |memory|) && Disjoint(sges) && from + |data| <= Total(sges) && i < Total(sges)
    requires i < from || from + |data| <= i
    ensures Scattered(memory, sges, from, data)[Address(sges, i)] == memory[Address(sges, i)]
  {
    forall p: nat | from <= p < from + |data|
      ensures Address(sges, p) != Address(sges, i)
    {
      assert p < i || i < p;
    }
    ScatterFrame(memory, sges, from, data, Address(sges, i));
  }

  /** One byte of the buffers after writing. */
  lemma GatherAfterScatterAt(memory: seq<byte>, sges: seq<Sge>, from: nat, data: seq<byte>, i: nat)
    requires InMemory(sges, |memory|) && Disjoint(sges) && from + |data| <= Total(sges) && i < Total(sges)
    ensures Gathered(Scattered(memory, sges, from, data), sges)[i]
         == if from <= i < from + |data| then data[i - from] else Gathered(memory, sges)[i]
  {
    GatheredAt(memory, sges, i);
    GatheredAt(Scattered(memory, sges, from, data), sges, i);
    if from <= i < from + |data| {
      ScatterAt(memory, sges, from, data, i - from);
    } else {
      ScatterElsewhere(memory, sges, from, data, i);
    }
  }

  /** Reading back disjoint buffers after writing part of them: the part is what was sent, the rest as before. */
  lemma GatherAfterScatter(memory: seq<byte>, sges: seq<Sge>, from: nat, data: seq<byte>)
    requires InMemory(sges, |memory|) && Disjoint(sges) && from + |data| <= Total(sges)
    ensures Gathered(Scattered(memory, sges, from, data), sges) == Overwritten(Gathered(memory, sges), from, data)
  {
    var before, after := Gathered(memory, sges), Gathered(Scattered(memory, sges, from, data), sges);
    var expected := Overwritten(before, from, data);
    forall i | 0 <= i < |after|
      ensures after[i] == expected[i]
    {
      GatherAfterScatterAt(memory, sges, from, data, i);
    }
  }

  /** No byte of the buffers has address `a`. */
  ghost predicate Outside(sges: seq<Sge>, a: nat) {
    forall p: nat | p < Total(sges) :: Address(sges, p) != a
  }

  /** The buffers hold the message, and no other byte has changed, neither behind it in them nor elsewhere. */
  ghost predicate Delivered(before: seq<byte>, after: seq<byte>, sges: seq<Sge>, message: seq<byte>) {
    && |after| == |before| && InMemory(sges, |before|) && |message| <= Total(sges)
    && Gathered(after, sges) == message + Gathered(before, sges)[|message|..]
    && forall a: nat | a < |before| && Outside(sges, a) :: after[a] == before[a]
  }

  lemma ScatteredMessage(memory: seq<byte>, sges: seq<Sge>, message: seq<byte>)
    requires InMemory(sges, |memory|) && Disjoint(sges) && |message| <= Total(sges)
    ensures Delivered(memory, Scattered(memory, sges, 0, message), sges, message)
  {
    GatherAfterScatter(memory, sges, 0, message);
    assert Gathered(memory, sges)[..0] + message == message;
    forall a: nat | a < |memory| && Outside(sges, a)
      ensures Scattered(memory, sges, 0, message)[a] == memory[a]
    {
      ScatterFrame(memory, sges, 0, message, a);
    }
  }

  // ---------------------------------------------------------------- packets

  function Lengths(lens: seq<nat>): nat {
    if lens == [] then 0 else lens[0] + Lengths(lens[1..])
  }

  /** `bytes` cut into packets of the given lengths. */
  function Packets(bytes: seq<byte>, lens: seq<nat>): seq<seq<byte>>
    requires Lengths(lens) == |bytes|
  {
    if lens == [] then [] else [bytes[..lens[0]]] + Packets(bytes[lens[0]..], lens[1..])
  }

  /** Sending one packet more of what is left. */
  lemma PacketsNext(sent: seq<seq<byte>>, rest: seq<byte>, lens: seq<nat>, all: seq<seq<byte>>)
    requires lens != [] && Lengths(lens) == |rest|
    requires sent + Packets(rest, lens) == all
    ensures lens[0] <= |rest| && Lengths(lens[1..]) == |rest[lens[0]..]|
    ensures sent + [rest[..lens[0]]] + Packets(rest[lens[0]..], lens[1..]) == all
  {}

  function Flatten(packets: seq<seq<byte>>): seq<byte> {
    if packets == [] then [] else packets[0] + Flatten(packets[1..])
  }

  lemma FlattenNext(done: seq<byte>, todo: seq<seq<byte>>, all: seq<byte>)
    requires todo != [] && done + Flatten(todo) == all
    ensures done + todo[0] + Flatten(todo[1..]) == all
  {}

  /** However a message is cut into packets, the packets in order are the message. */
  lemma {:induction false} PacketsFlatten(bytes: seq<byte>, lens: seq<nat>)
    requires Lengths(lens) == |bytes|
    ensures Flatten(Packets(bytes, lens)) == bytes
  {
    if lens != [] {
      PacketsFlatten(bytes[lens[0]..], lens[1..]);
    }
  }

  // ---------------------------------------------------------------- the cursor

  /** The cursor is inside or at the end of a buffer, or the list has none. */
  predicate OnBuffer(sges: seq<Sge>, cur: nat, offset: nat) {
    if sges == [] then cur == 0 && offset == 0 else cur < |sges| && offset <= sges[cur].length
  }

  /** rpci_ep_mem_copy() out of a region: the region looked up must cover the range. */
  method MemRead(memory: seq<byte>, regions: Regions, mem: Option<nat>, iova: nat, bytes: nat)
    returns (chunk: seq<byte>)
    requires mem.Some? && Covers(regions, mem.value, iova, bytes)
    requires iova + bytes <= |memory|
    ensures chunk == memory[iova..iova + bytes]
  {
    chunk := memory[iova..iova + bytes];
  }

  /** The key of the region behind a buffer that is not empty, looked up when the buffer is entered. */
  ghost predicate Looked(sges: seq<Sge>, cur: nat, offset: nat, mem: Option<nat>) {
    cur < |sges| && offset < sges[cur].length ==> mem == Some(sges[cur].lkey)
  }

  /** The cursor stands at position `at` of the concatenation. */
  ghost predicate StandsAt(sges: seq<Sge>, cur: nat, offset: nat, at: nat) {
    OnBuffer(sges, cur, offset) && at == Start(sges, cur) + offset
  }

  /** The payload is the bytes of `g` from `start` up to `at`. */
  ghost predicate Copied(payload: seq<byte>, g: seq<byte>, start: nat, at: nat) {
    start <= at <= |g| && payload == g[start..at]
  }

  lemma CopiedMore(payload: seq<byte>, g: seq<byte>, start: nat, at: nat, chunk: seq<byte>)
    requires Copied(payload, g, start, at) && Copied(chunk, g, at, at + |chunk|)
    ensures Copied(payload + chunk, g, start, at + |chunk|)
  {
    SliceExtend(g, start, at, at + |chunk|);
  }

  /** The same, out of one buffer and on to the payload: the bytes read are the next of the concatenation. */
  method ReadBuffer(memory: seq<byte>, regions: Regions, mem: Option<nat>, sges: seq<Sge>, cur: nat, offset: nat,
                    bytes: nat, payload: seq<byte>, ghost start: nat, ghost at: nat, ghost next: nat, ghost g: seq<byte>)
    returns (payload': seq<byte>)
    requires Mapped(sges, regions, |memory|) && cur < |sges| && g == Gathered(memory, sges)
    requires mem == Some(sges[cur].lkey) && bytes > 0 && offset + bytes <= sges[cur].length
    requires at == Start(sges, cur) + offset && next == at + bytes && Copied(payload, g, start, at)
    ensures Copied(payload', g, start, next)
  {
    assert sges[cur] in sges;
    BufferInside(sges, |memory|, cur, offset, bytes);
    GatheredRange(memory, sges, cur, offset, bytes, at);
    var chunk := MemRead(memory, regions, mem, sges[cur].addr + offset, bytes);
    CopiedMore(payload, g, start, at, chunk);
    payload' := payload + chunk;
  }

  /** At the end of a buffer: on to the next, which is there because bytes remain. */
  method NextBuffer(sges: seq<Sge>, cur: nat, mem: Option<nat>, ghost at: nat)
    returns (cur': nat, mem': Option<nat>)
    requires cur < |sges| && at == Start(sges, cur) + sges[cur].length < Total(sges)
    ensures cur' == cur + 1 < |sges| && Start(sges, cur') == at && Looked(sges, cur', 0, mem')
  {
    StartNext(sges, cur);
    cur' := cur + 1;
    mem' := if sges[cur'].length != 0 then Some(sges[cur'].lkey) else mem;
  }

  /**
   The loop of ep_copy_data() from memory into a packet of `n` bytes.  The result is the next `n`
   bytes of the concatenation, wherever the cursor stands and however many empty buffers are in the
   way.
   */
  method CopyOut(memory: seq<byte>, regions: Regions, sges: seq<Sge>, cur0: nat, offset0: nat, resid0: nat, n: nat)
    returns (payload: seq<byte>, cur: nat, offset: nat, resid: nat)
    requires Mapped(sges, regions, |memory|) && OnBuffer(sges, cur0, offset0)
    requires n <= resid0 && Start(sges, cur0) + offset0 + n <= Total(sges)
    ensures StandsAt(sges, cur, offset, Start(sges, cur0) + offset0 + n) && resid == resid0 - n
    ensures Copied(payload, Gathered(memory, sges), Start(sges, cur0) + offset0, Start(sges, cur0) + offset0 + n)
  {
    payload, cur, offset, resid := [], cur0, offset0, resid0;
    var left := n;
    var mem := None;
    if cur < |sges| && sges[cur].length != 0 && offset < sges[cur].length {
      mem := Some(sges[cur].lkey);
    }
    ghost var start := Start(sges, cur) + offset;
    ghost var at, g := start, Gathered(memory, sges);
    while left > 0
      invariant 0 <= left <= n && resid0 - resid == n - left == at - start
      invariant StandsAt(sges, cur, offset, at)
      invariant Copied(payload, g, start, at)
      invariant Looked(sges, cur, offset, mem)
      decreases left, |sges| - cur
    {
      var bytes := left;
      if offset >= sges[cur].length {
        cur, mem := NextBuffer(sges, cur, mem, at);
        offset := 0;
        if sges[cur].length == 0 {
          continue;
        }
      }
      if bytes > sges[cur].length - offset {
        bytes := sges[cur].length - offset;
      }
      if bytes > 0 {
        ghost var next := at + bytes;
        payload := ReadBuffer(memory, regions, mem, sges, cur, offset, bytes, payload, start, at, next, g);
        offset := offset + bytes;
        resid := resid - bytes;
        left := left - bytes;
        at := next;
      }
    }
  }

  /** The receiver's rpci_mem_copy() into one buffer, of the next bytes of the payload. */
  method WriteBuffer(memory: array<byte>, regions: Regions, mem: Option<nat>, sges: seq<Sge>, cur: nat, offset: nat,
                     payload: seq<byte>, done: nat, bytes: nat, ghost before: seq<byte>, ghost start: nat)
    requires Mapped(sges, regions, memory.Length) && cur < |sges| && |before| == memory.Length
    requires mem == Some(sges[cur].lkey) && bytes > 0 && offset + bytes <= sges[cur].length
    requires done + bytes <= |payload| && start + done == Start(sges, cur) + offset
    requires start + |payload| <= Total(sges)
    requires memory[..] == Scattered(before, sges, start, payload[..done])
    modifies memory
    ensures memory[..] == Scattered(before, sges, start, payload[..done + bytes])
  {
    assert sges[cur] in sges;
    var data := payload[done..done + bytes];
    ScatterBlock(memory[..], sges, cur, offset, data);
    MemWrite(memory, regions, mem, sges[cur].addr + offset, data);
    ScatterAppend(before, sges, start, payload[..done], data);
    assert payload[..done] + data == payload[..done + bytes];
  }

  method MemWrite(memory: array<byte>, regions: Regions, mem: Option<nat>, iova: nat, data: seq<byte>)
    requires mem.Some? && Covers(regions, mem.value, iova, |data|)
    requires iova + |data| <= memory.Length
    modifies memory
    ensures memory[..] == Overwritten(old(memory[..]), iova, data)
  {
    forall i | 0 <= i < |data| {
      memory[iova + i] := data[i];
    }
  }

  /** The receiver's loop, which differs from the sender's only in having no `continue`. */
  method CopyIn(memory: array<byte>, regions: Regions, sges: seq<Sge>, cur0: nat, offset0: nat, resid0: nat,
                payload: seq<byte>)
    returns (cur: nat, offset: nat, resid: nat)
    requires Mapped(sges, regions, memory.Length) && OnBuffer(sges, cur0, offset0)
    requires |payload| <= resid0 && Start(sges, cur0) + offset0 + |payload| <= Total(sges)
    modifies memory
    ensures OnBuffer(sges, cur, offset) && resid == resid0 - |payload|
    ensures Start(sges, cur) + offset == Start(sges, cur0) + offset0 + |payload|
    ensures memory[..] == Scattered(old(memory[..]), sges, Start(sges, cur0) + offset0, payload)
  {
    cur, offset, resid := cur0, offset0, resid0;
    var left := |payload|;
    var mem := None;
    if cur < |sges| && sges[cur].length != 0 && offset < sges[cur].length {
      mem := Some(sges[cur].lkey);
    }
    ghost var start, before := Start(sges, cur) + offset, memory[..];
    while left > 0
      invariant 0 <= left <= |payload| && resid0 - resid == |payload| - left
      invariant OnBuffer(sges, cur, offset) && Start(sges, cur) + offset == start + |payload| - left
      invariant memory[..] == Scattered(before, sges, start, payload[..|payload| - left])
      invariant Looked(sges, cur, offset, mem)
      decreases left, |sges| - cur
    {
      var bytes := left;
      if offset >= sges[cur].length {
        cur, mem := NextBuffer(sges, cur, mem, Start(sges, cur) + offset);
        offset := 0;
      }
      if bytes > sges[cur].length - offset {
        bytes := sges[cur].length - offset;
      }
      if bytes > 0 {
        WriteBuffer(memory, regions, mem, sges, cur, offset, payload, |payload| - left, bytes, before, start);
        offset := offset + bytes;
        resid := resid - bytes;
        left := left - bytes;
      }
    }
    assert payload[..|payload|] == payload;
  }

  /** `data` is the part of `all` before the buffers of `rest`. */
  predicate Collected(memory: seq<byte>, rest: seq<Sge>, data: seq<byte>, all: seq<byte>) {
    InMemory(rest, |memory|) && data + Gathered(memory, rest) == all
  }

  /** Copying buffer `s` behind those copied already. */
  lemma InlineNext(memory: seq<byte>, sges: seq<Sge>, i: nat, s: Sge, rest: seq<Sge>, data: seq<byte>, all: seq<byte>)
    returns (rest': seq<Sge>)
    requires i < |sges| && s == sges[i] && rest == sges[i..] && Collected(memory, rest, data, all)
    ensures rest' == sges[i + 1..] && s.addr + s.length <= |memory|
    ensures Collected(memory, rest', data + memory[s.addr..s.addr + s.length], all)
  {
    SuffixNext(sges, i, rest);
    assert rest[0] in rest;
    rest' := rest[1..];
    var head, tail := memory[s.addr..s.addr + s.length], Gathered(memory, rest');
    GatheredHead(memory, rest, head, tail);
    assert data + (head + tail) == data + head + tail;
  }

  lemma SuffixNext(sges: seq<Sge>, i: nat, rest: seq<Sge>)
    requires i < |sges| && rest == sges[i..]
    ensures rest != [] && rest[0] == sges[i] && rest[1..] == sges[i + 1..]
  {}

  lemma InlineDone(memory: seq<byte>, data: seq<byte>, all: seq<byte>)
    requires Collected(memory, [], data, all)
    ensures data == all
  {}

  /** The loop of init_send_wqe() over the buffers of an inline request. */
  method CopyInline(memory: seq<byte>, sgList: seq<Sge>) returns (data: seq<byte>)
    requires InMemory(sgList, |memory|)
    ensures data == Gathered(memory, sgList)
  {
    data := [];
    ghost var rest, all := sgList, Gathered(memory, sgList);
    var i := 0;
    while i < |sgList|
      invariant 0 <= i <= |sgList| && rest == sgList[i..]
      invariant Collected(memory, rest, data, all)
    {
      var s := sgList[i];
      rest := InlineNext(memory, sgList, i, s, rest, data, all);
      data := data + memory[s.addr..s.addr + s.length];
      i := i + 1;
    }
    InlineDone(memory, data, all);
  }

  class Dma {
    var sge: seq<Sge>
    var inlineData: seq<byte>
    var length: nat
    var resid: nat
    var curSge: nat
    var sgeOffset: nat

    /** The number of bytes already copied, as the cursor tells it. */
    function Position(): nat
      reads this
      requires curSge <= |sge|
    {
      Start(sge, curSge) + sgeOffset
    }

    /** The cursor is on a buffer, and `resid` is what lies beyond it. */
    predicate Valid()
      reads this
    {
      && OnBuffer(sge, curSge, sgeOffset)
      && length == Total(sge)
      && Position() + resid == length
    }

    predicate ValidInline()
      reads this
    {
      length == |inlineData| && sgeOffset + resid == length
    }

    /** init_send_wqe() for a request without IBV_SEND_INLINE, and rxe_post_one_recv(). */
    constructor FromList(sgList: seq<Sge>)
      ensures Valid() && sge == sgList && curSge == 0 && sgeOffset == 0 && resid == Total(sgList)
    {
      var total := 0;
      var i := 0;
      while i < |sgList|
        invariant 0 <= i <= |sgList|
        invariant total + Total(sgList[i..]) == Total(sgList)
      {
        total := total + sgList[i].length;
        i := i + 1;
      }
      sge := sgList;
      inlineData := [];
      length, resid, curSge, sgeOffset := total, total, 0, 0;
    }

    /** init_send_wqe() for a request with IBV_SEND_INLINE: the buffers are copied at once. */
    constructor Inline(memory: seq<byte>, sgList: seq<Sge>)
      requires InMemory(sgList, |memory|)
      ensures ValidInline() && inlineData == Gathered(memory, sgList) && sgeOffset == 0
    {
      var data := CopyInline(memory, sgList);
      sge := sgList;
      inlineData := data;
      length, resid, curSge, sgeOffset := |data|, |data|, 0, 0;
    }

    /** ep_copy_data() from memory into a packet of `n` bytes. */
    method CopyFrom(memory: seq<byte>, regions: Regions, n: nat) returns (payload: seq<byte>)
      requires Valid() && Mapped(sge, regions, |memory|) && n <= resid
      modifies this`curSge, this`sgeOffset, this`resid
      ensures Valid() && Position() == old(Position()) + n && resid == old(resid) - n
      ensures payload == Gathered(memory, sge)[old(Position())..old(Position()) + n]
    {
      payload, curSge, sgeOffset, resid := CopyOut(memory, regions, sge, curSge, sgeOffset, resid, n);
    }

    /** The inline branch of fill_packet(). */
    method FillInline(n: nat) returns (payload: seq<byte>)
      requires ValidInline() && n <= resid
      modifies this`sgeOffset, this`resid
      ensures ValidInline() && sgeOffset == old(sgeOffset) + n && resid == old(resid) - n
      ensures payload == inlineData[old(sgeOffset)..old(sgeOffset) + n]
    {
      payload := inlineData[sgeOffset..sgeOffset + n];
      resid := resid - n;
      sgeOffset := sgeOffset + n;
    }

    /** The receiver's copy_data() of one packet into memory. */
    method CopyTo(memory: array<byte>, regions: Regions, payload: seq<byte>)
      requires Valid() && Mapped(sge, regions, memory.Length) && |payload| <= resid
      modifies this`curSge, this`sgeOffset, this`resid, memory
      ensures Valid() && Position() == old(Position()) + |payload| && resid == old(resid) - |payload|
      ensures memory[..] == Scattered(old(memory[..]), sge, old(Position()), payload)
    {
      curSge, sgeOffset, resid := CopyIn(memory, regions, sge, curSge, sgeOffset, resid, payload);
    }
  }

  // ---------------------------------------------------------------- whole messages

  /** What a request still has to send is `rest`, whether it carries it inline or in buffers. */
  ghost predicate Carries(dma: Dma, inline: bool, memory: seq<byte>, regions: Regions, rest: seq<byte>)
    reads dma
  {
    && dma.resid == |rest|
    && (if inline then dma.ValidInline() && dma.inlineData[dma.sgeOffset..] == rest
        else dma.Valid() && Mapped(dma.sge, regions, |memory|)
             && Gathered(memory, dma.sge)[dma.Position()..] == rest)
  }

  /** init_send_wqe(): either way the request carries the concatenation of its buffers. */
  method PostSend(memory: seq<byte>, regions: Regions, sgList: seq<Sge>, inline: bool) returns (dma: Dma)
    requires InMemory(sgList, |memory|) && (!inline ==> Mapped(sgList, regions, |memory|))
    ensures fresh(dma) && Carries(dma, inline, memory, regions, Gathered(memory, sgList))
  {
    if inline {
      dma := new Dma.Inline(memory, sgList);
    } else {
      dma := new Dma.FromList(sgList);
    }
  }

  /** fill_packet(): both branches send the next `n` bytes of the message. */
  method FillPacket(dma: Dma, inline: bool, memory: seq<byte>, regions: Regions, n: nat, ghost rest: seq<byte>)
    returns (payload: seq<byte>)
    requires Carries(dma, inline, memory, regions, rest) && n <= |rest|
    modifies dma`curSge, dma`sgeOffset, dma`resid
    ensures Carries(dma, inline, memory, regions, rest[n..])
    ensures payload == rest[..n]
  {
    if inline {
      SliceOfSuffix(dma.inlineData, dma.sgeOffset, n);
      payload := dma.FillInline(n);
    } else {
      SliceOfSuffix(Gathered(memory, dma.sge), dma.Position(), n);
      payload := dma.CopyFrom(memory, regions, n);
    }
  }

  /**
   A message cut into packets of any lengths, inline or not: the packets are the message cut at those
   lengths, so neither the cursor nor the branch leaves a trace in what is sent.
   */
  method SendAll(dma: Dma, inline: bool, memory: seq<byte>, regions: Regions, lens: seq<nat>, ghost message: seq<byte>)
    returns (packets: seq<seq<byte>>)
    requires Carries(dma, inline, memory, regions, message) && Lengths(lens) == |message|
    modifies dma`curSge, dma`sgeOffset, dma`resid
    ensures packets == Packets(message, lens) && dma.resid == 0
  {
    packets := [];
    ghost var rest, todo, all := message, lens, Packets(message, lens);
    var i := 0;
    while i < |lens|
      invariant 0 <= i <= |lens| && todo == lens[i..]
      invariant Carries(dma, inline, memory, regions, rest)
      invariant Lengths(todo) == |rest| && packets + Packets(rest, todo) == all
    {
      PacketsNext(packets, rest, todo, all);
      var payload := FillPacket(dma, inline, memory, regions, lens[i], rest);
      packets := packets + [payload];
      rest, todo := rest[lens[i]..], todo[1..];
      i := i + 1;
    }
  }

  /** The receiver takes the packets in order: its buffers fill up as by one write of the whole message. */
  method ReceiveAll(dma: Dma, memory: array<byte>, regions: Regions, packets: seq<seq<byte>>)
    requires dma.Valid() && dma.Position() == 0 && |Flatten(packets)| <= dma.length
    requires Mapped(dma.sge, regions, memory.Length)
    modifies dma`curSge, dma`sgeOffset, dma`resid, memory
    ensures memory[..] == Scattered(old(memory[..]), dma.sge, 0, Flatten(packets))
    ensures dma.resid == dma.length - |Flatten(packets)|
  {
    ghost var before, sges := memory[..], dma.sge;
    ghost var done: seq<byte>, all, todo := [], Flatten(packets), packets;
    var i := 0;
    while i < |packets|
      invariant 0 <= i <= |packets| && todo == packets[i..]
      invariant done + Flatten(todo) == all
      invariant dma.Valid() && dma.Position() == |done|
      invariant memory[..] == Scattered(before, sges, 0, done)
    {
      FlattenNext(done, todo, all);
      dma.CopyTo(memory, regions, packets[i]);
      ScatterAppend(before, sges, 0, done, packets[i]);
      done, todo := done + packets[i], todo[1..];
      i := i + 1;
    }
    assert done == all;
  }

  /**
   Sender to receiver: however the message is cut and whether or not it went inline, the receiver's
   buffers end up holding the sender's bytes, and no other byte changes, neither behind the message in
   buffers with room for more nor anywhere else in its memory.
   */
  method Transfer(src: Dma, inline: bool, srcMemory: seq<byte>, srcRegions: Regions,
                  dst: Dma, dstMemory: array<byte>, dstRegions: Regions,
                  lens: seq<nat>, ghost message: seq<byte>)
    requires src != dst
    requires Carries(src, inline, srcMemory, srcRegions, message) && Lengths(lens) == |message|
    requires dst.Valid() && dst.Position() == 0 && |message| <= dst.length
    requires Mapped(dst.sge, dstRegions, dstMemory.Length) && Disjoint(dst.sge)
    modifies src`curSge, src`sgeOffset, src`resid, dst`curSge, dst`sgeOffset, dst`resid, dstMemory
    ensures Delivered(old(dstMemory[..]), dstMemory[..], dst.sge, message)
    ensures src.resid == 0 && dst.resid == dst.length - |message|
  {
    ghost var before := dstMemory[..];
    var packets := SendAll(src, inline, srcMemory, srcRegions, lens, message);
    PacketsFlatten(message, lens);
    ReceiveAll(dst, dstMemory, dstRegions, packets);
    ScatteredMessage(before, dst.sge, message);
  }
}
