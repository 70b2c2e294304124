/**
 Fragmentation and reassembly of packets: chunks are cut in place, the header of
 a chunk overwriting a byte of the chunk sent before it.
 */
module Packets {
  import opened Wrappers
  import opened Bytes

  const BT_ATT_HEADER_LEN: nat := 3
  const START_OR_CONTINUE: byte := 0x0
  const FINAL: byte := 0x1

  // ----- Sending -------------------------------------------------------------

  /** `pairing_ind_len_get`: the usable length per indication, 0 on a closing link. */
  function UsableLen(mtu: nat): nat {
    if mtu <= BT_ATT_HEADER_LEN then 0 else mtu - BT_ATT_HEADER_LEN
  }

  /** The number of packet bytes that the next chunk takes. */
  function Taken(p: seq<byte>, m: nat): (n: nat)
    requires m > 0
    ensures n <= |p|
  {
    if m > |p| then |p| else m - 1
  }

  /** The next chunk of the unsent bytes `p`. */
  function Chunk(p: seq<byte>, m: nat): (chunk: seq<byte>)
    requires m > 0
  {
    [if m > |p| then FINAL else START_OR_CONTINUE] + p[..Taken(p, m)]
  }

  /** The chunks of `p`; the usable length may change from chunk to chunk. */
  function Chunks(p: seq<byte>, lens: nat -> nat, i: nat): seq<seq<byte>>
    requires forall j :: lens(j) >= 2
    decreases |p|
  {
    if p == [] then []
    else [Chunk(p, lens(i))] + Chunks(p[Taken(p, lens(i))..], lens, i + 1)
  }

  // ----- Receiving -------------------------------------------------------------

  datatype CollectError = EINVAL | ENOMEM

  /** `fmna_gatt_pkt_manager_chunk_collect` on a packet buffer of the given capacity. */
  function Collect(pkt: seq<byte>, capacity: nat, chunk: seq<byte>): Result<(seq<byte>, bool), CollectError>
    requires |pkt| <= capacity
  {
    if chunk == [] then Err(EINVAL)
    else if chunk[0] != START_OR_CONTINUE && chunk[0] != FINAL then Err(EINVAL)
    else if capacity - |pkt| < |chunk| - 1 then Err(ENOMEM)
    else Ok((pkt + chunk[1..], chunk[0] == FINAL))
  }

  /** A receiver: the bytes collected so far and the packets completed so far. */
  datatype Receiver = Receiver(pkt: seq<byte>, done: seq<seq<byte>>)

  /** One received chunk: a complete packet is handed on, an invalid one discarded. */
  function Receive(r: Receiver, capacity: nat, chunk: seq<byte>): (r': Receiver)
    requires |r.pkt| <= capacity
    ensures |r'.pkt| <= capacity
  {
    match Collect(r.pkt, capacity, chunk)
    case Err(_) => r.(pkt := [])
    case Ok((pkt, complete)) => if complete then Receiver([], r.done + [pkt]) else r.(pkt := pkt)
  }

  function ReceiveAll(r: Receiver, capacity: nat, chunks: seq<seq<byte>>): (r': Receiver)
    requires |r.pkt| <= capacity
    ensures |r'.pkt| <= capacity
    decreases chunks
  {
    if chunks == [] then r else ReceiveAll(Receive(r, capacity, chunks[0]), capacity, chunks[1..])
  }

  // ----- Theorems --------------------------------------------------------------

  /** A chunk for an indication fits it beside the three bytes of the attribute protocol's header. */
  lemma ChunkFitsTheLink(p: seq<byte>, mtu: nat)
    ensures UsableLen(mtu) > 0 <==> mtu > 3
    ensures UsableLen(mtu) > 0 ==> |Chunk(p, UsableLen(mtu))| + 3 <= mtu
  {
  }

  /**
   A chunk is collected exactly if it is one of the two headers and bytes that still fit
   the packet; it completes the packet exactly if it has the final header.
   */
  lemma CollectedIff(pkt: seq<byte>, capacity: nat, header: byte, bytes: seq<byte>)
    requires |pkt| <= capacity
    ensures Collect(pkt, capacity, []) == Err(EINVAL)
    ensures Collect(pkt, capacity, [header] + bytes) ==
            if header != 0 && header != 1 then Err(EINVAL)
            else if |pkt| + |bytes| > capacity then Err(ENOMEM)
            else Ok((pkt + bytes, header == 1))
  {
    assert ([header] + bytes)[1..] == bytes;
  }

  lemma ChunkCollected(pkt: seq<byte>, capacity: nat, p: seq<byte>, m: nat)
    requires m >= 2 && p != [] && |pkt| + |p| <= capacity
    ensures 0 < Taken(p, m)
    ensures Collect(pkt, capacity, Chunk(p, m)) == Ok((pkt + p[..Taken(p, m)], Taken(p, m) == |p|))
  {
    assert Chunk(p, m)[1..] == p[..Taken(p, m)];
  }

  /** Feeding the chunks of a packet to the receiver yields the packet, once and whole. */
  lemma {:induction false} ChunksReassemble(r: Receiver, capacity: nat, p: seq<byte>, lens: nat -> nat, i: nat)
    requires forall j :: lens(j) >= 2
    requires p != [] && |r.pkt| + |p| <= capacity
    ensures ReceiveAll(r, capacity, Chunks(p, lens, i)) == Receiver([], r.done + [r.pkt + p])
    decreases |p|
  {
    var m := lens(i);
    var rest := p[Taken(p, m)..];
    var r1 := Receive(r, capacity, Chunk(p, m));
    ChunkCollected(r.pkt, capacity, p, m);
    assert ([Chunk(p, m)] + Chunks(rest, lens, i + 1))[1..] == Chunks(rest, lens, i + 1);
    if rest == [] {
      assert p[..Taken(p, m)] == p;
    } else {
      ChunksReassemble(r1, capacity, rest, lens, i + 1);
      assert (r.pkt + p[..Taken(p, m)]) + rest == r.pkt + p;
    }
  }

  /** An invalid chunk discards what was collected; the next packet is received whole. */
  lemma RecoversAfterInvalid(r: Receiver, capacity: nat, bad: seq<byte>, p: seq<byte>, lens: nat -> nat)
    requires |r.pkt| <= capacity && Collect(r.pkt, capacity, bad).Err?
    requires (forall j :: lens(j) >= 2) && 0 < |p| <= capacity
    ensures ReceiveAll(r, capacity, [bad] + Chunks(p, lens, 0)) == Receiver([], r.done + [p])
  {
    var chunks := Chunks(p, lens, 0);
    assert ([bad] + chunks)[1..] == chunks;
    ChunksReassemble(Receive(r, capacity, bad), capacity, p, lens, 0);
    assert [] + p == p;
  }

  /** Every chunk fits its usable length, and only the last one is marked final. */
  lemma {:induction false} OnlyLastIsFinal(p: seq<byte>, lens: nat -> nat, i: nat, k: nat)
    requires forall j :: lens(j) >= 2
    requires k < |Chunks(p, lens, i)|
    ensures var chunks := Chunks(p, lens, i);
            && 2 <= |chunks[k]| <= lens(i + k)
            && chunks[k][0] == if k == |chunks| - 1 then FINAL else START_OR_CONTINUE
    decreases |p|
  {
    var rest := p[Taken(p, lens(i))..];
    if k > 0 {
      OnlyLastIsFinal(rest, lens, i + 1, k - 1);
    } else {
      assert rest != [] ==> |Chunks(rest, lens, i + 1)| > 0;
    }
  }

  /** A stream of packets, chunk after chunk; `lens(k, j)` is the length for chunk `j` of packet `k`. */
  function StreamOf(packets: seq<seq<byte>>, lens: (nat, nat) -> nat): seq<seq<byte>>
    requires forall k, j :: lens(k, j) >= 2
  {
    if packets == [] then []
    else
      var n := |packets| - 1;
      StreamOf(packets[..n], lens) + Chunks(packets[n], j => lens(n, j), 0)
  }

  lemma {:induction false} ReceiveAppend(r: Receiver, capacity: nat, a: seq<seq<byte>>, b: seq<seq<byte>>)
    requires |r.pkt| <= capacity
    ensures |ReceiveAll(r, capacity, a).pkt| <= capacity
    ensures ReceiveAll(r, capacity, a + b) == ReceiveAll(ReceiveAll(r, capacity, a), capacity, b)
    decreases a
  {
    if a == [] {
      assert a + b == b;
    } else {
      assert (a + b)[1..] == a[1..] + b;
      ReceiveAppend(Receive(r, capacity, a[0]), capacity, a[1..], b);
    }
  }

  // ----- A packet on its way ---------------------------------------------------

  /** What a receiver makes of the chunks. */
  function Received(capacity: nat, chunks: seq<seq<byte>>): (r: Receiver)
    ensures |r.pkt| <= capacity
  {
    ReceiveAll(Receiver([], []), capacity, chunks)
  }

  /** The receiver has the packet, or a beginning of it and nothing else. */
  predicate DeliveredRight(capacity: nat, data: seq<byte>, chunks: seq<seq<byte>>, whole: bool) {
    var r := Received(capacity, chunks);
    if whole then r == Receiver([], [data]) else r.done == [] && r.pkt <= data
  }

  /** The chunks sent so far and the unsent bytes make up the packet. */
  predicate OnItsWay(capacity: nat, data: seq<byte>, rest: seq<byte>, chunks: seq<seq<byte>>) {
    && |rest| <= |data| <= capacity
    && data[|data| - |rest|..] == rest
    && Received(capacity, chunks) == if rest == [] then Receiver([], [data]) else Receiver(data[..|data| - |rest|], [])
  }

  lemma ReceivedOneMore(capacity: nat, chunks: seq<seq<byte>>, chunk: seq<byte>)
    ensures Received(capacity, chunks + [chunk]) == Receive(Received(capacity, chunks), capacity, chunk)
  {
    ReceiveAppend(Receiver([], []), capacity, chunks, [chunk]);
    assert [chunk][1..] == [];
  }

  /** The receiver's view of a chunk cut from the rest of a packet. */
  lemma NextChunkReceived(capacity: nat, data: seq<byte>, rest: seq<byte>, chunks: seq<seq<byte>>, m: nat)
    requires m > 0 && rest != [] && OnItsWay(capacity, data, rest, chunks)
    ensures OnItsWay(capacity, data, rest[Taken(rest, m)..], chunks + [Chunk(rest, m)])
  {
    var rest' := rest[Taken(rest, m)..];
    var pkt := data[..|data| - |rest|];
    var chunk := Chunk(rest, m);
    ReceivedOneMore(capacity, chunks, chunk);
    hide Received;
    assert chunk[1..] == rest[..Taken(rest, m)];
    assert data == pkt + rest;
    assert pkt + chunk[1..] == data[..|data| - |rest'|];
    if rest' == [] {
      assert chunk[0] == FINAL;
      assert pkt + chunk[1..] == data;
      assert [] + [data] == [data];
    }
  }

  /** Nothing of the packet is sent yet. */
  lemma NothingSent(capacity: nat, data: seq<byte>)
    requires 0 < |data| <= capacity
    ensures OnItsWay(capacity, data, data, [])
  {
    assert data[0..] == data && data[..0] == [];
  }

  /** Until the last chunk is out, the receiver has a beginning of the packet. */
  lemma PartlyDelivered(capacity: nat, data: seq<byte>, rest: seq<byte>, chunks: seq<seq<byte>>)
    requires OnItsWay(capacity, data, rest, chunks)
    ensures DeliveredRight(capacity, data, chunks, rest == [])
  {
    hide Received;
  }

  /** The receiver completes exactly the packets of the stream, in order. */
  lemma {:induction false} StreamReassembles(capacity: nat, packets: seq<seq<byte>>, lens: (nat, nat) -> nat)
    requires forall k, j :: lens(k, j) >= 2
    requires forall k :: 0 <= k < |packets| ==> 0 < |packets[k]| <= capacity
    ensures ReceiveAll(Receiver([], []), capacity, StreamOf(packets, lens)) == Receiver([], packets)
  {
    if packets != [] {
      var n := |packets| - 1;
      StreamReassembles(capacity, packets[..n], lens);
      ReceiveAppend(Receiver([], []), capacity, StreamOf(packets[..n], lens), Chunks(packets[n], j => lens(n, j), 0));
      ChunksReassemble(Receiver([], packets[..n]), capacity, packets[n], j => lens(n, j), 0);
      assert [] + packets[n] == packets[n];
      assert packets[..n] + [packets[n]] == packets;
    }
  }

  /** With a constant usable length `m` there are ceil(|p| / (m - 1)) chunks. */
  lemma {:induction false} ChunkCount(p: seq<byte>, m: nat, i: nat)
    requires m >= 2
    ensures var n := |Chunks(p, _ => m, i)|;
            (n - 1) * (m - 1) < |p| <= n * (m - 1) || (p == [] && n == 0)
    decreases |p|
  {
    if p != [] {
      var rest := p[Taken(p, m)..];
      ChunkCount(rest, m, i + 1);
      assert Chunks(p, _ => m, i) == [Chunk(p, m)] + Chunks(rest, _ => m, i + 1);
      CountOneMore(|rest|, |Chunks(rest, _ => m, i + 1)|, m - 1, Taken(p, m));
    }
  }

  lemma CountOneMore(rest: nat, n: nat, k: nat, taken: nat)
    requires (n - 1) * k < rest <= n * k || (rest == 0 && n == 0)
    requires if rest == 0 then 0 < taken <= k else taken == k
    requires rest == 0 ==> n == 0
    ensures n * k < rest + taken <= (n + 1) * k
  {
    assert (n + 1) * k == n * k + k;
    assert n * k == (n - 1) * k + k;
  }

  /** A chunk makes progress exactly if it can carry a byte beside its header. */
  lemma ProgressIffTwo(p: seq<byte>, m: nat)
    requires m > 0 && p != []
    ensures |p[Taken(p, m)..]| < |p| <==> m >= 2
  {
  }

  // ----- On the air ---------------------------------------------------------------

  /** A chunk on the air, and what it is a chunk of. */
  datatype AirChunk<K> = AirChunk(of: K, bytes: seq<byte>)

  function OnAir<K>(of: K, chunks: seq<seq<byte>>): seq<AirChunk<K>> {
    seq(|chunks|, i requires 0 <= i < |chunks| => AirChunk(of, chunks[i]))
  }

  lemma OnAirAppend<K>(of: K, chunks: seq<seq<byte>>, chunk: seq<byte>)
    ensures OnAir(of, chunks + [chunk]) == OnAir(of, chunks) + [AirChunk(of, chunk)]
  {
  }

  lemma SliceOfSlice<T>(s: seq<T>, lo: nat, hi: nat, n: nat)
    requires lo + n <= hi <= |s|
    ensures s[lo..hi][..n] == s[lo..lo + n] && s[lo..hi][n..] == s[lo + n..hi]
  {
  }

  // ----- The buffers -------------------------------------------------------------

  /** `struct net_buf_simple`: a window of `len` bytes at `data` into the storage. */
  class NetBuf {
    const buf: array<byte>
    var data: nat
    var len: nat

    ghost predicate Valid()
      reads this
    {
      data + len <= buf.Length
    }

    /** The bytes in the window. */
    ghost function Content(): (s: seq<byte>)
      requires Valid()
      reads this, buf
    {
      buf[data..data + len]
    }

    constructor (size: nat)
      ensures Valid() && fresh(buf) && buf.Length == size && data == 0 && len == 0
    {
      buf := new byte[size](_ => 0);
      data, len := 0, 0;
    }

    function Headroom(): nat
      reads this
    {
      data
    }

    function Tailroom(): nat
      requires Valid()
      reads this
    {
      buf.Length - data - len
    }

    method Reset()
      modifies this
      ensures Valid() && data == 0 && len == 0
    {
      data, len := 0, 0;
    }

    method Reserve(n: nat)
      requires Valid() && len == 0 && n <= buf.Length
      modifies this
      ensures Valid() && data == n && len == 0
    {
      data := n;
    }

    method AddMem(bytes: seq<byte>)
      requires Valid() && |bytes| <= Tailroom()
      modifies this`len, buf
      ensures Valid() && Content() == old(Content()) + bytes
    {
      var end := data + len;
      forall i | 0 <= i < |bytes| {
        buf[end + i] := bytes[i];
      }
      len := len + |bytes|;
    }

    /** Writes one byte in front of the window. */
    method PushU8(v: byte)
      requires Valid() && Headroom() >= 1
      modifies this, buf
      ensures Valid() && data == old(data) - 1 && Content() == [v] + old(Content())
      ensures forall i :: 0 <= i < buf.Length && i != data ==> buf[i] == old(buf[i])
    {
      data := data - 1;
      len := len + 1;
      buf[data] := v;
    }

    /** Takes `n` bytes off the front; returns where they are. */
    method PullMem(n: nat) returns (start: nat)
      requires Valid() && n <= len
      modifies this
      ensures Valid() && start == old(data) && data == old(data) + n
      ensures start + n <= buf.Length && buf[start..start + n] == old(Content())[..n]
      ensures Content() == old(Content())[n..]
    {
      SliceOfSlice(buf[..], data, data + len, n);
      start := data;
      data := data + n;
      len := len - n;
    }

    /**
     `fmna_gatt_pkt_manager_chunk_prepare`: the chunk lies in the storage, and the
     unsent bytes behind it are untouched.
     */
    method ChunkPrepare(mtu: nat) returns (chunk: Option<(nat, nat)>)
      requires Valid() && Headroom() >= 1
      modifies this, buf
      ensures Valid() && Headroom() >= 1
      ensures chunk.None? <==> old(len) == 0 || UsableLen(mtu) == 0
      ensures chunk.None? ==> data == old(data) && len == old(len) && buf[..] == old(buf[..])
      ensures chunk.Some? ==>
                var (start, n) := chunk.value;
                var m := UsableLen(mtu);
                && start + n == data
                && buf[start..start + n] == Chunk(old(Content()), m)
                && Content() == old(Content())[Taken(old(Content()), m)..]
      ensures chunk.Some? ==> forall i :: 0 <= i < buf.Length && i != old(data) - 1 ==> buf[i] == old(buf[i])
    {
      var maxLen := UsableLen(mtu);
      if len == 0 || maxLen == 0 {
        return None;
      }
      ghost var p := Content();
      var chunkLen: nat;
      if maxLen > len {
        PushU8(FINAL);
        chunkLen := len;
      } else {
        PushU8(START_OR_CONTINUE);
        chunkLen := maxLen;
      }
      assert Content()[..chunkLen] == Chunk(p, maxLen);
      assert Content()[chunkLen..] == p[Taken(p, maxLen)..];
      var start := PullMem(chunkLen);
      chunk := Some((start, chunkLen));
    }

    /** `fmna_gatt_pkt_manager_chunk_collect`. */
    method ChunkCollect(chunk: seq<byte>) returns (error: Option<CollectError>, complete: bool)
      requires Valid() && data == 0
      modifies this`len, buf
      ensures Valid()
      ensures match Collect(old(Content()), buf.Length, chunk)
              case Err(e) => error == Some(e) && Content() == old(Content())
              case Ok((pkt, done)) => error == None && Content() == pkt && complete == done
    {
      complete := false;
      if |chunk| == 0 {
        return Some(EINVAL), complete;
      }
      if chunk[0] == START_OR_CONTINUE {
      } else if chunk[0] == FINAL {
        complete := true;
      } else {
        return Some(EINVAL), complete;
      }
      var bytes := chunk[1..];
      if Tailroom() < |bytes| {
        return Some(ENOMEM), complete;
      }
      AddMem(bytes);
      error := None;
    }
  }
}