/**
 The transmit path of the firmware transfer: two buffer slots of the accessory,
 the buffer the GATT service is sending, and the numbering of messages.
 */
module UarpTx {
  import opened Wrappers
  import opened Bytes
  import opened Packets

  const INITIAL_TX_MSG_ID: nat := 1

  /** A transmit buffer: its allocation number, and the message in it. */
  datatype Message = Message(buffer: nat, msgId: u16, data: seq<byte>)

  /** A message that is over: the chunks the link took. */
  datatype Finished = Finished(msg: Message, chunks: seq<seq<byte>>, whole: bool)

  /**
   The slots `buf` and `pendingBuf`, the service's `sendingBuf` with the unsent
   bytes of it; buffers allocated and freed; and, since the controller was added,
   the messages accepted and finished, and the chunks on the air.
   */
  datatype Tx = Tx(
    active: bool, txMsgId: u16, buf: Option<Message>, pendingBuf: Option<Message>,
    sendingBuf: Option<Message>, rest: seq<byte>, chunks: seq<seq<byte>>,
    issued: nat, freed: seq<nat>,
    accepted: seq<Message>, finished: seq<Finished>, air: seq<AirChunk<u16>>)

  const IDLE: Tx := Tx(false, 0, None, None, None, [], [], 0, [], [], [], [])

  function NextMsgId(id: u16): u16 {
    if id + 1 < TWO_16 then id + 1 else 0
  }

  // ----- Steps -----------------------------------------------------------------

  /** `fmna_uarp_controller_add` for a new active connection. */
  function Connect(t: Tx): Tx {
    if t.active then t else t.(active := true, txMsgId := INITIAL_TX_MSG_ID, accepted := [], finished := [], air := [])
  }

  /** `uarp_send_message` of the service; the first chunk follows with the event it submits. */
  function ServiceSend(t: Tx, m: Message): (Tx, bool) {
    if t.sendingBuf.Some? then (t, false)
    else (t.(sendingBuf := Some(m), rest := m.data, chunks := []), true)
  }

  /** `send_message` of the accessory. */
  function SendMessage(t: Tx, m: Message): (Tx, bool) {
    if t.buf.None? then ServiceSend(t.(buf := Some(m)), m)
    else if t.pendingBuf.None? then (t.(pendingBuf := Some(m)), true)
    else (t, false)
  }

  /** `uarpAccessoryTransmitBuffer` on a buffer allocated for the message. */
  function Transmit(t: Tx, data: seq<byte>, allocOk: bool): Tx {
    if !t.active || !allocOk then t
    else
      var m := Message(t.issued, t.txMsgId, data);
      var (t1, ok) := SendMessage(t.(issued := t.issued + 1), m);
      if ok then t1.(txMsgId := NextMsgId(t.txMsgId), accepted := t1.accepted + [m])
      else t1.(freed := t1.freed + [m.buffer])
  }

  /** `fmna_uarp_send_message_complete`. */
  function SendComplete(t: Tx, whole: bool): Tx
    requires t.buf.Some?
  {
    var m := t.buf.value;
    var t1 := t.(buf := t.pendingBuf, pendingBuf := None, rest := [], chunks := [],
                 freed := t.freed + [m.buffer], finished := t.finished + [Finished(m, t.chunks, whole)]);
    if t1.buf.Some? then ServiceSend(t1, t1.buf.value).0 else t1
  }

  /** `handle_indication_ack`; `same` says that the event is of the active connection. */
  function Ack(t: Tx, same: bool, err: bool, mtu: nat, indicateOk: bool): Tx {
    if !same || !t.active || t.sendingBuf.None? || t.buf.None? then t
    else
      var m := UsableLen(mtu);
      if t.rest == [] || m == 0 || err then SendComplete(t.(sendingBuf := None), t.rest == [])
      else if !indicateOk then SendComplete(t.(sendingBuf := None), false)
      else
        var chunk := Chunk(t.rest, m);
        t.(rest := t.rest[Taken(t.rest, m)..], chunks := t.chunks + [chunk],
           air := t.air + [AirChunk(t.sendingBuf.value.msgId, chunk)])
  }

  /** The buffer number in a slot, as a sequence. */
  function Held(slot: Option<Message>): seq<Message> {
    if slot.Some? then [slot.value] else []
  }

  function Buffers(ms: seq<Message>): seq<nat> {
    seq(|ms|, i requires 0 <= i < |ms| => ms[i].buffer)
  }

  /** `handle_disconnect`. */
  function Disconnect(t: Tx, same: bool): Tx {
    if !same || !t.active then t
    else
      t.(active := false, sendingBuf := None, buf := None, pendingBuf := None, rest := [], chunks := [],
         freed := t.freed + Buffers(Held(t.buf)) + Buffers(Held(t.pendingBuf)))
  }

  datatype Event =
    | Connected
    | Send(data: seq<byte>, allocOk: bool)
    | Acked(same: bool, err: bool, mtu: nat, indicateOk: bool)
    | Disconnected(same: bool)

  function Step(t: Tx, e: Event): Tx {
    match e
    case Connected => Connect(t)
    case Send(data, allocOk) => Transmit(t, data, allocOk)
    case Acked(same, err, mtu, ok) => Ack(t, same, err, mtu, ok)
    case Disconnected(same) => Disconnect(t, same)
  }

  function Run(events: seq<Event>): Tx {
    if events == [] then IDLE else Step(Run(events[..|events| - 1]), events[|events| - 1])
  }

  // ----- Invariant ---------------------------------------------------------------

  /** The messages whose buffers are held. */
  function HeldMessages(t: Tx): seq<Message> {
    Held(t.buf) + Held(t.pendingBuf)
  }

  /** Every buffer allocated so far, once. */
  function Allocations(n: nat): multiset<nat> {
    if n == 0 then multiset{} else Allocations(n - 1) + multiset{n - 1}
  }

  /** The number of the k-th message for a controller. */
  function MsgIdOf(k: nat): u16 {
    if k == 0 then INITIAL_TX_MSG_ID else NextMsgId(MsgIdOf(k - 1))
  }

  function FinishedMessages(f: seq<Finished>): seq<Message> {
    seq(|f|, i requires 0 <= i < |f| => f[i].msg)
  }

  function FinishedOnAir(f: seq<Finished>): seq<AirChunk<u16>> {
    if f == [] then [] else FinishedOnAir(f[..|f| - 1]) + OnAir(f[|f| - 1].msg.msgId, f[|f| - 1].chunks)
  }

  /** Each buffer allocated is freed once or held once. */
  ghost predicate Conserved(t: Tx) {
    multiset(t.freed) + multiset(Buffers(HeldMessages(t))) == Allocations(t.issued)
  }

  /** The slots agree: the service sends what is in the first one. */
  predicate Slots(t: Tx) {
    && t.sendingBuf == t.buf
    && (t.pendingBuf.Some? ==> t.buf.Some?)
    && (!t.active ==> t.buf.None?)
  }

  predicate Numbered(t: Tx) {
    && t.txMsgId == MsgIdOf(|t.accepted|)
    && forall k :: 0 <= k < |t.accepted| ==> t.accepted[k].msgId == MsgIdOf(k)
  }

  /** Messages leave in the order they were accepted, one after the other. */
  predicate InOrder(t: Tx) {
    && t.accepted == FinishedMessages(t.finished) + HeldMessages(t)
    && t.air == FinishedOnAir(t.finished) + (if t.buf.Some? then OnAir(t.buf.value.msgId, t.chunks) else [])
  }

  /** What the controller makes of the chunks; `maxTx` is the longest message. */
  predicate Delivered(maxTx: nat, t: Tx) {
    && (forall i :: 0 <= i < |t.finished| ==>
          DeliveredRight(maxTx, t.finished[i].msg.data, t.finished[i].chunks, t.finished[i].whole))
    && (forall i :: 0 <= i < |t.accepted| ==> 0 < |t.accepted[i].data| <= maxTx)
    && (t.buf.Some? ==> OnItsWay(maxTx, t.buf.value.data, t.rest, t.chunks))
  }

  ghost predicate Inv(maxTx: nat, t: Tx) {
    && Conserved(t) && Slots(t)
    && (t.active ==> Numbered(t) && InOrder(t) && Delivered(maxTx, t))
  }

  // ----- Preservation ---------------------------------------------------------------

  lemma BuffersAppend(a: seq<Message>, b: seq<Message>)
    ensures Buffers(a + b) == Buffers(a) + Buffers(b)
  {
  }

  /** What sending a message changes: it takes a free slot, or its buffer is returned. */
  lemma TransmitFields(t: Tx, data: seq<byte>)
    requires Slots(t) && t.active
    ensures var t1 := Transmit(t, data, true);
            var m := Message(t.issued, t.txMsgId, data);
            && Slots(t1) && t1.active && t1.finished == t.finished && t1.air == t.air && t1.issued == t.issued + 1
            && if t.pendingBuf.Some? then
                 && HeldMessages(t1) == HeldMessages(t) && t1.accepted == t.accepted && t1.txMsgId == t.txMsgId
                 && t1.buf == t.buf && t1.rest == t.rest && t1.chunks == t.chunks && t1.freed == t.freed + [m.buffer]
               else
                 && HeldMessages(t1) == HeldMessages(t) + [m] && t1.accepted == t.accepted + [m]
                 && t1.txMsgId == NextMsgId(t.txMsgId) && t1.freed == t.freed
                 && if t.buf.Some? then t1.buf == t.buf && t1.rest == t.rest && t1.chunks == t.chunks
                    else t1.buf == Some(m) && t1.rest == data && t1.chunks == []
  {
    hide NextMsgId;
    if t.buf.None? {
      assert HeldMessages(t) == [];
    } else if t.pendingBuf.None? {
      assert HeldMessages(t) == [t.buf.value];
    }
  }

  lemma TransmitConserves(t: Tx, data: seq<byte>)
    requires Conserved(t) && Slots(t) && t.active
    ensures Conserved(Transmit(t, data, true)) && Slots(Transmit(t, data, true))
  {
    var m := Message(t.issued, t.txMsgId, data);
    TransmitFields(t, data);
    BuffersAppend(HeldMessages(t), [m]);
    hide Transmit, HeldMessages, Slots;
    assert Buffers([m]) == [m.buffer];
  }

  lemma TransmitInOrder(t: Tx, data: seq<byte>)
    requires Slots(t) && t.active && InOrder(t)
    ensures InOrder(Transmit(t, data, true))
  {
    TransmitFields(t, data);
    assert OnAir(t.txMsgId, []) == [];
    hide Transmit, Slots, FinishedOnAir, FinishedMessages, HeldMessages, OnAir;
  }

  lemma TransmitDelivered(maxTx: nat, t: Tx, data: seq<byte>)
    requires Slots(t) && t.active && Delivered(maxTx, t) && 0 < |data| <= maxTx
    ensures Delivered(maxTx, Transmit(t, data, true))
  {
    TransmitFields(t, data);
    NothingSent(maxTx, data);
    hide Transmit, Slots, OnItsWay, DeliveredRight, HeldMessages;
  }

  lemma TransmitNumbered(t: Tx, data: seq<byte>)
    requires Slots(t) && t.active && Numbered(t)
    ensures Numbered(Transmit(t, data, true))
  {
    TransmitFields(t, data);
    hide Transmit, Slots, HeldMessages;
  }

  lemma TransmitKeepsInv(maxTx: nat, t: Tx, data: seq<byte>, allocOk: bool)
    requires Inv(maxTx, t) && 0 < |data| <= maxTx
    ensures Inv(maxTx, Transmit(t, data, allocOk))
  {
    if t.active && allocOk {
      hide Conserved, Slots, InOrder, Delivered, Numbered, Transmit;
      TransmitConserves(t, data);
      TransmitInOrder(t, data);
      TransmitDelivered(maxTx, t, data);
      TransmitNumbered(t, data);
    } else {
      NotSent(t, data, allocOk);
    }
  }

  lemma FinishedAppend(f: seq<Finished>, e: Finished)
    ensures FinishedMessages(f + [e]) == FinishedMessages(f) + [e.msg]
    ensures FinishedOnAir(f + [e]) == FinishedOnAir(f) + OnAir(e.msg.msgId, e.chunks)
  {
    assert (f + [e])[..|f|] == f;
  }

  /** The first slot is freed, and the second takes its place. */
  lemma SendCompleteConserves(t: Tx, whole: bool)
    requires Conserved(t) && Slots(t) && t.active && t.buf.Some?
    ensures var t1 := SendComplete(t.(sendingBuf := None), whole);
            && Conserved(t1) && Slots(t1) && t1.active
            && HeldMessages(t) == [t.buf.value] + HeldMessages(t1)
            && t1.finished == t.finished + [Finished(t.buf.value, t.chunks, whole)]
            && t1.accepted == t.accepted && t1.air == t.air && t1.txMsgId == t.txMsgId
            && (t1.buf.Some? ==> t1.rest == t1.buf.value.data && t1.chunks == [])
  {
    var m := t.buf.value;
    var t1 := SendComplete(t.(sendingBuf := None), whole);
    assert HeldMessages(t) == [m] + HeldMessages(t1);
    BuffersAppend([m], HeldMessages(t1));
    assert Buffers([m]) == [m.buffer];
  }

  lemma SendCompleteKeepsInv(maxTx: nat, t: Tx, whole: bool)
    requires Inv(maxTx, t) && t.active && t.buf.Some?
    requires DeliveredRight(maxTx, t.buf.value.data, t.chunks, whole)
    ensures Inv(maxTx, SendComplete(t.(sendingBuf := None), whole))
  {
    var m := t.buf.value;
    var t1 := SendComplete(t.(sendingBuf := None), whole);
    SendCompleteConserves(t, whole);
    hide Conserved, DeliveredRight, SendComplete, Slots, OnItsWay;
    SecondSlot(t, t1);
    CompletedInOrder(t, t1, Finished(m, t.chunks, whole));
    hide InOrder, HeldMessages;
    assert Delivered(maxTx, t1) by {
      hide Numbered;
      if t1.buf.Some? {
        NothingSent(maxTx, t1.buf.value.data);
      }
    }
  }

  lemma CompletedInOrder(t: Tx, t1: Tx, e: Finished)
    requires InOrder(t) && t.buf == Some(e.msg) && e.chunks == t.chunks && HeldMessages(t) == [e.msg] + HeldMessages(t1)
    requires t1.finished == t.finished + [e] && t1.accepted == t.accepted && t1.air == t.air
    requires t1.buf.Some? ==> t1.chunks == []
    ensures InOrder(t1)
  {
    FinishedAppend(t.finished, e);
    hide FinishedOnAir, FinishedMessages, HeldMessages;
    assert t1.buf.Some? ==> OnAir(t1.buf.value.msgId, t1.chunks) == [];
    hide OnAir;
  }

  /** The message of the second slot was accepted after all that are finished and the first. */
  lemma SecondSlot(t: Tx, t1: Tx)
    requires InOrder(t) && t.buf.Some? && HeldMessages(t) == [t.buf.value] + HeldMessages(t1)
    ensures t1.buf.Some? ==> t1.buf.value in t.accepted
  {
    if t1.buf.Some? {
      assert t.accepted[|t.finished| + 1] == t1.buf.value;
    }
  }

  /** Sending a chunk leaves the slots alone. */
  lemma KeepsHeld(t: Tx, m: nat)
    requires m > 0 && Conserved(t) && t.sendingBuf.Some?
    ensures var chunk := Chunk(t.rest, m);
            var t1 := t.(rest := t.rest[Taken(t.rest, m)..], chunks := t.chunks + [chunk],
                         air := t.air + [AirChunk(t.sendingBuf.value.msgId, chunk)]);
            HeldMessages(t1) == HeldMessages(t) && Conserved(t1)
  {
    hide Chunk, Taken, Allocations, Buffers;
  }

  /** The next chunk of the message that is being sent. */
  function ChunkSent(t: Tx, m: nat): Tx
    requires m > 0 && t.sendingBuf.Some?
  {
    var chunk := Chunk(t.rest, m);
    t.(rest := t.rest[Taken(t.rest, m)..], chunks := t.chunks + [chunk],
       air := t.air + [AirChunk(t.sendingBuf.value.msgId, chunk)])
  }

  lemma ChunkInOrder(t: Tx, m: nat)
    requires m > 0 && t.sendingBuf.Some? && t.sendingBuf == t.buf && InOrder(t)
    ensures InOrder(ChunkSent(t, m))
  {
    hide FinishedOnAir, FinishedMessages, OnAir, Chunk, Taken;
    OnAirAppend(t.buf.value.msgId, t.chunks, Chunk(t.rest, m));
  }

  lemma ChunkKeepsInv(maxTx: nat, t: Tx, m: nat)
    requires Inv(maxTx, t) && t.active && t.buf.Some? && m > 0 && t.rest != []
    ensures t.sendingBuf.Some? && Inv(maxTx, ChunkSent(t, m))
  {
    NextChunkReceived(maxTx, t.buf.value.data, t.rest, t.chunks, m);
    KeepsHeld(t, m);
    hide Conserved, DeliveredRight, FinishedOnAir, FinishedMessages, HeldMessages, OnAir, Chunk, Taken;
    ChunkInOrder(t, m);
    hide InOrder, OnItsWay;
  }

  lemma AckIs(t: Tx, err: bool, mtu: nat, indicateOk: bool)
    requires t.active && t.buf.Some? && t.sendingBuf == t.buf
    ensures var m := UsableLen(mtu);
            Ack(t, true, err, mtu, indicateOk) ==
            if t.rest == [] || m == 0 || err || !indicateOk then SendComplete(t.(sendingBuf := None), t.rest == [])
            else ChunkSent(t, m)
  {
    hide SendComplete, Chunk, Taken;
  }

  lemma AckKeepsInv(maxTx: nat, t: Tx, same: bool, err: bool, mtu: nat, indicateOk: bool)
    requires Inv(maxTx, t)
    ensures Inv(maxTx, Ack(t, same, err, mtu, indicateOk))
  {
    if same && t.active && t.buf.Some? {
      var m := UsableLen(mtu);
      PartlyDelivered(maxTx, t.buf.value.data, t.rest, t.chunks);
      hide Ack, SendComplete, ChunkSent, Conserved, Numbered, InOrder, DeliveredRight, OnItsWay;
      AckIs(t, err, mtu, indicateOk);
      hide Inv;
      if t.rest == [] || m == 0 || err || !indicateOk {
        SendCompleteKeepsInv(maxTx, t, t.rest == []);
      } else {
        ChunkKeepsInv(maxTx, t, m);
      }
    } else {
      hide Inv;
    }
  }

  lemma DisconnectConserves(t: Tx, same: bool)
    requires Conserved(t) && Slots(t)
    ensures Conserved(Disconnect(t, same)) && Slots(Disconnect(t, same))
  {
    hide Allocations;
    if same && t.active {
      BuffersAppend(Held(t.buf), Held(t.pendingBuf));
      NothingHeld(t);
      hide Buffers, Held;
    }
  }

  /** Without slots taken there are no buffers held. */
  lemma NothingHeld(t: Tx)
    ensures Buffers(HeldMessages(t.(buf := None, pendingBuf := None))) == []
  {
  }

  lemma AckConserves(t: Tx, same: bool, err: bool, mtu: nat, indicateOk: bool)
    requires Conserved(t) && Slots(t)
    ensures Conserved(Ack(t, same, err, mtu, indicateOk)) && Slots(Ack(t, same, err, mtu, indicateOk))
  {
    if same && t.active && t.buf.Some? {
      SendCompleteConserves(t, t.rest == []);
      SendCompleteConserves(t, false);
    }
    hide SendComplete, Chunk, Taken, Allocations;
  }

  lemma IdleInv(maxTx: nat)
    ensures Inv(maxTx, IDLE)
  {
    assert Buffers([]) == [];
  }

  // ----- Runs -----------------------------------------------------------------------

  lemma {:induction false} RunConserves(events: seq<Event>)
    ensures Conserved(Run(events)) && Slots(Run(events))
  {
    hide Transmit, Ack, Disconnect, Allocations;
    if events == [] {
      IdleInv(0);
    } else {
      var n := |events| - 1;
      RunConserves(events[..n]);
      var t := Run(events[..n]);
      match events[n]
      case Connected =>
      case Send(data, allocOk) =>
        if t.active && allocOk { TransmitConserves(t, data); } else { NotSent(t, data, allocOk); }
      case Acked(same, err, mtu, ok) => AckConserves(t, same, err, mtu, ok);
      case Disconnected(same) => DisconnectConserves(t, same);
    }
  }

  lemma NotSent(t: Tx, data: seq<byte>, allocOk: bool)
    requires !t.active || !allocOk
    ensures Transmit(t, data, allocOk) == t
  {
  }

  /** What `send_message` asserts of its callers: no empty and no oversized message. */
  predicate Bounded(maxTx: nat, events: seq<Event>) {
    forall i :: 0 <= i < |events| && events[i].Send? ==> 0 < |events[i].data| <= maxTx
  }

  lemma {:induction false} RunKeepsInv(maxTx: nat, events: seq<Event>)
    requires Bounded(maxTx, events)
    ensures Inv(maxTx, Run(events))
  {
    hide Inv, Transmit, Ack, Disconnect;
    if events == [] {
      IdleInv(maxTx);
    } else {
      var n := |events| - 1;
      RunKeepsInv(maxTx, events[..n]);
      var t := Run(events[..n]);
      match events[n]
      case Connected => ConnectKeepsInv(maxTx, t);
      case Send(data, allocOk) => TransmitKeepsInv(maxTx, t, data, allocOk);
      case Acked(same, err, mtu, ok) => AckKeepsInv(maxTx, t, same, err, mtu, ok);
      case Disconnected(same) => DisconnectKeepsInv(maxTx, t, same);
    }
  }

  lemma ConnectKeepsInv(maxTx: nat, t: Tx)
    requires Inv(maxTx, t)
    ensures Inv(maxTx, Connect(t))
  {
  }

  lemma DisconnectKeepsInv(maxTx: nat, t: Tx, same: bool)
    requires Inv(maxTx, t)
    ensures Inv(maxTx, Disconnect(t, same))
  {
    DisconnectConserves(t, same);
    hide Conserved, Slots, Numbered, InOrder, Delivered;
  }

  // ----- Theorems -------------------------------------------------------------------

  lemma {:induction false} AllocationsOnce(n: nat, b: nat)
    ensures Allocations(n)[b] == if b < n then 1 else 0
  {
    if n > 0 {
      AllocationsOnce(n - 1, b);
    }
  }

  /**
   Between events, in every run: each buffer ever issued is freed exactly once or is
   one of at most two that are held, and the service sends the one in the first
   slot; once the link is down all are freed.
   */
  lemma BuffersConserved(events: seq<Event>, b: nat)
    ensures var t := Run(events);
            && |HeldMessages(t)| <= 2 && t.sendingBuf == t.buf
            && multiset(t.freed)[b] + multiset(Buffers(HeldMessages(t)))[b] == (if b < t.issued then 1 else 0)
            && (!t.active ==> HeldMessages(t) == [])
  {
    hide Run, Allocations;
    RunConserves(events);
    var t := Run(events);
    AllocationsOnce(t.issued, b);
    assert Allocations(t.issued)[b] == multiset(t.freed)[b] + multiset(Buffers(HeldMessages(t)))[b];
  }

  /** The k-th message for a controller has number 1 + k modulo 2^16. */
  lemma {:induction false} ConsecutiveIds(k: nat)
    ensures MsgIdOf(k) == (INITIAL_TX_MSG_ID + k) % TWO_16
  {
    if k > 0 {
      ConsecutiveIds(k - 1);
    }
  }

  /**
   Messages reach the link in the order of their numbers, none twice and none
   between the chunks of another; a message that was sent to its end is rebuilt
   exactly by the controller, of any other it has at most a beginning.
   */
  lemma LinkOrder(maxTx: nat, events: seq<Event>)
    requires Bounded(maxTx, events) && Run(events).active
    ensures var t := Run(events);
            && t.accepted == FinishedMessages(t.finished) + HeldMessages(t)
            && (forall k :: 0 <= k < |t.accepted| ==> t.accepted[k].msgId == MsgIdOf(k))
            && t.txMsgId == MsgIdOf(|t.accepted|)
            && t.air == FinishedOnAir(t.finished) + (if t.buf.Some? then OnAir(t.buf.value.msgId, t.chunks) else [])
            && (forall i :: 0 <= i < |t.finished| ==>
                  DeliveredRight(maxTx, t.finished[i].msg.data, t.finished[i].chunks, t.finished[i].whole))
  {
    hide Run, Conserved, DeliveredRight;
    RunKeepsInv(maxTx, events);
  }

  // ----- The two components ------------------------------------------------------------

  /** The accessory's and the service's static state; `t` is the abstract transmit path. */
  class TxPath {
    var activeConn: bool
    var txMsgId: u16
    var buf: Option<Message>
    var pendingBuf: Option<Message>
    var sendingBuf: Option<Message>
    /** What is left in the packet buffer that is being sent. */
    var unsent: seq<byte>
    /** Buffers taken from the heap so far; tells them apart. */
    var issued: nat
    ghost var t: Tx

    ghost predicate Valid()
      reads this
    {
      && activeConn == t.active && txMsgId == t.txMsgId && issued == t.issued
      && buf == t.buf && pendingBuf == t.pendingBuf && sendingBuf == t.sendingBuf
      && (sendingBuf.Some? ==> unsent == t.rest)
    }

    constructor ()
      ensures Valid() && t == IDLE
    {
      activeConn, txMsgId, issued := false, 0, 0;
      buf, pendingBuf, sendingBuf, unsent := None, None, None, [];
      t := IDLE;
    }

    /** `fmna_uarp_controller_add`. */
    method ControllerAdd()
      requires Valid()
      modifies this
      ensures Valid() && t == Connect(old(t))
    {
      if !activeConn {
        activeConn := true;
        txMsgId := INITIAL_TX_MSG_ID;
        t := Connect(t);
      }
    }

    /** `uarp_send_message`. */
    method UarpSendMessage(m: Message) returns (ok: bool)
      requires Valid()
      modifies `sendingBuf, `unsent, `t
      ensures Valid() && (t, ok) == ServiceSend(old(t), m)
    {
      if sendingBuf.Some? {
        return false;
      }
      sendingBuf := Some(m);
      unsent := m.data;
      t := ServiceSend(t, m).0;
      return true;
    }

    /** `send_message`. */
    method AccessorySend(m: Message) returns (ok: bool)
      requires Valid()
      modifies `buf, `pendingBuf, `sendingBuf, `unsent, `t
      ensures Valid() && (t, ok) == SendMessage(old(t), m)
    {
      if buf.None? {
        buf := Some(m);
        t := t.(buf := buf);
        ok := UarpSendMessage(m);
      } else if pendingBuf.None? {
        pendingBuf := Some(m);
        t := t.(pendingBuf := pendingBuf);
        ok := true;
      } else {
        ok := false;
      }
    }

    /** `uarpAccessoryTransmitBuffer`. */
    method TransmitBuffer(data: seq<byte>, allocOk: bool)
      requires Valid()
      modifies this
      ensures Valid() && t == Transmit(old(t), data, allocOk)
    {
      hide SendMessage;
      if !activeConn || !allocOk {
        return;
      }
      var m := Message(issued, txMsgId, data);
      issued := issued + 1;
      t := t.(issued := issued);
      var ok := AccessorySend(m);
      if ok {
        txMsgId := NextMsgId(txMsgId);
        t := t.(txMsgId := txMsgId, accepted := t.accepted + [m]);
      } else {
        t := t.(freed := t.freed + [m.buffer]);
      }
    }

    /** `fmna_uarp_send_message_complete`. */
    method SendMessageComplete(ghost whole: bool)
      requires Valid() && buf.Some? && sendingBuf.None?
      modifies this
      ensures Valid() && t == SendComplete(old(t), whole)
    {
      ghost var m := buf.value;
      if pendingBuf.Some? {
        buf := pendingBuf;
        pendingBuf := None;
      } else {
        buf := None;
      }
      unsent := [];
      t := t.(buf := buf, pendingBuf := None, rest := [], chunks := [],
              freed := t.freed + [m.buffer], finished := t.finished + [Finished(m, t.chunks, whole)]);
      if buf.Some? {
        var _ := UarpSendMessage(buf.value);
      }
    }

    /** `handle_indication_ack`. */
    method HandleIndicationAck(same: bool, err: bool, mtu: nat, indicateOk: bool)
      requires Valid() && Slots(t)
      modifies this
      ensures Valid() && t == Ack(old(t), same, err, mtu, indicateOk)
    {
      hide SendComplete, Chunk, Taken;
      if !same || !activeConn || sendingBuf.None? {
        return;
      }
      var m := UsableLen(mtu);
      if unsent == [] || m == 0 || err {
        sendingBuf := None;
        t := t.(sendingBuf := None);
        SendMessageComplete(t.rest == []);
        return;
      }
      if !indicateOk {
        sendingBuf := None;
        t := t.(sendingBuf := None);
        SendMessageComplete(false);
        return;
      }
      var chunk := Chunk(unsent, m);
      unsent := unsent[Taken(unsent, m)..];
      t := t.(rest := unsent, chunks := t.chunks + [chunk], air := t.air + [AirChunk(sendingBuf.value.msgId, chunk)]);
    }

    /** `handle_disconnect` with `fmna_uarp_controller_remove`. */
    method HandleDisconnect(same: bool)
      requires Valid()
      modifies this
      ensures Valid() && t == Disconnect(old(t), same)
    {
      if !same || !activeConn {
        return;
      }
      t := Disconnect(t, same);
      sendingBuf := None;
      buf := None;
      pendingBuf := None;
      unsent := [];
      activeConn := false;
    }
  }
}
