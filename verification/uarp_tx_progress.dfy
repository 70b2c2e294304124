/**
 What the transmit path must do: take a message while a slot is free, send it whole
 over a good link, and listen to the link of its own controller only.
 */
module UarpTxProgress {
  import opened Wrappers
  import opened Bytes
  import opened Packets
  import opened UarpTx

  /**
   In every run a message is taken exactly if there is a controller, a buffer for it
   and a free one of the two slots; it comes behind those that are held. One that finds
   no slot has its buffer freed, and nothing else changes.
   */
  lemma TakenIff(maxTx: nat, events: seq<Event>, data: seq<byte>, allocOk: bool)
    requires Bounded(maxTx, events) && 0 < |data| <= maxTx
    ensures var t, t1 := Run(events), Step(Run(events), Send(data, allocOk));
            var m := Message(t.issued, t.txMsgId, data);
            && t1.air == t.air && t1.finished == t.finished && t1.active == t.active
            && if !t.active || !allocOk then t1 == t
               else if |HeldMessages(t)| < 2 then
                 && t1.accepted == t.accepted + [m] && HeldMessages(t1) == HeldMessages(t) + [m]
                 && t1.freed == t.freed && t1.issued == t.issued + 1
               else
                 && t1.accepted == t.accepted && HeldMessages(t1) == HeldMessages(t) && t1.txMsgId == t.txMsgId
                 && t1.freed == t.freed + [m.buffer] && t1.issued == t.issued + 1
  {
    RunKeepsInv(maxTx, events);
    var t := Run(events);
    hide Run, Bounded, Conserved, Numbered, InOrder, Delivered, NextMsgId;
    if t.active && allocOk {
      TransmitFields(t, data);
      assert t.pendingBuf.Some? <==> |HeldMessages(t)| == 2;
      hide Transmit, HeldMessages;
    } else {
      NotSent(t, data, allocOk);
    }
  }

  /**
   A controller that is added when there is none starts with message number 1, both
   slots free; when there is one, nothing changes.
   */
  lemma LinkUp(events: seq<Event>)
    ensures var t, t1 := Run(events), Step(Run(events), Connected);
            if t.active then t1 == t
            else
              && t1.active && t1.txMsgId == 1 && HeldMessages(t1) == [] && t1.sendingBuf.None?
              && t1.accepted == [] && t1.finished == [] && t1.air == []
              && t1.freed == t.freed && t1.issued == t.issued
  {
    RunConserves(events);
    hide Run, Conserved;
  }

  /** While a message is being sent the service refuses every other one. */
  lemma ServiceBusy(events: seq<Event>, m: Message)
    ensures var t := Run(events);
            ServiceSend(t, m) == if HeldMessages(t) != [] then (t, false)
                                 else (t.(sendingBuf := Some(m), rest := m.data, chunks := []), true)
  {
    RunConserves(events);
    hide Run, Conserved;
  }

  /** An event of another connection, or without a message to be sent, changes nothing. */
  lemma OthersIgnored(events: seq<Event>, same: bool, err: bool, mtu: nat, indicateOk: bool)
    requires var t := Run(events); !same || !t.active || HeldMessages(t) == []
    ensures Step(Run(events), Acked(same, err, mtu, indicateOk)) == Run(events)
    ensures !same || !Run(events).active ==> Step(Run(events), Disconnected(same)) == Run(events)
  {
    RunConserves(events);
    hide Run, Conserved, SendComplete;
  }

  /** The link of the controller went down: nothing is held any more, and its buffers are freed in order. */
  lemma LinkDown(events: seq<Event>)
    requires Run(events).active
    ensures var t, t1 := Run(events), Step(Run(events), Disconnected(true));
            && !t1.active && HeldMessages(t1) == [] && t1.sendingBuf.None?
            && t1.freed == t.freed + Buffers(HeldMessages(t)) && t1.issued == t.issued
            && t1.rest == [] && t1.chunks == []
  {
    RunConserves(events);
    var t := Run(events);
    hide Run, Conserved;
    BuffersAppend(Held(t.buf), Held(t.pendingBuf));
  }

  /** The message in the first slot is over, with what was sent of it; the second one moves up. */
  predicate MovesUp(t: Tx, t1: Tx, whole: bool)
    requires t.buf.Some?
  {
    && t1.finished == t.finished + [Finished(t.buf.value, t.chunks, whole)]
    && t1.freed == t.freed + [t.buf.value.buffer]
    && HeldMessages(t) == [t.buf.value] + HeldMessages(t1)
    && t1.sendingBuf == t1.buf && t1.rest == (if t1.buf.Some? then t1.buf.value.data else []) && t1.chunks == []
    && t1.accepted == t.accepted && t1.air == t.air && t1.txMsgId == t.txMsgId && t1.active
  }

  /** The next chunk of the message goes out. */
  predicate NextSent(maxTx: nat, t: Tx, t1: Tx)
    requires t.buf.Some?
  {
    && HeldMessages(t1) == HeldMessages(t) && t1.finished == t.finished && t1.freed == t.freed
    && t1.accepted == t.accepted && t1.active
    && |t1.chunks| == |t.chunks| + 1 && t.chunks <= t1.chunks
    && t1.air == t.air + OnAir(t.buf.value.msgId, t1.chunks[|t.chunks|..])
    && OnItsWay(maxTx, t.buf.value.data, t1.rest, t1.chunks)
  }

  /**
   In every run an acknowledgement ends the message that is being sent exactly if all
   of it is out, or its link is closing, reports an error or refuses the next chunk; it
   is whole if all of it is out. Otherwise its next chunk goes out.
   */
  lemma AckEndsIff(maxTx: nat, events: seq<Event>, err: bool, mtu: nat, indicateOk: bool)
    requires Bounded(maxTx, events) && Run(events).active && HeldMessages(Run(events)) != []
    ensures var t, t1 := Run(events), Step(Run(events), Acked(true, err, mtu, indicateOk));
            && t.buf.Some?
            && if t.rest == [] || UsableLen(mtu) == 0 || err || !indicateOk then MovesUp(t, t1, t.rest == [])
               else NextSent(maxTx, t, t1)
  {
    RunKeepsInv(maxTx, events);
    var t := Run(events);
    hide Run, Bounded, Conserved, Numbered, InOrder, DeliveredRight, OnItsWay, Ack, SendComplete, ChunkSent;
    assert t.buf.Some? && t.sendingBuf == t.buf;
    AckIs(t, err, mtu, indicateOk);
    var m := UsableLen(mtu);
    if t.rest == [] || m == 0 || err || !indicateOk {
      SendCompleteMovesUp(t, t.rest == []);
    } else {
      ChunkGoesOut(maxTx, t, m);
    }
  }

  lemma SendCompleteMovesUp(t: Tx, whole: bool)
    requires t.active && t.buf.Some? && t.sendingBuf == t.buf
    ensures MovesUp(t, SendComplete(t.(sendingBuf := None), whole), whole)
  {
  }

  lemma ChunkGoesOut(maxTx: nat, t: Tx, m: nat)
    requires t.active && t.buf.Some? && t.sendingBuf == t.buf && m > 0 && t.rest != []
    requires OnItsWay(maxTx, t.buf.value.data, t.rest, t.chunks)
    ensures NextSent(maxTx, t, ChunkSent(t, m))
  {
    NextChunkReceived(maxTx, t.buf.value.data, t.rest, t.chunks, m);
    var chunk := Chunk(t.rest, m);
    assert (t.chunks + [chunk])[|t.chunks|..] == [chunk];
    assert OnAir(t.buf.value.msgId, [chunk]) == [AirChunk(t.buf.value.msgId, chunk)];
    hide OnItsWay, Chunk, Taken;
  }

  // ----- A good link -------------------------------------------------------------------------

  /** The link of the controller stays up, takes every chunk and reports no error. */
  predicate GoodEvent(e: Event) {
    match e
    case Acked(same, err, mtu, indicateOk) => same ==> !err && UsableLen(mtu) > 0 && indicateOk
    case Disconnected(same) => !same
    case _ => true
  }

  predicate GoodRun(events: seq<Event>) {
    forall i :: 0 <= i < |events| ==> GoodEvent(events[i])
  }

  predicate AllWhole(f: seq<Finished>) {
    forall i :: 0 <= i < |f| ==> f[i].whole
  }

  lemma {:induction false} FinishedWhole(maxTx: nat, events: seq<Event>)
    requires Bounded(maxTx, events) && GoodRun(events)
    ensures AllWhole(Run(events).finished)
  {
    if events != [] {
      var past, e := events[..|events| - 1], events[|events| - 1];
      FinishedWhole(maxTx, past);
      var t := Run(past);
      assert Bounded(maxTx, past) && GoodRun(past) && GoodEvent(e);
      assert e.Send? ==> 0 < |e.data| <= maxTx;
      assert Run(events) == Step(t, e);
      hide Run, GoodRun, Bounded, Ack, Transmit, Disconnect;
      match e
      case Connected =>
      case Send(data, allocOk) => TakenIff(maxTx, past, data, allocOk);
      case Acked(same, err, mtu, ok) =>
        if !same || !t.active || HeldMessages(t) == [] {
          OthersIgnored(past, same, err, mtu, ok);
        } else {
          AckEndsIff(maxTx, past, err, mtu, ok);
        }
      case Disconnected(same) => OthersIgnored(past, false, false, 0, false);
    }
  }

  /**
   Over a good link every message that was accepted is over, sent whole and rebuilt
   exactly, or held in its turn.
   */
  lemma GoodLinkDelivers(maxTx: nat, events: seq<Event>)
    requires Bounded(maxTx, events) && GoodRun(events) && Run(events).active
    ensures var t := Run(events);
            && t.accepted == FinishedMessages(t.finished) + HeldMessages(t)
            && forall i :: 0 <= i < |t.finished| ==>
                 Received(maxTx, t.finished[i].chunks) == Receiver([], [t.finished[i].msg.data])
  {
    FinishedWhole(maxTx, events);
    LinkOrder(maxTx, events);
    hide Run, Received;
  }
}
