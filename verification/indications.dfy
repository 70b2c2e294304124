/**
 The indication queue of the Find My Network service: one packet buffer, whose
 headroom doubles as the busy flag, and a FIFO of waiting indications.
 */
module Indications {
  import opened Wrappers
  import opened Bytes
  import opened Packets

  /** `FMNA_GATT_PKT_MAX_LEN`. */
  const PKT_MAX_LEN: nat := 1394

  /** An indication: the link it goes to, and opcode and payload. */
  datatype Ind = Ind(conn: nat, data: seq<byte>) {
    /** It fits the packet buffer behind one byte of headroom. */
    predicate Fits() {
      2 <= |data| && 1 + |data| <= PKT_MAX_LEN
    }
  }

  /** What the Bluetooth stack answers for a link: its MTU, and whether it takes an indication. */
  datatype Link = Link(mtu: nat, ok: bool)

  /** The answers while the FIFO is drained, by the number of waiting indications. */
  type Answers = (nat, Ind) -> Link

  /** An indication that is over: the chunks that were sent for it. */
  datatype Entry = Entry(ind: Ind, chunks: seq<seq<byte>>, whole: bool)

  /**
   `cur` holds the buffer, `rest` are its unsent bytes, `chunks` the chunks sent for
   it; `outstanding` says that an acknowledgement is still to come.
   */
  datatype Queue = Queue(
    cur: Option<Ind>, rest: seq<byte>, chunks: seq<seq<byte>>, outstanding: bool,
    fifo: seq<Ind>, log: seq<Entry>, air: seq<AirChunk<Ind>>, accepted: seq<Ind>)

  const EMPTY_QUEUE: Queue := Queue(None, [], [], false, [], [], [], [])

  // ----- Steps ---------------------------------------------------------------

  /** The idle branch of `cp_indicate`. */
  predicate CanSend(link: Link) {
    UsableLen(link.mtu) != 0 && link.ok
  }

  function SendFirst(q: Queue, ind: Ind, link: Link): Queue
    requires CanSend(link)
  {
    var m := UsableLen(link.mtu);
    var chunk := Chunk(ind.data, m);
    q.(cur := Some(ind), rest := ind.data[Taken(ind.data, m)..], chunks := [chunk], outstanding := true,
       air := q.air + [AirChunk(ind, chunk)])
  }

  /** `cp_indicate` called by the application; the flag says that it returned 0. */
  function Submit(q: Queue, ind: Ind, mallocOk: bool, link: Link): (Queue, bool) {
    if q.cur.Some? then
      if mallocOk then (q.(fifo := q.fifo + [ind], accepted := q.accepted + [ind]), true) else (q, false)
    else if CanSend(link) then (SendFirst(q, ind, link).(accepted := q.accepted + [ind]), true)
    else (q, false)
  }

  /** `cp_ind_queue_process`: drops what cannot be sent until something can. */
  function Process(q: Queue, links: Answers): Queue
    decreases |q.fifo|
  {
    if q.fifo == [] then q
    else
      var ind := q.fifo[0];
      var q1 := q.(fifo := q.fifo[1..]);
      if CanSend(links(|q.fifo|, ind)) then SendFirst(q1, ind, links(|q.fifo|, ind))
      else Process(q1.(log := q.log + [Entry(ind, [], false)]), links)
  }

  /** `cp_ind_cb`. */
  function Ack(q: Queue, link: Link, links: Answers): Queue
    requires q.cur.Some?
  {
    var ind := q.cur.value;
    var m := UsableLen(link.mtu);
    if q.rest == [] || m == 0 then
      Process(q.(cur := None, rest := [], chunks := [], outstanding := false,
                 log := q.log + [Entry(ind, q.chunks, q.rest == [])]), links)
    else
      var chunk := Chunk(q.rest, m);
      var q1 := q.(rest := q.rest[Taken(q.rest, m)..]);
      if link.ok then q1.(chunks := q.chunks + [chunk], air := q.air + [AirChunk(ind, chunk)])
      else q1.(outstanding := false)
  }

  // ----- Invariant -------------------------------------------------------------

  function LogOnAir(log: seq<Entry>): seq<AirChunk<Ind>> {
    if log == [] then [] else LogOnAir(log[..|log| - 1]) + OnAir(log[|log| - 1].ind, log[|log| - 1].chunks)
  }

  function LogInds(log: seq<Entry>): seq<Ind> {
    seq(|log|, i requires 0 <= i < |log| => log[i].ind)
  }

  predicate EntriesRight(log: seq<Entry>) {
    forall i :: 0 <= i < |log| ==> DeliveredRight(PKT_MAX_LEN, log[i].ind.data, log[i].chunks, log[i].whole)
  }

  /** The indication in the buffer, as a sequence. */
  function Current(q: Queue): seq<Ind> {
    if q.cur.Some? then [q.cur.value] else []
  }

  ghost predicate Inv(q: Queue) {
    // an idle buffer implies an empty FIFO
    && (q.cur.None? ==> q.fifo == [] && q.rest == [] && q.chunks == [] && !q.outstanding)
    // every accepted indication is over, current or waiting, in submission order
    && q.accepted == LogInds(q.log) + Current(q) + q.fifo
    && (forall i :: 0 <= i < |q.accepted| ==> q.accepted[i].Fits())
    // the chunks on the air are those of one indication after the other
    && q.air == LogOnAir(q.log) + (if q.cur.Some? then OnAir(q.cur.value, q.chunks) else [])
    && EntriesRight(q.log)
    && (q.cur.Some? ==> CurrentRight(q))
  }

  /** The state of the indication that holds the buffer. */
  predicate CurrentRight(q: Queue)
    requires q.cur.Some?
  {
    if q.outstanding then OnItsWay(PKT_MAX_LEN, q.cur.value.data, q.rest, q.chunks)
    else DeliveredRight(PKT_MAX_LEN, q.cur.value.data, q.chunks, false)
  }

  // ----- Preservation ------------------------------------------------------------

  lemma LogOneMore(log: seq<Entry>, e: Entry)
    ensures LogOnAir(log + [e]) == LogOnAir(log) + OnAir(e.ind, e.chunks)
    ensures LogInds(log + [e]) == LogInds(log) + [e.ind]
    ensures EntriesRight(log) && DeliveredRight(PKT_MAX_LEN, e.ind.data, e.chunks, e.whole) ==> EntriesRight(log + [e])
  {
    assert (log + [e])[..|log|] == log;
    hide DeliveredRight;
  }

  lemma SendFirstRight(q: Queue, ind: Ind, link: Link)
    requires CanSend(link) && ind.Fits()
    ensures CurrentRight(SendFirst(q, ind, link))
    ensures OnAir(ind, SendFirst(q, ind, link).chunks) == [AirChunk(ind, SendFirst(q, ind, link).chunks[0])]
  {
    var m := UsableLen(link.mtu);
    NothingSent(PKT_MAX_LEN, ind.data);
    NextChunkReceived(PKT_MAX_LEN, ind.data, ind.data, [], m);
    assert [] + [Chunk(ind.data, m)] == [Chunk(ind.data, m)];
  }

  /** The fields of SendFirst. */
  lemma SendFirstFields(q: Queue, ind: Ind, link: Link)
    requires CanSend(link)
    ensures var q' := SendFirst(q, ind, link);
            && q'.cur == Some(ind) && q'.outstanding && |q'.chunks| == 1
            && q'.fifo == q.fifo && q'.log == q.log && q'.accepted == q.accepted
            && q'.air == q.air + [AirChunk(ind, q'.chunks[0])]
  {
  }

  /** An idle queue may take any indication; it comes after all that are over. */
  lemma SendFirstKeepsInv(q: Queue, ind: Ind, link: Link, fifo: seq<Ind>)
    requires Inv(q) && q.cur.None? && CanSend(link) && ind.Fits()
    requires forall i :: 0 <= i < |fifo| ==> fifo[i].Fits()
    ensures Inv(SendFirst(q, ind, link).(fifo := fifo, accepted := q.accepted + [ind] + fifo))
  {
    SendFirstFields(q, ind, link);
    SendFirstRight(q, ind, link);
    hide LogOnAir, LogInds, EntriesRight, Received, OnAir, DeliveredRight, SendFirst;
    var q' := SendFirst(q, ind, link).(fifo := fifo, accepted := q.accepted + [ind] + fifo);
    assert q'.accepted == LogInds(q'.log) + Current(q') + q'.fifo;
    assert CurrentRight(q');
  }

  lemma SubmitKeepsInv(q: Queue, ind: Ind, mallocOk: bool, link: Link)
    requires Inv(q) && ind.Fits()
    ensures Inv(Submit(q, ind, mallocOk, link).0)
  {
    hide LogOnAir, LogInds, EntriesRight, Received, OnAir, SendFirst, DeliveredRight;
    if q.cur.None? && CanSend(link) {
      SendFirstKeepsInv(q, ind, link, []);
      assert q.accepted + [ind] + [] == q.accepted + [ind];
      SendFirstFields(q, ind, link);
    } else if q.cur.Some? && mallocOk {
      var q' := Submit(q, ind, mallocOk, link).0;
      assert q'.accepted == LogInds(q'.log) + Current(q') + q'.fifo;
      assert CurrentRight(q');
    }
  }

  /** An idle queue whose FIFO still waits to be processed. */
  ghost predicate Draining(q: Queue) {
    && q.cur.None?
    && Inv(q.(fifo := [], accepted := LogInds(q.log)))
    && q.accepted == LogInds(q.log) + q.fifo
    && (forall i :: 0 <= i < |q.accepted| ==> q.accepted[i].Fits())
  }

  lemma {:induction false} ProcessKeepsInv(q: Queue, links: Answers)
    requires Draining(q)
    ensures Inv(Process(q, links))
    decreases |q.fifo|
  {
    hide LogOnAir, LogInds, EntriesRight, Received, OnAir, SendFirst, DeliveredRight;
    if q.fifo == [] {
      assert q.accepted == LogInds(q.log);
      assert q == q.(fifo := [], accepted := LogInds(q.log));
    } else {
      var ind := q.fifo[0];
      assert q.accepted[|LogInds(q.log)|] == ind;
      var waiting := q.fifo[1..];
      forall i | 0 <= i < |waiting| ensures waiting[i].Fits() {
        assert waiting[i] == q.accepted[|LogInds(q.log)| + 1 + i];
      }
      if CanSend(links(|q.fifo|, ind)) {
        var idle := q.(fifo := [], accepted := LogInds(q.log));
        SendFirstKeepsInv(idle, ind, links(|q.fifo|, ind), waiting);
        assert LogInds(q.log) + [ind] + waiting == q.accepted;
        SendFirstOver(q.(fifo := waiting), idle, ind, links(|q.fifo|, ind));
      } else {
        var q1 := q.(fifo := waiting, log := q.log + [Entry(ind, [], false)]);
        DroppedUnsent(q, ind);
        assert q1.accepted == LogInds(q1.log) + q1.fifo;
        ProcessKeepsInv(q1, links);
      }
    }
  }

  /** SendFirst neither reads the FIFO nor the accepted indications. */
  lemma SendFirstOver(q: Queue, idle: Queue, ind: Ind, link: Link)
    requires CanSend(link) && idle == q.(fifo := idle.fifo, accepted := idle.accepted)
    ensures SendFirst(q, ind, link) == SendFirst(idle, ind, link).(fifo := q.fifo, accepted := q.accepted)
  {
  }

  /** An indication that is dropped from the FIFO leaves nothing on the air. */
  lemma DroppedUnsent(q: Queue, ind: Ind)
    requires Draining(q) && q.fifo != [] && q.fifo[0] == ind
    ensures var log' := q.log + [Entry(ind, [], false)];
            && LogInds(log') == LogInds(q.log) + [ind]
            && Inv(q.(fifo := [], log := log', accepted := LogInds(log')))
  {
    LogOneMore(q.log, Entry(ind, [], false));
    assert Received(PKT_MAX_LEN, []) == Receiver([], []);
    assert OnAir(ind, []) == [];
    assert q.accepted[|LogInds(q.log)|] == ind;
    hide LogOnAir, LogInds, EntriesRight, Received, OnAir, DeliveredRight;
    var log' := q.log + [Entry(ind, [], false)];
    var q' := q.(fifo := [], log := log', accepted := LogInds(log'));
    assert q'.air == LogOnAir(q'.log);
    assert q'.accepted == LogInds(q'.log) + Current(q') + q'.fifo;
    assert forall i :: 0 <= i < |LogInds(q.log)| ==> LogInds(q.log)[i] == q.accepted[i];
  }

  lemma AckKeepsInv(q: Queue, link: Link, links: Answers)
    requires Inv(q) && q.outstanding
    ensures Inv(Ack(q, link, links))
  {
    hide LogOnAir, LogInds, EntriesRight, Received, OnAir, DeliveredRight;
    var ind := q.cur.value;
    assert q.accepted[|LogInds(q.log)|] == ind;
    var m := UsableLen(link.mtu);
    if q.rest == [] || m == 0 {
      var q1 := q.(cur := None, rest := [], chunks := [], outstanding := false,
                   log := q.log + [Entry(ind, q.chunks, q.rest == [])]);
      Finished(q, q1);
      ProcessKeepsInv(q1, links);
    } else {
      var chunk := Chunk(q.rest, m);
      NextChunkReceived(PKT_MAX_LEN, ind.data, q.rest, q.chunks, m);
      OnAirAppend(ind, q.chunks, chunk);
      var q' := Ack(q, link, links);
      if link.ok {
        assert q'.air == LogOnAir(q'.log) + OnAir(ind, q'.chunks);
      } else {
        PartlyDelivered(PKT_MAX_LEN, ind.data, q.rest, q.chunks);
      }
    }
  }

  /** The last acknowledgement, or one on a closing link, ends the indication. */
  lemma Finished(q: Queue, q1: Queue)
    requires Inv(q) && q.outstanding
    requires q1 == q.(cur := None, rest := [], chunks := [], outstanding := false,
                      log := q.log + [Entry(q.cur.value, q.chunks, q.rest == [])])
    ensures Draining(q1)
  {
    var ind := q.cur.value;
    LogOneMore(q.log, Entry(ind, q.chunks, q.rest == []));
    PartlyDelivered(PKT_MAX_LEN, ind.data, q.rest, q.chunks);
    assert q.accepted[|LogInds(q.log)|] == ind;
    hide LogOnAir, LogInds, EntriesRight, Received, OnAir, DeliveredRight;
    assert q1.accepted == LogInds(q1.log) + q1.fifo;
    var idle := q1.(fifo := [], accepted := LogInds(q1.log));
    assert idle.accepted == LogInds(idle.log) + Current(idle) + idle.fifo;
    assert idle.air == LogOnAir(idle.log) + [];
    assert forall i :: 0 <= i < |LogInds(q1.log)| ==> LogInds(q1.log)[i] == q1.accepted[i];
  }

  // ----- Runs ----------------------------------------------------------------------

  /** An application call, or an acknowledgement of the outstanding chunk. */
  datatype Event = Call(ind: Ind, mallocOk: bool, link: Link) | Acked(link: Link, links: Answers)

  function Step(q: Queue, e: Event): Queue {
    match e
    case Call(ind, mallocOk, link) => Submit(q, ind, mallocOk, link).0
    case Acked(link, links) => if q.outstanding && q.cur.Some? then Ack(q, link, links) else q
  }

  function Run(events: seq<Event>): Queue {
    if events == [] then EMPTY_QUEUE else Step(Run(events[..|events| - 1]), events[|events| - 1])
  }

  ghost predicate AllFit(events: seq<Event>) {
    forall i :: 0 <= i < |events| && events[i].Call? ==> events[i].ind.Fits()
  }

  lemma {:induction false} RunKeepsInv(events: seq<Event>)
    requires AllFit(events)
    ensures Inv(Run(events))
  {
    hide Submit, Ack, LogOnAir, LogInds, EntriesRight, OnAir, CurrentRight;
    if events == [] {
      EmptyInv();
    } else {
      var n := |events| - 1;
      RunKeepsInv(events[..n]);
      var q := Run(events[..n]);
      match events[n]
      case Call(ind, mallocOk, link) => SubmitKeepsInv(q, ind, mallocOk, link);
      case Acked(link, links) => if q.outstanding && q.cur.Some? { AckKeepsInv(q, link, links); }
    }
  }

  lemma EmptyInv()
    ensures Inv(EMPTY_QUEUE)
  {
  }

  /**
   In every reachable state: an idle buffer implies an empty FIFO; the indications
   that are over, the current one and the waiting ones are the accepted ones in
   submission order; their chunks went out one indication after the other; and a
   receiver rebuilt every whole one exactly, of any other at most a beginning.
   */
  lemma NoInterleaving(events: seq<Event>)
    requires AllFit(events)
    ensures var q := Run(events);
            && (q.cur.None? ==> q.fifo == [])
            && q.accepted == LogInds(q.log) + Current(q) + q.fifo
            && q.air == LogOnAir(q.log) + (if q.cur.Some? then OnAir(q.cur.value, q.chunks) else [])
            && forall i :: 0 <= i < |q.log| ==>
                 DeliveredRight(PKT_MAX_LEN, q.log[i].ind.data, q.log[i].chunks, q.log[i].whole)
  {
    hide Run, LogOnAir, LogInds, OnAir, CurrentRight, DeliveredRight;
    RunKeepsInv(events);
  }

  // ----- Only its own link can cut an indication off -------------------------------

  ghost predicate GoodAnswers(links: Answers, conn: nat) {
    forall n: nat, ind: Ind :: ind.conn == conn ==> CanSend(links(n, ind))
  }

  /** Link `conn` stays open and takes every chunk. */
  ghost predicate GoodEvent(q: Queue, e: Event, conn: nat) {
    match e
    case Call(ind, _, link) => ind.conn == conn ==> CanSend(link)
    case Acked(link, links) =>
      && (q.cur.Some? && q.cur.value.conn == conn ==> CanSend(link))
      && GoodAnswers(links, conn)
  }

  predicate WholeOn(log: seq<Entry>, conn: nat) {
    forall i :: 0 <= i < |log| && log[i].ind.conn == conn ==> log[i].whole
  }

  /** Every finished indication of the link was whole, and its current one is still going out. */
  ghost predicate Healthy(q: Queue, conn: nat) {
    && WholeOn(q.log, conn)
    && (q.cur.Some? && q.cur.value.conn == conn ==> q.outstanding)
  }

  lemma {:induction false} ProcessKeepsHealthy(q: Queue, links: Answers, conn: nat)
    requires q.cur.None? && WholeOn(q.log, conn)
    requires GoodAnswers(links, conn)
    ensures Healthy(Process(q, links), conn)
    decreases |q.fifo|
  {
    if q.fifo != [] && !CanSend(links(|q.fifo|, q.fifo[0])) {
      ProcessKeepsHealthy(
        q.(fifo := q.fifo[1..], log := q.log + [Entry(q.fifo[0], [], false)]), links, conn);
    }
  }

  lemma StepKeepsHealthy(q: Queue, e: Event, conn: nat)
    requires Healthy(q, conn) && GoodEvent(q, e, conn)
    ensures Healthy(Step(q, e), conn)
  {
    if e.Acked? && q.outstanding && q.cur.Some? {
      var ind := q.cur.value;
      if q.rest == [] || UsableLen(e.link.mtu) == 0 {
        ProcessKeepsHealthy(
          q.(cur := None, rest := [], chunks := [], outstanding := false,
             log := q.log + [Entry(ind, q.chunks, q.rest == [])]), e.links, conn);
      }
    }
  }

  /** Whatever happens on other links, what was accepted for a good link goes out whole. */
  lemma {:induction false} GoodLinkDelivers(events: seq<Event>, conn: nat)
    requires AllFit(events)
    requires forall i :: 0 <= i < |events| ==> GoodEvent(Run(events[..i]), events[i], conn)
    ensures Healthy(Run(events), conn)
    ensures forall i :: 0 <= i < |Run(events).log| && Run(events).log[i].ind.conn == conn ==>
              Received(PKT_MAX_LEN, Run(events).log[i].chunks) == Receiver([], [Run(events).log[i].ind.data])
  {
    if events != [] {
      hide Step, GoodEvent;
      var past := events[..|events| - 1];
      forall i | 0 <= i < |past| ensures GoodEvent(Run(past[..i]), past[i], conn) {
        assert past[..i] == events[..i];
      }
      GoodLinkDelivers(past, conn);
      StepKeepsHealthy(Run(past), events[|events| - 1], conn);
    }
    RunKeepsInv(events);
  }

  // ----- The queue of the service ----------------------------------------------------

  /**
   The static state of the service. `queue` is the abstract queue: it names the
   indication whose bytes the buffer holds and remembers what went out.
   */
  class IndicationSender {
    const cpIndBuf: NetBuf
    var fifo: seq<Ind>
    ghost var queue: Queue

    ghost predicate Valid()
      reads this, cpIndBuf, cpIndBuf.buf
    {
      && cpIndBuf.Valid() && cpIndBuf.buf.Length == PKT_MAX_LEN
      && fifo == queue.fifo
      && (cpIndBuf.Headroom() == 0 <==> queue.cur.None?)
      && (queue.cur.Some? ==> cpIndBuf.Content() == queue.rest)
      && (forall i :: 0 <= i < |fifo| ==> fifo[i].Fits())
    }

    constructor ()
      ensures Valid() && queue == EMPTY_QUEUE && fresh(cpIndBuf) && fresh(cpIndBuf.buf)
    {
      cpIndBuf := new NetBuf(PKT_MAX_LEN);
      fifo := [];
      queue := EMPTY_QUEUE;
    }

    /** The idle branch of `cp_indicate`; on failure the buffer is released again. */
    method SendIdle(ind: Ind, link: Link) returns (ok: bool)
      requires Valid() && queue.cur.None? && ind.Fits()
      modifies cpIndBuf, cpIndBuf.buf, this`queue
      ensures Valid() && ok == CanSend(link)
      ensures queue == if ok then SendFirst(old(queue), ind, link) else old(queue)
    {
      cpIndBuf.Reset();
      cpIndBuf.Reserve(1);
      cpIndBuf.AddMem(ind.data);
      assert cpIndBuf.Content() == ind.data;
      var chunk := cpIndBuf.ChunkPrepare(link.mtu);
      if chunk.None? || !link.ok {
        cpIndBuf.Reset();
        return false;
      }
      queue := SendFirst(queue, ind, link);
      return true;
    }

    /** `cp_indicate`. */
    method CpIndicate(ind: Ind, mallocOk: bool, link: Link) returns (ok: bool)
      requires Valid() && ind.Fits()
      modifies this, cpIndBuf, cpIndBuf.buf
      ensures Valid() && (queue, ok) == Submit(old(queue), ind, mallocOk, link)
    {
      if cpIndBuf.Headroom() != 0 {
        if !mallocOk {
          return false;
        }
        fifo := fifo + [ind];
        queue := queue.(fifo := fifo, accepted := queue.accepted + [ind]);
        return true;
      }
      ok := SendIdle(ind, link);
      if ok {
        queue := queue.(accepted := queue.accepted + [ind]);
      }
    }

    /** `cp_ind_queue_process`. */
    method CpIndQueueProcess(links: Answers)
      requires Valid() && queue.cur.None?
      modifies this, cpIndBuf, cpIndBuf.buf
      ensures Valid() && queue == Process(old(queue), links)
    {
      while fifo != []
        invariant Valid() && queue.cur.None?
        invariant Process(queue, links) == Process(old(queue), links)
        decreases |fifo|
      {
        var ind := fifo[0];
        fifo := fifo[1..];
        ghost var q := queue;
        queue := queue.(fifo := fifo);
        var ok := SendIdle(ind, links(|fifo| + 1, ind));
        if ok {
          return;
        }
        queue := queue.(log := queue.log + [Entry(ind, [], false)]);
      }
    }

    /** `cp_ind_cb`, called for the link of the outstanding chunk. */
    method CpIndCb(link: Link, links: Answers)
      requires Valid() && queue.cur.Some?
      modifies this, cpIndBuf, cpIndBuf.buf
      ensures Valid() && queue == Ack(old(queue), link, links)
    {
      ghost var ind := queue.cur.value;
      ghost var rest := queue.rest;
      var chunk := cpIndBuf.ChunkPrepare(link.mtu);
      if chunk.None? {
        cpIndBuf.Reset();
        queue := queue.(cur := None, rest := [], chunks := [], outstanding := false,
                        log := queue.log + [Entry(ind, queue.chunks, queue.rest == [])]);
        CpIndQueueProcess(links);
      } else {
        ghost var bytes := Chunk(rest, UsableLen(link.mtu));
        queue := queue.(rest := rest[Taken(rest, UsableLen(link.mtu))..]);
        if link.ok {
          queue := queue.(chunks := queue.chunks + [bytes], air := queue.air + [AirChunk(ind, bytes)]);
        } else {
          queue := queue.(outstanding := false);
        }
      }
    }
  }
}
