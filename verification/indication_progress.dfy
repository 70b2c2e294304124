/**
 What the indication queue must do: take every indication that it has room for, send
 it when its turn comes, and get stuck only where the stack refuses a later chunk.
 */
module IndicationProgress {
  import opened Wrappers
  import opened Bytes
  import opened Packets
  import opened Indications

  // ----- Submitting ------------------------------------------------------------------

  /** An indication comes behind all others, and only its first chunk may go out. */
  predicate JoinsQueue(q: Queue, q1: Queue, ind: Ind) {
    && q1.accepted == q.accepted + [ind]
    && q1.log == q.log
    && if q.cur.Some? then q1 == q.(fifo := q.fifo + [ind], accepted := q1.accepted)
       else
         && q1.cur == Some(ind) && q1.outstanding && q1.fifo == q.fifo && |q1.chunks| == 1
         && OnItsWay(PKT_MAX_LEN, ind.data, q1.rest, q1.chunks)
         && q1.air == q.air + OnAir(ind, q1.chunks)
  }

  /**
   In every run an indication is taken exactly if there is memory for it while the
   buffer is busy, or its link can send while the buffer is idle. One that is refused
   leaves no trace, and the result says which it was.
   */
  lemma TakenIff(events: seq<Event>, ind: Ind, mallocOk: bool, link: Link)
    requires AllFit(events) && ind.Fits()
    ensures var q, (q1, ok) := Run(events), Submit(Run(events), ind, mallocOk, link);
            && Step(q, Call(ind, mallocOk, link)) == q1
            && (ok <==> if q.cur.Some? then mallocOk else CanSend(link))
            && if ok then JoinsQueue(q, q1, ind) else q1 == q
  {
    RunKeepsInv(events);
    var q := Run(events);
    hide Run, AllFit, SendFirst, LogOnAir, LogInds, EntriesRight, OnItsWay, DeliveredRight, Received;
    if q.cur.None? && CanSend(link) {
      SendFirstFields(q, ind, link);
      SendFirstRight(q, ind, link);
    }
  }

  // ----- Acknowledgements --------------------------------------------------------------

  /** The first waiting indication, from the `i`-th on, that its link takes. */
  function FirstTaken(fifo: seq<Ind>, links: Answers): (k: nat)
    ensures k <= |fifo|
  {
    if fifo == [] then 0
    else if CanSend(links(|fifo|, fifo[0])) then 0
    else 1 + FirstTaken(fifo[1..], links)
  }

  /** Indications that were dropped from the FIFO before anything of them was sent. */
  function Dropped(inds: seq<Ind>): (log: seq<Entry>)
    ensures |log| == |inds|
  {
    seq(|inds|, i requires 0 <= i < |inds| => Entry(inds[i], [], false))
  }

  /** The buffer goes to the first waiting indication that its link takes; those before it are dropped. */
  predicate PassedOn(q: Queue, q1: Queue, links: Answers) {
    var k := FirstTaken(q.fifo, links);
    && q1.log == q.log + Dropped(q.fifo[..k])
    && q1.accepted == q.accepted
    && if k == |q.fifo| then q1.cur.None? && q1.fifo == [] && q1.air == q.air
       else
         && q1.cur == Some(q.fifo[k]) && q1.outstanding && q1.fifo == q.fifo[k + 1..] && |q1.chunks| == 1
         && OnItsWay(PKT_MAX_LEN, q.fifo[k].data, q1.rest, q1.chunks)
         && q1.air == q.air + OnAir(q.fifo[k], q1.chunks)
  }

  /** None is taken before the first that is, and that one is. */
  lemma {:induction false} FirstTakenIs(fifo: seq<Ind>, links: Answers, i: nat)
    requires i <= FirstTaken(fifo, links) && i < |fifo|
    ensures CanSend(links(|fifo| - i, fifo[i])) <==> i == FirstTaken(fifo, links)
  {
    if i > 0 {
      FirstTakenIs(fifo[1..], links, i - 1);
    }
  }

  lemma {:induction false} ProcessPassesOn(q: Queue, links: Answers)
    requires q.cur.None? && forall i :: 0 <= i < |q.fifo| ==> q.fifo[i].Fits()
    ensures PassedOn(q, Process(q, links), links)
    decreases |q.fifo|
  {
    hide SendFirst, OnItsWay, Received, CanSend;
    if q.fifo != [] {
      var ind, waiting := q.fifo[0], q.fifo[1..];
      var link := links(|q.fifo|, ind);
      if CanSend(link) {
        SendFirstFields(q.(fifo := waiting), ind, link);
        SendFirstRight(q.(fifo := waiting), ind, link);
        assert Dropped(q.fifo[..0]) == [];
      } else {
        var q1 := q.(fifo := waiting, log := q.log + [Entry(ind, [], false)]);
        var k := FirstTaken(waiting, links);
        ProcessPassesOn(q1, links);
        assert [Entry(ind, [], false)] + Dropped(waiting[..k]) == Dropped(q.fifo[..k + 1]);
        assert waiting[k..] == q.fifo[k + 1..];
      }
    }
  }

  /** The chunk after `rest` was acknowledged: the indication goes on, is over, or its link refuses it. */
  predicate Goes(q: Queue, q1: Queue, ok: bool)
    requires q.cur.Some?
  {
    && q1.cur == q.cur && q1.fifo == q.fifo && q1.log == q.log && q1.accepted == q.accepted && q1.outstanding == ok
    && if ok then
         && |q1.chunks| == |q.chunks| + 1 && q.chunks <= q1.chunks
         && OnItsWay(PKT_MAX_LEN, q.cur.value.data, q1.rest, q1.chunks)
         && q1.air == q.air + OnAir(q.cur.value, q1.chunks[|q.chunks|..])
       else q1.chunks == q.chunks && q1.air == q.air
  }

  /**
   In every run an acknowledgement ends the indication exactly if all of it is out or
   its link is closing, and then passes the buffer on. Otherwise the next chunk goes
   out, unless the stack refuses it; then nothing is outstanding any more.
   */
  lemma AckEndsIff(events: seq<Event>, link: Link, links: Answers)
    requires AllFit(events) && Run(events).outstanding
    ensures var q, q1 := Run(events), Step(Run(events), Acked(link, links));
            && q.cur.Some?
            && if q.rest == [] || UsableLen(link.mtu) == 0 then
                 PassedOn(q.(log := q.log + [Entry(q.cur.value, q.chunks, q.rest == [])]), q1, links)
               else Goes(q, q1, link.ok)
  {
    RunKeepsInv(events);
    var q := Run(events);
    hide Run, AllFit, SendFirst, LogOnAir, LogInds, EntriesRight, OnItsWay, DeliveredRight, Received, PassedOn, Process;
    var ind, m := q.cur.value, UsableLen(link.mtu);
    if q.rest == [] || m == 0 {
      var q1 := q.(cur := None, rest := [], chunks := [], outstanding := false,
                   log := q.log + [Entry(ind, q.chunks, q.rest == [])]);
      Waiting(q);
      ProcessPassesOn(q1, links);
      PassedOnFrame(q1, q.(log := q1.log), Process(q1, links), links);
    } else {
      var chunk := Chunk(q.rest, m);
      NextChunkReceived(PKT_MAX_LEN, ind.data, q.rest, q.chunks, m);
      assert (q.chunks + [chunk])[|q.chunks|..] == [chunk];
      assert OnAir(ind, [chunk]) == [AirChunk(ind, chunk)];
    }
  }

  lemma PassedOnFrame(q: Queue, q0: Queue, q1: Queue, links: Answers)
    requires PassedOn(q, q1, links)
    requires q0.fifo == q.fifo && q0.log == q.log && q0.accepted == q.accepted && q0.air == q.air
    ensures PassedOn(q0, q1, links)
  {
  }

  lemma Waiting(q: Queue)
    requires Inv(q)
    ensures forall i :: 0 <= i < |q.fifo| ==> q.fifo[i].Fits()
  {
    hide LogOnAir, LogInds, EntriesRight, DeliveredRight, OnItsWay;
    var n := |LogInds(q.log) + Current(q)|;
    forall i | 0 <= i < |q.fifo| ensures q.fifo[i].Fits() {
      assert q.fifo[i] == q.accepted[n + i];
    }
  }

  // ----- Stuck ---------------------------------------------------------------------------

  /** The buffer is held, and no acknowledgement will come. */
  predicate Stuck(q: Queue) {
    q.cur.Some? && !q.outstanding
  }

  lemma RunMore(events: seq<Event>, e: Event)
    ensures Run(events + [e]) == Step(Run(events), e)
  {
    assert (events + [e])[..|events|] == events;
  }

  /** The queue gets stuck exactly when the stack refuses a chunk behind the first one. */
  lemma GetsStuckIff(events: seq<Event>, e: Event)
    requires AllFit(events) && AllFit(events + [e]) && !Stuck(Run(events))
    ensures Stuck(Run(events + [e])) <==>
            var q := Run(events);
            e.Acked? && q.outstanding && q.rest != [] && UsableLen(e.link.mtu) > 0 && !e.link.ok
  {
    RunMore(events, e);
    RunKeepsInv(events);
    hide Run, OnItsWay, SendFirst, DeliveredRight, Submit, Ack, Process, AllFit;
    match e
    case Call(ind, mallocOk, link) =>
      FitsLast(events, e);
      TakenIff(events, ind, mallocOk, link);
    case Acked(link, links) =>
      if Run(events).outstanding {
        AckEndsIff(events, link, links);
      }
  }

  lemma FitsLast(events: seq<Event>, e: Event)
    requires AllFit(events + [e]) && e.Call?
    ensures e.ind.Fits()
  {
    assert (events + [e])[|events|] == e;
  }

  /** A stuck queue takes indications but sends nothing any more. */
  lemma {:induction false} StuckForGood(events: seq<Event>, more: seq<Event>)
    requires Stuck(Run(events))
    ensures var q, q1 := Run(events), Run(events + more);
            Stuck(q1) && q1.cur == q.cur && q1.log == q.log && q1.air == q.air && q.fifo <= q1.fifo
  {
    if more == [] {
      assert events + more == events;
    } else {
      var past, e := more[..|more| - 1], more[|more| - 1];
      StuckForGood(events, past);
      assert events + more == (events + past) + [e];
      RunMore(events + past, e);
      hide Run;
    }
  }

  // ----- A good link ------------------------------------------------------------------------

  /** The indications of a link. */
  function OfLink(inds: seq<Ind>, conn: nat): seq<Ind> {
    if inds == [] then []
    else
      var n := |inds| - 1;
      if inds[n].conn == conn then OfLink(inds[..n], conn) + [inds[n]] else OfLink(inds[..n], conn)
  }

  /** The indications that the application has submitted. */
  function Submitted(events: seq<Event>): seq<Ind> {
    if events == [] then []
    else
      var n := |events| - 1;
      if events[n].Call? then Submitted(events[..n]) + [events[n].ind] else Submitted(events[..n])
  }

  ghost predicate GoodRun(events: seq<Event>, conn: nat) {
    forall i :: 0 <= i < |events| ==> GoodEvent(Run(events[..i]), events[i], conn)
  }

  /** There is memory for every indication of the link. */
  predicate Memory(events: seq<Event>, conn: nat) {
    forall i :: 0 <= i < |events| && events[i].Call? && events[i].ind.conn == conn ==> events[i].mallocOk
  }

  lemma OfLinkAppend(inds: seq<Ind>, ind: Ind, conn: nat)
    ensures OfLink(inds + [ind], conn) == if ind.conn == conn then OfLink(inds, conn) + [ind] else OfLink(inds, conn)
  {
    assert (inds + [ind])[..|inds|] == inds;
  }

  /** The indications that were accepted for a good link are those submitted for it, in order. */
  lemma {:induction false} AcceptedIsSubmitted(events: seq<Event>, conn: nat)
    requires AllFit(events) && GoodRun(events, conn) && Memory(events, conn)
    ensures OfLink(Run(events).accepted, conn) == OfLink(Submitted(events), conn)
  {
    if events != [] {
      var past, e := events[..|events| - 1], events[|events| - 1];
      assert events == past + [e];
      GoodPrefix(events, conn);
      AcceptedIsSubmitted(past, conn);
      RunMore(past, e);
      StepAccepted(past, e, conn);
      if e.Call? {
        OfLinkAppend(Submitted(past), e.ind, conn);
      }
    }
  }

  lemma GoodPrefix(events: seq<Event>, conn: nat)
    requires AllFit(events) && GoodRun(events, conn) && Memory(events, conn) && events != []
    ensures var past, e := events[..|events| - 1], events[|events| - 1];
            && AllFit(past) && GoodRun(past, conn) && Memory(past, conn) && GoodEvent(Run(past), e, conn)
            && (e.Call? ==> e.ind.Fits() && (e.ind.conn == conn ==> e.mallocOk))
  {
    hide Run, GoodEvent;
    var past := events[..|events| - 1];
    forall i | 0 <= i < |past| ensures GoodEvent(Run(past[..i]), past[i], conn) {
      assert past[..i] == events[..i];
    }
  }

  lemma StepAccepted(past: seq<Event>, e: Event, conn: nat)
    requires AllFit(past) && GoodEvent(Run(past), e, conn)
    requires e.Call? ==> e.ind.Fits() && (e.ind.conn == conn ==> e.mallocOk)
    ensures OfLink(Step(Run(past), e).accepted, conn) ==
            var before := OfLink(Run(past).accepted, conn);
            if e.Call? && e.ind.conn == conn then before + [e.ind] else before
  {
    var q := Run(past);
    hide Run, OfLink, Submit, Ack, CanSend, PassedOn;
    match e
    case Call(ind, mallocOk, link) =>
      TakenIff(past, ind, mallocOk, link);
      OfLinkAppend(q.accepted, ind, conn);
    case Acked(link, links) =>
      if q.outstanding {
        AckEndsIff(past, link, links);
        PassedAccepted(links);
      }
  }

  lemma PassedAccepted(links: Answers)
    ensures forall q, q1 :: PassedOn(q, q1, links) ==> q1.accepted == q.accepted
  {
  }

  /**
   Every indication submitted for a good link is over, whole, or in the buffer and on
   its way, or waiting, in the order of submission.
   */
  lemma GoodLinkServed(events: seq<Event>, conn: nat)
    requires AllFit(events) && GoodRun(events, conn) && Memory(events, conn)
    ensures var q := Run(events);
            && OfLink(LogInds(q.log) + Current(q) + q.fifo, conn) == OfLink(Submitted(events), conn)
            && WholeOn(q.log, conn)
            && (q.cur.Some? && q.cur.value.conn == conn ==> q.outstanding)
  {
    AcceptedIsSubmitted(events, conn);
    GoodLinkDelivers(events, conn);
    NoInterleaving(events);
  }
}
