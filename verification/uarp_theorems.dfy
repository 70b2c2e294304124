/** What the transfer guarantees over every fair run. */
module UarpTheorems {
  import opened Bytes
  import opened UarpImage
  import opened Uarp
  import opened UarpInvariant
  import opened UarpSteps
  import opened UarpResponses
  import opened UarpEvents

  // ----- Reassembly ----------------------------------------------------------------

  lemma SlicePrefix(image: seq<byte>, start: nat, n: nat, m: nat)
    requires n <= m
    ensures Slice(image, start, n) == Slice(image, start, m)[..n]
  {
  }

  /**
   In every state of a fair run, with pauses, stale and duplicate responses, lost
   links and merges, the bytes delivered are the payload up to `recvd`, and it is
   reported complete once, exactly when all of it was delivered. Of the payloads
   before it each wanted one was delivered whole and reported complete once; of the
   others nothing was delivered.
   */
  lemma ReassembledExactly(c: Config, events: seq<Event>)
    requires c.Valid() && FairRun(c, events) && HasAsset(Run(c, events))
    ensures var s := Run(c, events);
            var image := c.images(s.a.core);
            && (s.a.hasPayloadHeader ==>
                  && s.a.selected >= 0
                  && s.a.recvd <= |PayloadOf(image, s.a.selected)|
                  && s.h.delivered == PayloadOf(image, s.a.selected)[..s.a.recvd]
                  && s.h.completions == if 0 < s.a.recvd == |PayloadOf(image, s.a.selected)| then 1 else 0)
            && (!s.a.hasPayloadHeader ==> s.h.delivered == [] && s.h.completions == 0)
            && |s.h.past| == (if s.a.selected >= 0 then s.a.selected else 0)
            && (forall i :: 0 <= i < |s.h.past| ==>
                  && s.h.past[i].index == i
                  && (c.wanted(PayloadHeaderOf(image, i)) ==>
                        s.h.past[i].delivered == PayloadOf(image, i) && s.h.past[i].completions == 1)
                  && (!c.wanted(PayloadHeaderOf(image, i)) ==>
                        s.h.past[i].delivered == [] && s.h.past[i].completions == 0))
  {
    RunKeepsInv(c, events);
    var s := Run(c, events);
    hide Run, LogRight, Tally, PullRight, Phase, PayloadHeaderOf, SbHeaderOf;
    if s.a.hasPayloadHeader {
      SlicePrefix(ImageOf(c, s.a), s.a.payload.hdr.offset, s.a.recvd, s.a.payload.hdr.length);
    }
    forall i | 0 <= i < |s.h.past| ensures DoneRight(c, ImageOf(c, s.a), s.h.past[i], i) {
    }
  }

  /**
   A response to the pull in progress that is taken stays inside of the scratch buffer;
   and whenever payload bytes are awaited, the writer has been started. For responses
   to other pulls see UarpLayout.LateResponseOverruns.
   */
  lemma ResponsesFitTheBuffer(c: Config, events: seq<Event>, i: nat, bytes: seq<byte>)
    requires c.Valid() && FairRun(c, events)
    requires var s := Run(c, events);
             HasAsset(s) && Truthful(c, s, i, bytes) && Passes(s.a, s.h.log[i].offset, bytes)
    ensures var s := Run(c, events);
            && (s.h.log[i].pull == s.h.pull ==>
                  s.a.req.bytesResponded + |bytes| <= s.a.req.bytesRequested <= |s.a.scratch| == c.window)
            && (s.h.pull.Pull? && s.a.req.kind.PayloadDataKind? ==> s.f.busy)
  {
    RunKeepsInv(c, events);
    var s := Run(c, events);
    if s.h.log[i].pull == s.h.pull {
      ResponseFits(c, s, i, bytes);
    }
    if s.h.pull.Pull? {
      PullFields(c, s);
    }
    hide Run, Base, Phase, Slice, Expected, WindowLen, WindowBase, Region, Truthful;
  }

  /**
   Every message of a fair run asks for one chunk of a window, at most as long as the
   link can carry and the message can say; and for the longest such chunk, unless it
   is the last one of its window. A payload is pulled in windows of `c.window` bytes,
   every other part at once.
   */
  lemma RequestsFitTheLink(c: Config, events: seq<Event>, i: nat)
    requires c.Valid() && FairRun(c, events) && HasAsset(Run(c, events)) && i < |Run(c, events).h.log|
    ensures var s := Run(c, events);
            var e, image := s.h.log[i], c.images(s.a.core);
            && e.pull.Pull? && e.at < TWO_32 && e.offset == Sum32(StartOf(image, e.pull), e.at)
            && 0 < e.len <= c.maxRx && e.len <= 0xFFFF
            && var whole := BoundsOf(image, e.pull).1;
               var end := if e.pull.kind.PayloadDataKind? then Min(whole, NextMultiple(e.at, c.window)) else whole;
               e.at + e.len <= end && (e.at + e.len == end || e.len == c.maxRx || e.len == 0xFFFF)
  {
    RunKeepsInv(c, events);
    var s := Run(c, events);
    hide Run, Headers, Delivery, Tally, PastRight, PullRight, Phase, StartOf, BoundsOf, FairRun, NextMultiple;
    assert EntryRight(c, s.a, s.h.log[i]) && ChunkRight(c, ImageOf(c, s.a), s.h.log[i]);
  }

  // ----- Progress ------------------------------------------------------------------

  /** Asking for a chunk changes neither the payload nor what was delivered. */
  lemma ContinueKeeps(c: Config, s: State, env: Env)
    ensures var s1 := Continue(c, s, env).0;
            && s1.a == s.a.(req := s1.a.req) && s1.f == s.f && s1.h == s.h.(log := s1.h.log)
  {
  }

  lemma RequestKeeps(c: Config, s: State, kind: Kind, rel: u32, needed: u32, env: Env)
    ensures var s1 := RequestData(c, s, kind, rel, needed, env).0;
            && s1.a == s.a.(req := s1.a.req) && s1.f == s.f
            && s1.h == s.h.(pull := s1.h.pull, log := s1.h.log)
            && (s1.h.pull == s.h.pull || s1.h.pull == NoPull || s1.h.pull == Pull(kind, s.a.selected))
  {
    if !s.a.req.outstanding {
      RequestDataIs(c, s, kind, rel, needed, env);
      ContinueKeeps(c, Begin(s, kind, rel, needed), env);
      hide RequestData, Continue, Validated;
    }
  }

  lemma IndexKeeps(c: Config, s: State, index: u16, env: Env)
    ensures var (s1, ok) := SetPayloadIndex(c, s, index, env);
            && s1.f == s.f && s1.h.verified == s.h.verified
            && (if index < s.a.core.numPayloads then
                  s1.a.selected == index && s1.h.delivered == [] && s1.h.completions == 0 && s1.h.past == WithDone(s)
                else s1 == s && !ok)
            && (s1.h.pull == s.h.pull || s1.h.pull == NoPull || s1.h.pull == Pull(PayloadHeaderKind, index))
  {
    hide RequestData, WithDone;
    if index < s.a.core.numPayloads {
      RequestKeeps(c, Selected(s, index), PayloadHeaderKind, index * PAYLOAD_HEADER_LEN, PAYLOAD_HEADER_LEN, env);
    }
  }

  /** The payload is counted and another one follows. */
  predicate MovesOn(c: Config, s: State, env: Env) {
    && s.f.state.Active? && c.hash(s.f.hashed) == s.f.payloadHash && env.finishOk
    && s.f.applyFlags != APPLY_FLAGS_FAST_RESET && s.a.selected + 1 < s.a.core.numPayloads
  }

  /** The payload is the one it was, with what was delivered of it. */
  predicate SamePayload(s: State, s1: State) {
    && s1.a.selected == s.a.selected && s1.a.recvd == s.a.recvd && s1.a.payload == s.a.payload
    && s1.h.delivered == s.h.delivered && s1.h.completions == s.h.completions && s1.h.past == s.h.past
  }

  /** The next payload is selected, and the one before it is noted. */
  predicate NextPayload(s: State, s1: State) {
    && s1.a.selected == s.a.selected + 1 && s1.h.delivered == [] && s1.h.completions == 0
    && s1.h.past == WithDone(s)
  }

  lemma DataCompleteKeeps(c: Config, s: State, env: Env)
    ensures var s1 := PayloadDataComplete(c, s, env);
            if MovesOn(c, s, env) then NextPayload(s, s1) else SamePayload(s, s1)
  {
    hide SetPayloadIndex;
    if s.a.selected + 1 < s.a.core.numPayloads {
      IndexKeeps(c, CountedOne(s), s.a.selected + 1, env);
    }
  }

  /** What is left to do for the payload: bytes to deliver, then bytes of the window. */
  function Left(s: State): (int, int) {
    (s.a.payload.hdr.length - s.a.recvd, s.a.req.bytesRemaining)
  }

  /** The window that is being pulled. */
  function WindowOf(c: Config, s: State): seq<byte> {
    Slice(ImageOf(c, s.a), s.a.payload.hdr.offset + s.a.recvd, s.a.req.bytesRequested)
  }

  /** The outcome of a response with `n` bytes to the pull of payload bytes. */
  predicate Progress(c: Config, s: State, n: nat, s1: State)
    requires s.a.selected >= 0
  {
    var whole := PayloadOf(ImageOf(c, s.a), s.a.selected);
    if n < s.a.req.bytesRemaining then
      && SamePayload(s, s1)
      && Left(s1).0 == Left(s).0 && Left(s1).1 == Left(s).1 - n < Left(s).1
    else if s.a.recvd + s.a.req.bytesRequested < s.a.payload.hdr.length then
      && s1.a.selected == s.a.selected && s1.h.past == s.h.past
      && s1.h.delivered == s.h.delivered + WindowOf(c, s) && s1.h.completions == 0
      && Left(s1).0 == Left(s).0 - s.a.req.bytesRequested < Left(s).0
    else
      && s.h.delivered + WindowOf(c, s) == whole
      && ((s1.a.selected == s.a.selected && s1.h.past == s.h.past
           && s1.h.delivered == whole && s1.h.completions == 1 && Left(s1).0 == 0)
          || (s1.a.selected == s.a.selected + 1 && s1.h.past == s.h.past + [Done(s.a.selected, whole, 1)]
              && s1.h.delivered == [] && s1.h.completions == 0))
  }

  /**
   Every accepted response brings the payload forward: it shortens what is missing
   of the window; or it completes the window, whose bytes are then delivered; and the
   response that completes the payload leaves nothing of it, reports it complete,
   and possibly goes on to the next one.
   */
  lemma ResponseMakesProgress(c: Config, s: State, i: nat, bytes: seq<byte>, env: Env)
    requires c.Valid() && Live(c, s) && s.a.attached && s.h.pull.Pull? && s.h.pull.kind.PayloadDataKind?
    requires Honest(c, s, i, bytes) && Passes(s.a, s.h.log[i].offset, bytes)
    ensures s.a.selected >= 0
    ensures Progress(c, s, |bytes|, DataResponse(c, s, s.h.log[i].offset, bytes, env))
  {
    ResponseFits(c, s, i, bytes);
    ResponseBytes(c, s, i, bytes);
    hide *;
    PullSelected(c, s);
    if |bytes| < s.a.req.bytesRemaining {
      PartProgress(c, s, s.h.log[i].offset, bytes, env);
    } else {
      WindowProgress(c, s, bytes, env);
      CompletesIs(c, s, s.h.log[i].offset, bytes, env);
    }
  }

  lemma PullSelected(c: Config, s: State)
    requires Live(c, s) && s.h.pull.Pull? && s.h.pull.kind.PayloadDataKind?
    ensures s.a.selected >= 0
  {
    hide LogRight, Delivery, Tally, PastRight, Slice, SbHeaderOf, PayloadHeaderOf, Region, WindowLen, WindowBase,
      Healthy;
  }

  lemma PartProgress(c: Config, s: State, offset: u32, bytes: seq<byte>, env: Env)
    requires Live(c, s) && s.a.selected >= 0 && s.h.pull.Pull? && 0 < |bytes| < s.a.req.bytesRemaining
    requires Awaited(c, s.a, s.h.pull.kind, bytes) && Passes(s.a, offset, bytes)
    ensures Progress(c, s, |bytes|, DataResponse(c, s, offset, bytes, env))
  {
    LiveParts(c, s);
    AcceptFields(c, s.a, s.h.pull, s.f.busy, bytes);
    PullFields(c, s);
    hide Live, Base, Slice, PullRight, Awaited, Expected, Region, WindowLen, WindowBase, Accept, PayloadOf;
    ContinueKeeps(c, Received(s, bytes), env);
    hide Continue;
  }

  /** A response that completes its pull. */
  lemma CompletesIs(c: Config, s: State, offset: u32, bytes: seq<byte>, env: Env)
    requires Live(c, s) && s.h.pull.Pull? && 0 < |bytes| == s.a.req.bytesRemaining
    requires Awaited(c, s.a, s.h.pull.kind, bytes) && Passes(s.a, offset, bytes)
    ensures |bytes| < TWO_32 && DataResponse(c, s, offset, bytes, env) == PullComplete(c, Full(s, bytes), env)
  {
    LiveParts(c, s);
    AcceptFields(c, s.a, s.h.pull, s.f.busy, bytes);
    PullFields(c, s);
    hide Live, Base, Slice, PullRight, Awaited, Expected, Region, WindowLen, WindowBase, Accept, PullComplete;
  }

  /** The response completes a window, which is handed on. */
  lemma FullWindow(c: Config, s: State, bytes: seq<byte>, env: Env) returns (data: seq<byte>)
    requires Live(c, s) && Working(s) && s.h.pull.Pull? && s.h.pull.kind.PayloadDataKind?
    requires 0 < |bytes| == s.a.req.bytesRemaining && Awaited(c, s.a, s.h.pull.kind, bytes)
    ensures |bytes| < TWO_32 && |data| == s.a.req.bytesRequested && 0 < |data|
    ensures var s0 := Full(s, bytes);
            && Idle(c, s0) && Fed(c, s0) && IsWindow(c, s0, data)
            && PullComplete(c, s0, env) == WindowComplete(c, s0, data, env)
  {
    FullRight(c, s, bytes);
    PullFields(c, s);
    FullKeeps(s, bytes);
    var s0 := Full(s, bytes);
    data := s0.a.scratch[..s0.a.req.bytesResponded];
    hide *;
    WindowPulled(c, s0, data);
    PullCompleteIs(c, s0, env);
    RequestPositive(c, s);
  }

  lemma RequestPositive(c: Config, s: State)
    requires Live(c, s) && s.h.pull.Pull?
    ensures s.a.req.bytesRequested > 0
  {
    hide Base, Slice, Region, WindowLen, WindowBase, Expected;
  }

  lemma WindowProgress(c: Config, s: State, bytes: seq<byte>, env: Env)
    requires c.Valid() && Live(c, s) && Working(s) && s.a.selected >= 0
    requires s.h.pull.Pull? && s.h.pull.kind.PayloadDataKind?
    requires 0 < |bytes| == s.a.req.bytesRemaining && Awaited(c, s.a, s.h.pull.kind, bytes)
    ensures |bytes| < TWO_32 && Progress(c, s, |bytes|, PullComplete(c, Full(s, bytes), env))
  {
    hide *;
    var data := FullWindow(c, s, bytes, env);
    var s0 := Full(s, bytes);
    FullKeeps(s, bytes);
    WindowIs(c, s0, data);
    WindowOutcome(c, s0, data, env);
    SameProgress(c, s, s0, |bytes|, WindowComplete(c, s0, data, env));
  }

  /** The progress is that from the state with the full window. */
  lemma SameProgress(c: Config, s: State, s0: State, n: nat, s1: State)
    requires s.a.selected >= 0 && SamePayload(s, s0) && s0.a.core == s.a.core
    requires s0.a.req.bytesRequested == s.a.req.bytesRequested && n == s.a.req.bytesRemaining
    requires WindowDone(c, s0, s1)
    ensures Progress(c, s, n, s1)
  {
    hide PayloadOf, Slice;
  }

  lemma FullKeeps(s: State, bytes: seq<byte>)
    requires |bytes| < TWO_32
    ensures var s0 := Full(s, bytes);
            && SamePayload(s, s0) && s0.a.core == s.a.core && s0.a.selected == s.a.selected
            && s0.a.req.bytesRequested == s.a.req.bytesRequested && s0.a.req.kind == s.a.req.kind
  {
  }

  lemma WindowIs(c: Config, s: State, data: seq<byte>)
    requires IsWindow(c, s, data) && |data| == s.a.req.bytesRequested
    ensures data == WindowOf(c, s)
  {
    hide Slice, Expected, WindowLen;
  }

  lemma AdvancedKeeps(s: State, data: seq<byte>, env: Env)
    requires |data| < TWO_32
    ensures var s1 := Advanced(s, data, env);
            && s1.h.delivered == s.h.delivered + data && s1.a.selected == s.a.selected && s1.a.payload == s.a.payload
            && s1.h.past == s.h.past && s1.a.core == s.a.core
  {
  }

  lemma NextWindowKeeps(c: Config, s: State, env: Env)
    ensures SamePayload(s, PayloadRequestData(c, s, env).0)
  {
    var left := Diff32(s.a.payload.hdr.length, s.a.recvd);
    RequestKeeps(c, s, PayloadDataKind, s.a.recvd, Min(left, c.window), env);
    hide RequestData;
  }

  /** The outcome of a full window: its bytes are delivered, and at its end the payload is complete. */
  predicate WindowDone(c: Config, s: State, s1: State)
    requires s.a.selected >= 0
  {
    var whole := PayloadOf(ImageOf(c, s.a), s.a.selected);
    if s.a.recvd + s.a.req.bytesRequested < s.a.payload.hdr.length then
      && s1.a.selected == s.a.selected && s1.h.past == s.h.past
      && s1.h.delivered == s.h.delivered + WindowOf(c, s) && s1.h.completions == 0
      && s1.a.payload == s.a.payload && s1.a.recvd == s.a.recvd + s.a.req.bytesRequested && s.a.req.bytesRequested > 0
    else
      && s.h.delivered + WindowOf(c, s) == whole
      && ((s1.a.selected == s.a.selected && s1.h.past == s.h.past
           && s1.h.delivered == whole && s1.h.completions == 1 && s1.a.recvd == s1.a.payload.hdr.length)
          || (s1.a.selected == s.a.selected + 1 && s1.h.past == s.h.past + [Done(s.a.selected, whole, 1)]
              && s1.h.delivered == [] && s1.h.completions == 0))
  }

  lemma WindowOutcome(c: Config, s: State, data: seq<byte>, env: Env)
    requires c.Valid() && |data| < TWO_32 && Idle(c, s) && Fed(c, s) && IsWindow(c, s, data) && s.a.selected >= 0
    requires |data| == s.a.req.bytesRequested > 0 && data == WindowOf(c, s)
    ensures WindowDone(c, s, WindowComplete(c, s, data, env))
  {
    hide *;
    AdvancedRight(c, s, data, env);
    WindowCompleteIs(c, s, data, env);
    var s1 := Advanced(s, data, env);
    AdvancedKeeps(s, data, env);
    if s1.a.recvd == s.a.payload.hdr.length {
      DataCompleteKeeps(c, s1, env);
      WholeDelivered(c, s1);
      ImageKept(c, s, s1);
      CompletedDone(c, s, s1, PayloadDataComplete(c, s1, env), env);
    } else {
      NextWindowKeeps(c, s1, env);
      NotComplete(c, s1);
      OpenDone(c, s, s1, PayloadRequestData(c, s1, env).0);
    }
  }

  lemma ImageKept(c: Config, s: State, s1: State)
    requires s1.a.core == s.a.core
    ensures ImageOf(c, s1.a) == ImageOf(c, s.a)
  {
  }

  lemma OpenDone(c: Config, s: State, s1: State, s2: State)
    requires s.a.selected >= 0 && s1.a.selected == s.a.selected && s1.h.past == s.h.past
    requires s1.h.delivered == s.h.delivered + WindowOf(c, s) && s1.h.completions == 0
    requires s1.a.payload == s.a.payload && s1.a.recvd == s.a.recvd + s.a.req.bytesRequested
             && s.a.req.bytesRequested > 0
    requires s1.a.recvd < s.a.payload.hdr.length && SamePayload(s1, s2)
    ensures WindowDone(c, s, s2)
  {
    hide PayloadOf, WindowOf;
  }

  lemma CompletedDone(c: Config, s: State, s1: State, s2: State, env: Env)
    requires s.a.selected >= 0 && s1.a.selected == s.a.selected && s1.h.past == s.h.past
    requires s1.h.delivered == s.h.delivered + WindowOf(c, s) == PayloadOf(ImageOf(c, s.a), s.a.selected)
    requires s1.h.completions == 1 && s1.a.payload == s.a.payload
    requires s1.a.recvd == s.a.recvd + s.a.req.bytesRequested == s.a.payload.hdr.length
    requires if MovesOn(c, s1, env) then NextPayload(s1, s2) else SamePayload(s1, s2)
    ensures WindowDone(c, s, s2)
  {
    hide PayloadOf, WindowOf, MovesOn;
  }

  /** All bytes of a complete payload were delivered. */
  lemma WholeDelivered(c: Config, s: State)
    requires Idle(c, s) && Complete(c, s)
    ensures s.h.completions == 1 && s.a.selected >= 0 && s.h.delivered == PayloadOf(ImageOf(c, s.a), s.a.selected)
  {
    hide LogRight, Tally, PastRight, PayloadHeaderOf, SbHeaderOf, Slice;
  }

  lemma NotComplete(c: Config, s: State)
    requires Idle(c, s) && Expected(c, s.a, PayloadDataKind)
    ensures s.h.completions == 0 && s.a.recvd < s.a.payload.hdr.length
  {
    hide LogRight, Tally, PastRight, PayloadHeaderOf, SbHeaderOf, Slice;
  }

  // ----- Resume --------------------------------------------------------------------

  /**
   An asset orphaned while its payload was pulled is merged with an equal offer:
   nothing is delivered again, and the interrupted window is requested from its
   first byte, at `recvd`.
   */
  lemma ResumesAtRecvd(c: Config, s: State, env: Env)
    requires c.Valid() && Live(c, s) && s.f.state.Orphaned? && s.h.pull.Pull? && s.h.pull.kind.PayloadDataKind?
    requires s.connected && s.allowed && env.txOk
    ensures var s1 := Step(c, s, Offer(s.a.core, true, env));
            && s1.f.state.Active?
            && s1.h.delivered == s.h.delivered && s1.a.recvd == s.a.recvd && s1.a.selected == s.a.selected
            && s1.f.hashed == s.f.hashed
            && |s1.h.log| == |s.h.log| + 1
            && s1.h.log[|s.h.log|].at == s.a.recvd
            && s1.a.req.bytesResponded == 0 && s1.a.req.bytesRequested == WindowLen(c, s.a, PayloadDataKind)
  {
    MergedRight(c, s);
    var s1 := Merged(s);
    MergedCases(c, s1);
    WindowValid(c, s1.a);
    var n := WindowLen(c, s.a, PayloadDataKind);
    RequestDataIs(c, s1, PayloadDataKind, s.a.recvd, n, env);
    hide Base, Live, PullRight, Interrupted, Healthy, RequestData, Validated, Slice, Region;
    assert Step(c, s, Offer(s.a.core, true, env)) == RequestData(c, s1, PayloadDataKind, s.a.recvd, n, env).0;
  }

  /**
   Without its payload header an orphaned asset is not resumed right: the merge
   goes on to pull payload bytes, in the region that the header before it named.
   */
  lemma OrphanedHeaderPull(c: Config, s: State, env: Env)
    requires c.Valid() && s.f.state.Orphaned? && s.a.hasHeader && !s.a.ShouldRequestMetadata()
    requires s.a.selected >= 0 && !s.a.hasPayloadHeader && !s.a.payload.needsMetadata && s.a.recvd == 0
    requires s.connected && s.allowed && env.txOk && s.a.payload.hdr.length > 0
    ensures var s1 := Step(c, s, Offer(s.a.core, true, env));
            && s1.f.state.Active? && !s1.a.hasPayloadHeader
            && s1.h.pull == Pull(PayloadDataKind, s.a.selected)
            && |s1.h.log| == |s.h.log| + 1
            && s1.h.log[|s.h.log|].offset == s.a.payload.hdr.offset
  {
    var s1 := Merged(s);
    var n := WindowLen(c, s.a, PayloadDataKind);
    RequestDataIs(c, s1, PayloadDataKind, 0, n, env);
    assert n <= c.window && Validated(s1.a, PayloadDataKind, 0, n);
    hide RequestData, Validated;
    assert Step(c, s, Offer(s.a.core, true, env)) == RequestData(c, s1, PayloadDataKind, 0, n, env).0;
  }

  // ----- Staged means verified -------------------------------------------------------

  /**
   STAGED and APPLIED are reached only with at least one counted payload; and of
   each counted payload exactly its bytes in the image went to the writer, and
   they have the hash that its metadata names. No payload is counted twice.
   */
  lemma StagedMeansVerified(c: Config, events: seq<Event>)
    requires c.Valid() && FairRun(c, events)
    requires Run(c, events).f.state.Staged? || Run(c, events).f.state.Applied?
    ensures var s := Run(c, events);
            var image := c.images(s.a.core);
            && 0 < s.f.staged == |s.h.verified|
            && (forall i :: 0 <= i < |s.h.verified| ==>
                  && s.h.verified[i].index >= 0
                  && s.h.verified[i].written == PayloadOf(image, s.h.verified[i].index)
                  && c.hash(s.h.verified[i].written) == HashOf(image, s.h.verified[i].index))
            && (forall i, j :: 0 <= i < j < |s.h.verified| ==> s.h.verified[i].index < s.h.verified[j].index)
  {
    RunKeepsInv(c, events);
    hide Run, Headers, LogRight, Delivery, PullRight, PayloadOf, HashOf, FlagsOf;
    var s := Run(c, events);
    forall i | 0 <= i < |s.h.verified| ensures VerifiedRight(c, ImageOf(c, s.a), s.h.verified[i]) {
    }
  }

  // ----- Failed assets ---------------------------------------------------------------

  predicate HeaderPull(pull: Pull) {
    pull.Pull? && pull.kind.PayloadHeaderKind?
  }

  /** A failed asset that awaits no header, or has no payload counted. */
  predicate Doomed(s: State) {
    s.f.state.Failed? && (HeaderPull(s.h.pull) ==> s.f.staged == 0)
  }

  lemma IndexStaysFailed(c: Config, s: State, index: u16, env: Env)
    requires s.f.state.Failed?
    ensures OrFailure(SetPayloadIndex(c, s, index, env)).f == s.f
  {
    hide SetPayloadIndex;
    IndexKeeps(c, s, index, env);
  }

  lemma MetadataStaysFailed(c: Config, s: State, env: Env)
    requires s.f.state.Failed?
    ensures var s1 := AssetMetadataComplete(c, s, env); s1.f.state.Failed? && s1.f.staged == 0
  {
    hide SetPayloadIndex, OrFailure;
    IndexStaysFailed(c, s.(f := s.f.(staged := 0), h := s.h.(verified := [])), 0, env);
  }

  lemma ReadyStaysFailed(c: Config, s: State, env: Env)
    requires s.f.state.Failed? && s.h.pull == NoPull
    ensures var s1 := AssetReady(c, s, env);
            Doomed(s1)
  {
    hide RequestData, AssetMetadataComplete;
    if s.a.sb.metadataLength > 0 {
      RequestKeeps(c, s, SbMetadataKind, 0, s.a.sb.metadataLength, env);
    } else {
      MetadataStaysFailed(c, s, env);
    }
  }

  /** A header response for the last payload, not wanted, after another was counted. */
  predicate LastIsSkipped(c: Config, s: State, env: Env) {
    && !c.wanted(s.a.payload.hdr)
    && s.a.selected + 1 >= s.a.core.numPayloads
    && s.f.staged > 0 && env.notifyOk
  }

  lemma PayloadReadyStaysFailed(c: Config, s: State, env: Env)
    requires s.f.state.Failed? && s.h.pull == NoPull
    ensures var s1 := PayloadReady(c, s, env);
            && s1.f.state == (if LastIsSkipped(c, s, env) then Staged else Failed)
            && (s1.f.state.Failed? ==> s1.f.staged == s.f.staged)
  {
    hide RequestData, SetPayloadIndex;
    if c.wanted(s.a.payload.hdr) {
      var s1 := s.(f := s.f.(applyFlags := APPLY_FLAGS_NEEDS_RESTART, hashed := [], payloadHash := NoHash()));
      RequestKeeps(c, s1, PayloadMetadataKind, 0, s.a.payload.hdr.metadataLength, env);
    } else if s.a.selected + 1 < s.a.core.numPayloads {
      IndexStaysFailed(c, s, s.a.selected + 1, env);
    }
  }

  /** Completed pulls of a failed asset other than a payload header. */
  lemma WindowStaysFailed(c: Config, s: State, data: seq<byte>, env: Env)
    requires s.f.state.Failed? && s.h.pull == NoPull && |data| < TWO_32
    ensures var s1 := WindowComplete(c, s, data, env);
            Doomed(s1)
  {
    var s1 := Advanced(s, data, env);
    WindowCompleteIs(c, s, data, env);
    assert s1.f.state.Failed? && s1.h.pull == NoPull;
    hide WindowComplete, RequestData, Advanced;
    var left := Diff32(s1.a.payload.hdr.length, s1.a.recvd);
    RequestKeeps(c, s1, PayloadDataKind, s1.a.recvd, Min(left, c.window), env);
  }

  /** The header that a completed pull leaves in the scratch buffer is within the asset. */
  predicate HeaderAccepted(a: Asset, hdr: PayloadHeader) {
    && Sum32(hdr.metadataOffset, hdr.metadataLength) <= a.core.totalLength
    && Sum32(hdr.offset, hdr.length) <= a.core.totalLength
  }

  /** The late header: what a failed asset must receive to be reported as staged. */
  predicate LateHeader(c: Config, s: State, env: Env) {
    && s.a.req.kind.PayloadHeaderKind?
    && s.a.req.bytesResponded == PAYLOAD_HEADER_LEN <= |s.a.scratch|
    && var hdr := ParsePayloadHeader(s.a.scratch[..PAYLOAD_HEADER_LEN]);
    && HeaderAccepted(s.a, hdr) && LastIsSkipped(c, s.(a := s.a.(payload := s.a.payload.(hdr := hdr))), env)
  }

  /** What a completed pull does to a failed asset. */
  predicate FailedOutcome(c: Config, s: State, env: Env, s1: State) {
    && (s1.f.state.Staged? <==> LateHeader(c, s, env))
    && ((s.a.req.kind.PayloadHeaderKind? ==> s.f.staged == 0) && HasAsset(s1) ==> Doomed(s1))
  }

  lemma SbHeaderFailed(c: Config, s: State, data: seq<byte>, env: Env)
    requires s.f.state.Failed? && s.h.pull == NoPull && s.a.req.kind.SbHeaderKind? && |data| == SB_HEADER_LEN
    ensures FailedOutcome(c, s, env, SbHeaderComplete(c, s, data, env))
  {
    hide ParseSbHeader, AssetReady;
    ReadyStaysFailed(c, WithHeader(s, ParseSbHeader(data)), env);
  }

  lemma PayloadHeaderFailed(c: Config, s: State, data: seq<byte>, env: Env)
    requires s.f.state.Failed? && s.h.pull == NoPull && s.a.req.kind.PayloadHeaderKind?
    requires s.a.req.bytesResponded == |data| == PAYLOAD_HEADER_LEN <= |s.a.scratch| && data == s.a.scratch[..|data|]
    ensures FailedOutcome(c, s, env, PayloadHeaderComplete(c, s, data, env))
  {
    hide ParsePayloadHeader, PayloadReady;
    PayloadReadyStaysFailed(c, WithPayloadHeader(s, ParsePayloadHeader(data)), env);
  }

  /** Metadata and payload bytes do not take a failed asset out of its state. */
  lemma OtherPullFailed(c: Config, s: State, data: seq<byte>, env: Env)
    requires s.f.state.Failed? && s.h.pull == NoPull && |data| < TWO_32
    ensures s.a.req.kind.SbMetadataKind? ==> FailedOutcome(c, s, env, SbMetadataComplete(c, s, data, env))
    ensures s.a.req.kind.PayloadMetadataKind? ==> FailedOutcome(c, s, env, PayloadMetadataPullComplete(c, s, data, env))
    ensures s.a.req.kind.PayloadDataKind? ==> FailedOutcome(c, s, env, WindowComplete(c, s, data, env))
  {
    hide ParseTlvs, AssetMetadataComplete, WindowComplete, ReadTlvs;
    MetadataStaysFailed(c, s.(a := s.a.(hasMetadata := true)), env);
    TlvsStayFailed(s, ParseTlvs(data).tlvs);
    WindowStaysFailed(c, s, data, env);
  }

  lemma PullCompleteFailed(c: Config, s: State, env: Env)
    requires s.f.state.Failed? && s.h.pull == NoPull
    ensures FailedOutcome(c, s, env, PullComplete(c, s, env))
  {
    var n := s.a.req.bytesResponded;
    if n <= |s.a.scratch| && (s.a.req.kind.SbHeaderKind? ==> n == SB_HEADER_LEN)
       && (s.a.req.kind.PayloadHeaderKind? ==> n == PAYLOAD_HEADER_LEN) {
      var data := s.a.scratch[..n];
      PullCompleteIs(c, s, env);
      hide *;
      match s.a.req.kind
      case SbHeaderKind => SbHeaderFailed(c, s, data, env);
      case PayloadHeaderKind => PayloadHeaderFailed(c, s, data, env);
      case _ => OtherPullFailed(c, s, data, env);
    } else {
      hide SbHeaderComplete, SbMetadataComplete, PayloadHeaderComplete, PayloadMetadataPullComplete, WindowComplete,
        ParsePayloadHeader;
    }
  }

  lemma TlvsStayFailed(s: State, tlvs: seq<Tlv>)
    requires s.f.state.Failed?
    ensures var s1 := WithPayloadMetadata(s, tlvs);
            s1.f.state.Failed? && s1.h == s.h && s1.f.staged == s.f.staged
  {
  }

  /** The response completes the pull in progress. */
  predicate Completes(s: State, offset: u32, bytes: seq<byte>) {
    Passes(s.a, offset, bytes) && Accept(s.a, bytes).req.bytesResponded == s.a.req.bytesRequested
  }

  lemma ResponseFailed(c: Config, s: State, offset: u32, bytes: seq<byte>, env: Env)
    requires s.f.state.Failed?
    ensures var s1 := DataResponse(c, s, offset, bytes, env);
            && (s1.f.state.Staged? <==> Completes(s, offset, bytes) && LateHeader(c, Full(s, bytes), env))
            && (Doomed(s) && HasAsset(s1) && (s.a.req.kind.PayloadHeaderKind? ==> s.f.staged == 0) ==> Doomed(s1))
  {
    hide PullComplete, LateHeader;
    if Completes(s, offset, bytes) {
      PullCompleteFailed(c, Full(s, bytes), env);
    }
  }

  /**
   A FAILED asset becomes STAGED by one event only: the response that completes the
   pull of a payload header, if that is the last payload, it is not wanted, and
   another one was counted. The code does not look at its state there.
   */
  lemma FailedToStaged(c: Config, s: State, e: Event)
    requires s.f.state.Failed?
    ensures Step(c, s, e).f.state.Staged? <==>
              && e.Response? && s.connected && s.a.attached && e.i < |s.h.log|
              && Completes(s, s.h.log[e.i].offset, e.bytes)
              && LateHeader(c, Full(s, e.bytes), e.env)
  {
    hide LateHeader, Completes, DataResponse, Continue;
    match e
    case Response(i, bytes, env) =>
      if s.connected && s.a.attached && i < |s.h.log| {
        ResponseFailed(c, s, s.h.log[i].offset, bytes, env);
      }
    case Resume(env) => ContinueKeeps(c, s.(allowed := true), env);
    case _ =>
  }

  /** A payload was just completed with the right hash, and another one follows. */
  predicate Countable(c: Config, s: State, env: Env) {
    && Idle(c, s) && Fed(c, s) && Complete(c, s) && s.f.state.Active? && s.allowed
    && c.hash(s.f.hashed) == s.f.payloadHash && s.f.applyFlags != APPLY_FLAGS_FAST_RESET
    && s.a.selected + 1 < s.a.core.numPayloads
    && (s.a.selected + 2) * PAYLOAD_HEADER_LEN <= s.a.sb.payloadHeadersLength
    && env.finishOk
  }

  /** The state in which the header of the next payload is about to be requested. */
  function NextHeader(s: State): State
    requires s.a.selected < TWO_16 - 1
  {
    var index := s.a.selected + 1;
    Begin(Selected(CountedOne(s), index), PayloadHeaderKind, index * PAYLOAD_HEADER_LEN, PAYLOAD_HEADER_LEN)
  }

  /** If the request for the next header cannot be sent the asset fails, but its pull stays pending. */
  lemma CountedThenFailed(c: Config, s: State, env: Env)
    requires c.Valid() && Countable(c, s, env) && !env.txOk
    ensures PayloadDataComplete(c, s, env) == InState(NextHeader(s), Failed)
  {
    hide Idle, Fed, Complete;
    var s1 := CountedOne(s);
    var index := s.a.selected + 1;
    NotSendable(c, s, env);
    SetPayloadIndexIs(c, s1, index, env);
    hide RequestData, SetPayloadIndex, Begin, Selected;
    SetNextIndexIs(c, s1, env);
    hide SetNextIndex;
  }

  /** A header request that passes its checks and cannot be sent. */
  lemma NotSendable(c: Config, s: State, env: Env)
    requires c.Valid() && Countable(c, s, env) && !env.txOk
    ensures var index := s.a.selected + 1;
            RequestData(c, Selected(CountedOne(s), index), PayloadHeaderKind, index * PAYLOAD_HEADER_LEN,
                        PAYLOAD_HEADER_LEN, env) ==
            (NextHeader(s), false)
  {
    assert Quiet(s);
    hide Idle, Fed, Complete;
    var index := s.a.selected + 1;
    var s2 := Selected(CountedOne(s), index);
    assert Validated(s2.a, PayloadHeaderKind, index * PAYLOAD_HEADER_LEN, PAYLOAD_HEADER_LEN);
    RequestDataIs(c, s2, PayloadHeaderKind, index * PAYLOAD_HEADER_LEN, PAYLOAD_HEADER_LEN, env);
    hide RequestData, Validated, Region;
  }

  /**
   How a FAILED asset comes to be STAGED: after a payload was counted the request for
   the next header cannot be sent, and the asset fails; a pause and a resume send the
   request after all, and its answer finds no further payload that is wanted.
   */
  lemma FailedThenStaged(c: Config, s: State, env: Env, later: Env, bytes: seq<byte>)
    requires c.Valid() && Countable(c, s, env) && !env.txOk && later.txOk && later.notifyOk
    requires s.connected && c.maxRx >= PAYLOAD_HEADER_LEN && s.a.selected + 2 == s.a.core.numPayloads
    requires |bytes| == PAYLOAD_HEADER_LEN && !c.wanted(ParsePayloadHeader(bytes))
    requires HeaderAccepted(s.a, ParsePayloadHeader(bytes))
    ensures var failed := PayloadDataComplete(c, s, env);
            var resumed := Step(c, Step(c, failed, Pause), Resume(later));
            && failed.f.state.Failed?
            && Step(c, resumed, Response(|s.h.log|, bytes, later)).f.state.Staged?
  {
    CountedThenFailed(c, s, env);
    ScratchLen(c, s);
    hide Idle, Fed, Complete, PayloadDataComplete, Config.Valid, ParsePayloadHeader, Step;
    var failed := InState(NextHeader(s), Failed);
    var resumed := Sent(failed, PAYLOAD_HEADER_LEN);
    PausedAndResumed(c, failed, later);
    HeaderArrives(c, resumed, |s.h.log|, bytes, later);
  }

  lemma ScratchLen(c: Config, s: State)
    requires Idle(c, s)
    ensures |s.a.scratch| == c.window && s.a.attached
  {
    hide LogRight, Delivery, Tally, PastRight, SbHeaderOf, PayloadHeaderOf;
  }

  /** A pending header is requested when the controller resumes the transfer. */
  lemma PausedAndResumed(c: Config, s: State, env: Env)
    requires s.connected && s.allowed && HasAsset(s) && s.a.attached && env.txOk && c.maxRx >= PAYLOAD_HEADER_LEN
    requires s.a.req.bytesRemaining == PAYLOAD_HEADER_LEN
    ensures Step(c, Step(c, s, Pause), Resume(env)) == Sent(s, PAYLOAD_HEADER_LEN)
  {
  }

  /** The whole header in one response. */
  lemma HeaderArrives(c: Config, s: State, i: nat, bytes: seq<byte>, env: Env)
    requires s.f.state.Failed? && s.connected && s.a.attached
    requires i < |s.h.log| && s.h.log[i].offset == s.a.req.currentOffset
    requires s.a.req.kind.PayloadHeaderKind? && s.a.req.bytesResponded == 0
    requires s.a.req.bytesRequested == PAYLOAD_HEADER_LEN <= |s.a.scratch|
    requires |bytes| == PAYLOAD_HEADER_LEN && HeaderAccepted(s.a, ParsePayloadHeader(bytes))
    requires LastIsSkipped(c, s.(a := s.a.(payload := s.a.payload.(hdr := ParsePayloadHeader(bytes)))), env)
    ensures Step(c, s, Response(i, bytes, env)).f.state.Staged?
  {
    var e := Response(i, bytes, env);
    HeaderFull(s, bytes);
    FailedToStaged(c, s, e);
    LateHeaderHolds(c, s, Full(s, bytes), bytes, env);
    hide *;
  }

  lemma LateHeaderHolds(c: Config, s: State, s1: State, bytes: seq<byte>, env: Env)
    requires s1.a == s.a.(req := s1.a.req, scratch := s1.a.scratch) && s1.f == s.f
    requires s1.a.req.kind.PayloadHeaderKind? && s1.a.req.bytesResponded == PAYLOAD_HEADER_LEN <= |s1.a.scratch|
    requires |bytes| == PAYLOAD_HEADER_LEN && s1.a.scratch[..PAYLOAD_HEADER_LEN] == bytes
    requires HeaderAccepted(s.a, ParsePayloadHeader(bytes))
    requires LastIsSkipped(c, s.(a := s.a.(payload := s.a.payload.(hdr := ParsePayloadHeader(bytes)))), env)
    ensures LateHeader(c, s1, env)
  {
    hide ParsePayloadHeader, Sum32;
  }

  lemma HeaderFull(s: State, bytes: seq<byte>)
    requires s.a.req.bytesResponded == 0 && s.a.req.bytesRequested == PAYLOAD_HEADER_LEN <= |s.a.scratch|
    requires |bytes| == PAYLOAD_HEADER_LEN
    ensures var s1 := Full(s, bytes);
            && Completes(s, s.a.req.currentOffset, bytes)
            && s1.a == s.a.(req := s1.a.req, scratch := s1.a.scratch) && s1.f == s.f
            && s1.a.req.kind == s.a.req.kind && s1.a.req.bytesResponded == PAYLOAD_HEADER_LEN <= |s1.a.scratch|
            && s1.a.scratch[..PAYLOAD_HEADER_LEN] == bytes
  {
    ScratchFront(s.a.scratch, 0, bytes);
    assert s.a.scratch[..0] + bytes == bytes;
    hide Overwrite;
  }

  lemma StepStaysDoomed(c: Config, s: State, e: Event)
    requires Inv(c, s) && Fair(c, s, e) && Doomed(s)
    ensures Doomed(Step(c, s, e)) || !HasAsset(Step(c, s, e))
  {
    match e
    case Response(i, bytes, env) =>
      if s.connected && s.a.attached && i < |s.h.log| {
        if Passes(s.a, s.h.log[i].offset, bytes) {
          ResponseFits(c, s, i, bytes);
          PullFields(c, s);
        }
        hide Inv, DataResponse, Honest;
        ResponseFailed(c, s, s.h.log[i].offset, bytes, env);
        PassesOrNot(c, s, s.h.log[i].offset, bytes, env);
      }
    case Resume(env) =>
      hide Inv, Continue;
      ContinueKeeps(c, s.(allowed := true), env);
    case _ =>
      hide Inv;
  }

  lemma PassesOrNot(c: Config, s: State, offset: u32, bytes: seq<byte>, env: Env)
    ensures Passes(s.a, offset, bytes) || DataResponse(c, s, offset, bytes, env) == s
  {
  }

  /** A doomed asset is never reported as staged: it stays failed until it is removed. */
  lemma {:induction false} FailedUntilRemoved(c: Config, events: seq<Event>, n: nat)
    requires c.Valid() && FairRun(c, events) && n <= |events|
    requires Doomed(Run(c, events[..n]))
    requires forall k :: n <= k <= |events| ==> HasAsset(Run(c, events[..k]))
    ensures Doomed(Run(c, events))
  {
    assert events[..|events|] == events;
    if n < |events| {
      var past := events[..|events| - 1];
      hide Inv, Fair, Step, Config.Valid, Doomed, HasAsset, FairRun;
      FairPrefix(c, events);
      assert past[..n] == events[..n];
      forall k | n <= k <= |past| ensures HasAsset(Run(c, past[..k])) {
        assert past[..k] == events[..k];
      }
      FailedUntilRemoved(c, past, n);
      RunKeepsInv(c, past);
      StepStaysDoomed(c, Run(c, past), events[|events| - 1]);
    }
  }
}
