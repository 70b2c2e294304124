/** Every callback of the transfer keeps the invariant. */
module UarpSteps {
  import opened Bytes
  import opened UarpImage
  import opened Uarp
  import opened UarpInvariant

  /** An active asset has fed exactly the delivered bytes to hash and writer. */
  predicate Fed(c: Config, s: State) {
    s.f.state.Active? ==>
      && s.f.hashed == s.h.delivered == s.h.written
      && s.a.selected >= 0
      && s.f.payloadHash == HashOf(ImageOf(c, s.a), s.a.selected)
      && s.f.applyFlags == FlagsOf(ImageOf(c, s.a), s.a.selected)
  }

  /** A request made by a callback; its failure fails an active asset. */
  lemma AfterRequest(c: Config, s: State, kind: Kind, s1: State, ok: bool)
    requires Requested(c, s, kind, s1, ok) && Working(s)
    requires ok && s.f.state.Active? ==> Healthy(c, s1)
    ensures Live(c, OrFailure((s1, ok)))
  {
    hide Base, PullRight, Healthy;
    if !ok {
      BaseFrame(c, s1, OrFailure((s1, ok)));
    }
  }

  /** A failure between two pulls. */
  lemma FailedRight(c: Config, s: State)
    requires Idle(c, s)
    ensures Live(c, ReportFailure(s))
  {
    hide Base;
    BaseFrame(c, s, ReportFailure(s));
  }

  /** A failed asset keeps nothing but its place. */
  lemma StaysFailed(c: Config, s: State)
    requires Idle(c, s) && !s.f.state.Active?
    ensures Live(c, s)
  {
    hide Base;
  }

  // ----- The next payload ----------------------------------------------------------

  /** The asset with another payload selected, before its header is requested. */
  function Selected(s: State, index: u16): State {
    s.(a := s.a.(recvd := 0, selected := index, hasPayloadHeader := false,
                 payload := s.a.payload.(needsMetadata := false, hasMetadata := false)),
       h := s.h.(delivered := [], completions := 0, past := WithDone(s)))
  }

  /** Another payload may follow: all of the selected one was delivered, or it is not wanted. */
  predicate Over(c: Config, s: State) {
    s.a.selected >= 0 ==>
        DoneRight(c, ImageOf(c, s.a), Done(s.a.selected, s.h.delivered, s.h.completions), s.a.selected)
  }

  lemma DoneAppended(c: Config, s: State)
    requires s.a.selected < TWO_16 - 1 && PastRight(c, ImageOf(c, s.a), s.h.past, s.a.selected) && Over(c, s)
    ensures PastRight(c, ImageOf(c, s.a), WithDone(s), s.a.selected + 1)
  {
    hide DoneRight;
  }

  lemma SelectedRight(c: Config, s: State, index: u16)
    requires Base(c, s) && s.a.hasHeader && !s.a.ShouldRequestMetadata() && index == s.a.selected + 1
    requires index < s.a.core.numPayloads && Over(c, s)
    requires s.a.selected == -1 ==> s.f.staged == 0 && s.h.verified == []
    ensures Base(c, Selected(s, index))
  {
    DoneAppended(c, s);
    hide SbHeaderOf, PayloadHeaderOf, PayloadOf, HashOf, FlagsOf, StartOf, BoundsOf, Slice, VerifiedRight, PastRight,
      Over, WithDone;
    var s1 := Selected(s, index);
    assert s.h.completions <= 1;
    forall i | 0 <= i < |s1.h.log| ensures EntryRight(c, s1.a, s1.h.log[i]) {
      assert EntryRight(c, s.a, s.h.log[i]);
    }
  }

  lemma SetPayloadIndexRight(c: Config, s: State, index: u16, env: Env)
    requires c.Valid() && Idle(c, s)
    requires s.a.hasHeader && !s.a.ShouldRequestMetadata() && index == s.a.selected + 1 && Over(c, s)
    requires s.a.selected == -1 ==> s.f.staged == 0 && s.h.verified == []
    ensures Live(c, OrFailure(SetPayloadIndex(c, s, index, env)))
  {
    hide Base, RequestData, Config.Valid, Over, WithDone;
    if index >= s.a.core.numPayloads {
      FailedRight(c, s);
    } else {
      SelectedRight(c, s, index);
      var s0 := Selected(s, index);
      RequestDataRight(c, s0, PayloadHeaderKind, index * PAYLOAD_HEADER_LEN, PAYLOAD_HEADER_LEN, env);
      var (s1, ok) := RequestData(c, s0, PayloadHeaderKind, index * PAYLOAD_HEADER_LEN, PAYLOAD_HEADER_LEN, env);
      hide PullRight;
      AfterRequest(c, s0, PayloadHeaderKind, s1, ok);
    }
  }

  lemma AssetMetadataCompleteRight(c: Config, s: State, env: Env)
    requires c.Valid() && Idle(c, s)
    requires s.a.hasHeader && !s.a.ShouldRequestMetadata() && s.a.selected == -1
    ensures Live(c, AssetMetadataComplete(c, s, env))
  {
    var s1 := s.(f := s.f.(staged := 0), h := s.h.(verified := []));
    assert Base(c, s1);
    hide Base, SetPayloadIndex, Live;
    SetPayloadIndexRight(c, s1, 0, env);
  }

  lemma HeaderHeld(c: Config, s: State)
    requires Idle(c, s) && s.a.selected >= 0
    ensures s.a.hasHeader && !s.a.ShouldRequestMetadata()
  {
    hide LogRight, Delivery, Tally, PastRight, SbHeaderOf, PayloadHeaderOf;
  }

  lemma SetNextIndexIs(c: Config, s: State, env: Env)
    requires s.a.selected < TWO_16 - 1
    ensures SetNextIndex(c, s, env) == OrFailure(SetPayloadIndex(c, s, s.a.selected + 1, env))
  {
    hide SetPayloadIndex, OrFailure;
  }

  lemma SetPayloadIndexIs(c: Config, s: State, index: nat, env: Env)
    requires index < s.a.core.numPayloads
    ensures SetPayloadIndex(c, s, index, env) ==
            RequestData(c, Selected(s, index), PayloadHeaderKind, index * PAYLOAD_HEADER_LEN, PAYLOAD_HEADER_LEN, env)
  {
    hide RequestData;
  }

  lemma SetNextIndexRight(c: Config, s: State, env: Env)
    requires c.Valid() && Idle(c, s)
    requires 0 <= s.a.selected < TWO_16 - 1 && Over(c, s)
    ensures Live(c, SetNextIndex(c, s, env))
  {
    hide *;
    SetNextIndexIs(c, s, env);
    HeaderHeld(c, s);
    SetPayloadIndexRight(c, s, s.a.selected + 1, env);
  }

  lemma AssetReadyRight(c: Config, s: State, env: Env)
    requires c.Valid() && Idle(c, s)
    requires s.a.hasHeader && !s.a.hasMetadata && s.a.selected == -1
    ensures Live(c, AssetReady(c, s, env))
  {
    if s.a.sb.metadataLength > 0 {
      assert s.a.needsMetadata;
      hide Base, RequestData, Config.Valid;
      RequestDataRight(c, s, SbMetadataKind, 0, s.a.sb.metadataLength, env);
      var (s1, ok) := RequestData(c, s, SbMetadataKind, 0, s.a.sb.metadataLength, env);
      hide PullRight;
      AfterRequest(c, s, SbMetadataKind, s1, ok);
    } else {
      assert !s.a.needsMetadata;
      hide Base, Live, AssetMetadataComplete;
      AssetMetadataCompleteRight(c, s, env);
    }
  }

  /** All payloads are processed and at least one was counted. */
  lemma FullyStagedMarkRight(c: Config, s: State, env: Env)
    requires Idle(c, s) && s.a.selected >= 0 && s.f.staged > 0
    ensures Live(c, FullyStagedMark(s, env))
  {
    hide Base;
    BaseFrame(c, s, FullyStagedMark(s, env));
  }

  // ----- The payload ----------------------------------------------------------------

  lemma NoMetadataHash(image: seq<byte>, index: nat)
    requires PayloadHeaderOf(image, index).metadataLength == 0
    ensures HashOf(image, index) == NoHash() && FlagsOf(image, index) == APPLY_FLAGS_NEEDS_RESTART
  {
    hide PayloadHeaderOf;
    assert MetadataOf(image, index) == [];
  }

  /** A window of a payload that is not complete can be requested. */
  lemma WindowValid(c: Config, a: Asset)
    requires c.Valid() && Headers(c, a) && Expected(c, a, PayloadDataKind)
    ensures WindowLen(c, a, PayloadDataKind) <= c.window
    ensures Validated(a, PayloadDataKind, a.recvd, WindowLen(c, a, PayloadDataKind))
  {
    hide SbHeaderOf, PayloadHeaderOf;
  }

  /** The first or next window of the payload is requested. */
  lemma PayloadRequestDataRight(c: Config, s: State, env: Env)
    requires c.Valid() && Working(s) && Fed(c, s)
    requires MayRequest(c, s, PayloadDataKind, s.a.recvd, WindowLen(c, s.a, PayloadDataKind))
    ensures var (s1, ok) := PayloadRequestData(c, s, env);
            Requested(c, s, PayloadDataKind, s1, ok) && (s.f.state.Active? ==> Healthy(c, s1))
  {
    WindowValid(c, s.a);
    RequestDataRight(c, s, PayloadDataKind, s.a.recvd, WindowLen(c, s.a, PayloadDataKind), env);
    hide Base, RequestData, PullRight, Config.Valid, MayRequest, HashOf, FlagsOf, Validated;
  }

  /** A payload without bytes cannot be requested. */
  lemma EmptyPayload(c: Config, s: State, env: Env)
    requires Idle(c, s) && s.a.recvd == 0 && s.a.payload.hdr.length == 0
    ensures var (s1, ok) := PayloadRequestData(c, s, env);
            !ok && Idle(c, s1)
  {
    hide Base;
    BaseFrame(c, s, PayloadRequestData(c, s, env).0);
  }

  /** The writer was started; its first window is requested, if there is one. */
  lemma WriterStartedRight(c: Config, s: State, env: Env)
    requires c.Valid() && Idle(c, s) && s.f.state.Active? && s.f.busy && Fed(c, s)
    requires s.a.hasPayloadHeader && !s.a.payload.ShouldRequestMetadata() && s.a.recvd == 0 && c.wanted(s.a.payload.hdr)
    ensures Live(c, OrFailure(PayloadRequestData(c, s, env)))
  {
    hide Base, Config.Valid, HashOf, FlagsOf, RequestData, WindowLen, PayloadRequestData, Fed;
    var (s1, ok) := PayloadRequestData(c, s, env);
    if s.a.payload.hdr.length == 0 {
      EmptyPayload(c, s, env);
      FailedRight(c, s1);
    } else {
      PayloadRequestDataRight(c, s, env);
      hide PullRight, Healthy;
      AfterRequest(c, s, PayloadDataKind, s1, ok);
    }
  }

  lemma PayloadMetadataCompleteRight(c: Config, s: State, env: Env)
    requires c.Valid() && Idle(c, s)
    requires s.a.hasPayloadHeader && !s.a.payload.ShouldRequestMetadata() && s.a.recvd == 0 && c.wanted(s.a.payload.hdr)
    requires s.f.state.Active? ==> s.f.hashed == [] && s.f.payloadHash == HashOf(ImageOf(c, s.a), s.a.selected)
    requires s.f.state.Active? ==> s.f.applyFlags == FlagsOf(ImageOf(c, s.a), s.a.selected)
    ensures Live(c, PayloadMetadataComplete(c, s, env))
  {
    assert s.h.delivered == [] && s.a.selected >= 0;
    hide Base, Config.Valid, HashOf, FlagsOf, PayloadRequestData, OrFailure, Live, ReportFailure;
    if s.f.state.Active? && env.startOk && !(s.f.busy && !env.finishOk) {
      var s1 := s.(f := s.f.(busy := true), h := s.h.(written := []));
      BaseFrame(c, s, s1);
      WriterStartedRight(c, s1, env);
    } else if s.f.state.Active? {
      var s1 := s.(f := s.f.(busy := false));
      BaseFrame(c, s, s1);
      FailedRight(c, s1);
    } else {
      StaysFailed(c, s);
    }
  }

  lemma PayloadReadyRight(c: Config, s: State, env: Env)
    requires c.Valid() && Base(c, s) && Working(s) && !s.a.req.outstanding
    requires s.a.hasPayloadHeader && s.a.recvd == 0 && !s.a.payload.hasMetadata
    requires Quiet(s) || Interrupted(c, s, PayloadMetadataKind)
    ensures Live(c, PayloadReady(c, s, env))
  {
    assert s.a.selected >= 0 && s.a.payload.hdr == PayloadHeaderOf(ImageOf(c, s.a), s.a.selected);
    assert s.a.payload.needsMetadata <==> s.a.payload.hdr.metadataLength > 0;
    assert s.h.delivered == [] && s.h.completions == 0;
    hide Base, Config.Valid, HashOf, FlagsOf, RequestData, PayloadMetadataComplete, SetNextIndex, FullyStagedMark,
      PayloadHeaderOf;
    if c.wanted(s.a.payload.hdr) {
      var s1 := s.(f := s.f.(applyFlags := APPLY_FLAGS_NEEDS_RESTART, hashed := [], payloadHash := NoHash()));
      BaseFrame(c, s, s1);
      if s.a.payload.hdr.metadataLength > 0 {
        RequestDataRight(c, s1, PayloadMetadataKind, 0, s.a.payload.hdr.metadataLength, env);
        var (s2, ok) := RequestData(c, s1, PayloadMetadataKind, 0, s.a.payload.hdr.metadataLength, env);
        hide PullRight;
        AfterRequest(c, s1, PayloadMetadataKind, s2, ok);
      } else {
        NoMetadataHash(ImageOf(c, s.a), s.a.selected);
        PayloadMetadataCompleteRight(c, s1, env);
      }
    } else if s.a.selected + 1 < s.a.core.numPayloads {
      SetNextIndexRight(c, s, env);
    } else if s.f.staged > 0 {
      FullyStagedMarkRight(c, s, env);
    } else {
      FailedRight(c, s);
    }
  }

  /** Counting the payload that is complete. */
  lemma CountedRight(c: Config, image: seq<byte>, index: int, staged: nat, verified: seq<Verified>, written: seq<byte>)
    requires index >= 0 && Tally(c, image, index, staged, verified, 0)
    requires written == PayloadOf(image, index) && c.hash(written) == HashOf(image, index)
    ensures Tally(c, image, index, staged + 1, verified + [Verified(index, written)], 1)
  {
    hide PayloadOf, HashOf, FlagsOf;
    assert VerifiedRight(c, image, Verified(index, written));
    hide VerifiedRight;
  }

  /** The state after counting the payload that is complete. */
  function CountedOne(s: State): State {
    s.(f := s.f.(busy := false, staged := s.f.staged + 1),
       h := s.h.(verified := s.h.verified + [Verified(s.a.selected, s.h.written)]))
  }

  /** The end of a payload, while the asset is active. */
  lemma DataCompleteIs(c: Config, s: State, env: Env)
    requires s.f.state.Active?
    ensures PayloadDataComplete(c, s, env) ==
            if c.hash(s.f.hashed) != s.f.payloadHash then ReportFailure(s)
            else if !env.finishOk then ReportFailure(s.(f := s.f.(busy := false)))
            else if s.f.applyFlags == APPLY_FLAGS_FAST_RESET then InState(CountedOne(s), Applied)
            else if s.a.selected + 1 < s.a.core.numPayloads then SetNextIndex(c, CountedOne(s), env)
            else FullyStagedMark(CountedOne(s), env)
  {
    hide SetNextIndex, FullyStagedMark, ReportFailure;
  }

  /** The payload is complete, delivered once, and not yet counted. */
  predicate Complete(c: Config, s: State) {
    && s.a.hasPayloadHeader && s.a.recvd == s.a.payload.hdr.length && s.h.completions == 1 && c.wanted(s.a.payload.hdr)
    && Tally(c, ImageOf(c, s.a), s.a.selected, s.f.staged, s.h.verified, 0)
  }

  lemma CountedOneRight(c: Config, s: State)
    requires Idle(c, s) && Fed(c, s) && Complete(c, s)
    requires s.f.state.Active? && c.hash(s.f.hashed) == s.f.payloadHash
    ensures Idle(c, CountedOne(s)) && s.a.selected >= 0
  {
    var image := ImageOf(c, s.a);
    assert s.a.selected >= 0 && s.h.delivered == PayloadOf(image, s.a.selected);
    hide HashOf, FlagsOf, PayloadOf, PayloadHeaderOf;
    CountedRight(c, image, s.a.selected, s.f.staged, s.h.verified, s.h.written);
    hide Headers, LogRight, Delivery, Tally, PastRight;
  }

  lemma CompleteIsOver(c: Config, s: State)
    requires Idle(c, s) && Complete(c, s)
    ensures s.a.selected >= 0 && Over(c, CountedOne(s))
  {
    hide Tally, LogRight, PayloadHeaderOf, SbHeaderOf;
  }

  lemma NotBusyRight(c: Config, s: State)
    requires Idle(c, s)
    ensures Idle(c, s.(f := s.f.(busy := false)))
  {
    hide Base;
    BaseFrame(c, s, s.(f := s.f.(busy := false)));
  }

  lemma AppliedRight(c: Config, s: State)
    requires Idle(c, s) && s.a.selected >= 0 && s.f.staged > 0
    ensures Live(c, InState(s, Applied))
  {
    hide Base;
    BaseFrame(c, s, InState(s, Applied));
  }

  lemma PayloadDataCompleteRight(c: Config, s: State, env: Env)
    requires c.Valid() && Idle(c, s) && Fed(c, s) && Complete(c, s)
    ensures Live(c, PayloadDataComplete(c, s, env))
  {
    hide Idle, Fed, Complete, Live, SetNextIndex, FullyStagedMark, ReportFailure, InState, Config.Valid, Over;
    if !s.f.state.Active? {
      StaysFailed(c, s);
    } else if c.hash(s.f.hashed) != s.f.payloadHash {
      FailedRight(c, s);
    } else if !env.finishOk {
      NotBusyRight(c, s);
      FailedRight(c, s.(f := s.f.(busy := false)));
    } else {
      var s1 := CountedOne(s);
      CountedOneRight(c, s);
      if s.f.applyFlags == APPLY_FLAGS_FAST_RESET {
        AppliedRight(c, s1);
      } else if s.a.selected + 1 < s.a.core.numPayloads {
        CompleteIsOver(c, s);
        SetNextIndexRight(c, s1, env);
      } else {
        FullyStagedMarkRight(c, s1, env);
      }
    }
  }

  /** The state after a window has been handed on. */
  function Advanced(s: State, data: seq<byte>, env: Env): State
    requires |data| < TWO_32
  {
    var s1 := PayloadData(s, data, env);
    var recvd := Sum32(s.a.recvd, |data|);
    s1.(a := s1.a.(recvd := recvd),
        h := s1.h.(completions := s1.h.completions + if recvd == s.a.payload.hdr.length then 1 else 0))
  }

  /** `data` is the window that was pulled. */
  predicate IsWindow(c: Config, s: State, data: seq<byte>) {
    && Expected(c, s.a, PayloadDataKind) && s.f.busy
    && |data| == WindowLen(c, s.a, PayloadDataKind)
    && data == Slice(ImageOf(c, s.a), s.a.payload.hdr.offset + s.a.recvd, |data|)
  }

  lemma RecvdAdvanced(c: Config, a: Asset, n: nat)
    requires c.Valid() && Headers(c, a) && Expected(c, a, PayloadDataKind) && n == WindowLen(c, a, PayloadDataKind)
    ensures 0 < n < TWO_32 && Sum32(a.recvd, n) == a.recvd + n <= a.payload.hdr.length
  {
    hide SbHeaderOf, PayloadHeaderOf;
  }

  lemma HeadersAdvanced(c: Config, a: Asset, n: nat)
    requires Headers(c, a) && a.hasPayloadHeader && a.recvd + n <= a.payload.hdr.length
    ensures Headers(c, a.(recvd := a.recvd + n))
  {
    hide SbHeaderOf, PayloadHeaderOf;
  }

  lemma OneMoreWindow(recvd: nat, w: nat)
    requires w > 0 && recvd % w == 0
    ensures (recvd + w) % w == 0
  {
    assert recvd + w == (recvd / w + 1) * w by {
      assert recvd == recvd / w * w;
    }
    DivModUnique((recvd + w) / w, (recvd + w) % w, recvd / w + 1, 0, w);
  }

  lemma WindowsAdvanced(c: Config, a: Asset, n: nat)
    requires c.Valid() && WholeWindows(c, a.recvd, a.payload.hdr.length) && a.recvd < a.payload.hdr.length
    requires n == WindowLen(c, a, PayloadDataKind)
    ensures WholeWindows(c, a.recvd + n, a.payload.hdr.length)
  {
    assert a.recvd % c.window == 0;
    OneMoreWindow(a.recvd, c.window);
  }

  lemma DeliveryAdvanced(c: Config, a: Asset, delivered: seq<byte>, completions: nat, data: seq<byte>)
    requires Delivery(c, a, delivered, completions) && a.hasPayloadHeader
    requires a.recvd < a.recvd + |data| <= a.payload.hdr.length
    requires data == Slice(ImageOf(c, a), a.payload.hdr.offset + a.recvd, |data|)
    ensures completions == 0
    ensures Delivery(c, a.(recvd := a.recvd + |data|), delivered + data,
                     if a.recvd + |data| == a.payload.hdr.length then 1 else 0)
  {
    SliceAppend(ImageOf(c, a), a.payload.hdr.offset, a.recvd, a.payload.hdr.offset + a.recvd, |data|);
    hide Slice;
  }

  /** Requests of the window that is complete belong to a window before, from now on. */
  lemma LogAdvanced(c: Config, a: Asset, log: seq<Entry>, n: nat)
    requires LogRight(c, a, log) && n == WindowLen(c, a, PayloadDataKind) && a.recvd + n <= a.payload.hdr.length
    ensures LogRight(c, a.(recvd := a.recvd + n), log)
  {
    hide SbHeaderOf, PayloadHeaderOf, StartOf, BoundsOf;
    var a1 := a.(recvd := a.recvd + n);
    forall i | 0 <= i < |log| ensures EntryRight(c, a1, log[i]) {
      assert EntryRight(c, a, log[i]);
    }
  }

  lemma TallyAdvanced(c: Config, image: seq<byte>, index: int, staged: nat, verified: seq<Verified>)
    requires Tally(c, image, index, staged, verified, 0)
    ensures Tally(c, image, index, staged, verified, 1)
  {
    hide VerifiedRight;
  }

  /** The fields after a window has been handed on. */
  lemma AdvancedFields(c: Config, s: State, data: seq<byte>, env: Env)
    requires |data| < TWO_32 && Sum32(s.a.recvd, |data|) == s.a.recvd + |data| && Working(s)
    ensures var s1 := Advanced(s, data, env);
            && s1.a == s.a.(recvd := s.a.recvd + |data|)
            && s1.h == s.h.(delivered := s.h.delivered + data, written := s1.h.written, completions := s1.h.completions)
            && s1.h.completions == s.h.completions + (if s1.a.recvd == s.a.payload.hdr.length then 1 else 0)
            && s1.connected == s.connected && Working(s1)
            && s1.f == s.f.(state := s1.f.state, hashed := s.f.hashed + data)
            && (s1.f.state.Active? ==> s.f.state.Active? && s1.h.written == s.h.written + data)
  {
  }

  lemma FedAdvanced(c: Config, s: State, data: seq<byte>, s1: State)
    requires Fed(c, s) && s1.a.core == s.a.core && s1.a.selected == s.a.selected
    requires s1.f == s.f.(state := s1.f.state, hashed := s.f.hashed + data)
    requires s1.h.delivered == s.h.delivered + data
    requires s1.f.state.Active? ==> s.f.state.Active? && s1.h.written == s.h.written + data
    ensures Fed(c, s1)
  {
    hide HashOf, FlagsOf;
  }

  lemma AdvancedRight(c: Config, s: State, data: seq<byte>, env: Env)
    requires c.Valid() && Idle(c, s) && Fed(c, s) && IsWindow(c, s, data)
    ensures |data| < TWO_32
    ensures var s1 := Advanced(s, data, env);
            && Idle(c, s1) && Fed(c, s1) && s1.f.busy
            && s1.a.recvd == s.a.recvd + |data|
            && if s1.a.recvd == s.a.payload.hdr.length then Complete(c, s1) else Expected(c, s1.a, PayloadDataKind)
  {
    hide Config.Valid, Headers, WindowLen, LogRight, Delivery, Tally, PastRight, Fed, Slice, Advanced, Rank;
    hide WholeWindows, ChunksRight;
    assert s.a.selected >= 0 by {
      PayloadSelected(c, s.a);
    }
    RecvdAdvanced(c, s.a, |data|);
    AdvancedFields(c, s, data, env);
    var s1 := Advanced(s, data, env);
    HeadersAdvanced(c, s.a, |data|);
    WindowsAdvanced(c, s.a, |data|);
    DeliveryAdvanced(c, s.a, s.h.delivered, s.h.completions, data);
    LogAdvanced(c, s.a, s.h.log, |data|);
    TallyAdvanced(c, ImageOf(c, s.a), s.a.selected, s.f.staged, s.h.verified);
    FedAdvanced(c, s, data, s1);
  }

  lemma PayloadSelected(c: Config, a: Asset)
    requires Headers(c, a) && a.hasPayloadHeader
    ensures a.selected >= 0
  {
    hide SbHeaderOf, PayloadHeaderOf;
  }

  /** After a window the payload is complete, or the next window is requested. */
  lemma WindowCompleteRight(c: Config, s: State, data: seq<byte>, env: Env)
    requires c.Valid() && |data| < TWO_32 && Idle(c, s) && Fed(c, s) && IsWindow(c, s, data)
    ensures Live(c, WindowComplete(c, s, data, env))
  {
    var s1 := Advanced(s, data, env);
    WindowCompleteIs(c, s, data, env);
    hide Idle, Fed, Complete, Live, IsWindow, Expected, Advanced, PayloadDataComplete, PayloadRequestData,
      WindowComplete, Config.Valid;
    AdvancedRight(c, s, data, env);
    if s1.a.recvd == s.a.payload.hdr.length {
      PayloadDataCompleteRight(c, s1, env);
    } else {
      NextWindow(c, s1, env);
    }
  }

  lemma WindowCompleteIs(c: Config, s: State, data: seq<byte>, env: Env)
    requires |data| < TWO_32
    ensures var s1 := Advanced(s, data, env);
            WindowComplete(c, s, data, env) ==
            if s1.a.recvd == s.a.payload.hdr.length then PayloadDataComplete(c, s1, env)
            else PayloadRequestData(c, s1, env).0
  {
    hide PayloadDataComplete, PayloadRequestData;
  }

  lemma NextWindow(c: Config, s: State, env: Env)
    requires c.Valid() && Idle(c, s) && Fed(c, s) && s.f.busy && Expected(c, s.a, PayloadDataKind)
    ensures Live(c, PayloadRequestData(c, s, env).0)
  {
    hide Base, PullRight, Fed, Expected, WindowLen, Healthy, PayloadRequestData;
    PayloadRequestDataRight(c, s, env);
  }
}
