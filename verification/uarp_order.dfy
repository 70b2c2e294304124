/**
 The order of the request messages: they ask for parts of the image, one part after
 the other, and after a part the accessory awaits what follows it.
 */
module UarpOrder {
  import opened Bytes
  import opened UarpImage
  import opened Uarp
  import opened UarpInvariant
  import opened UarpSteps
  import opened UarpResponses
  import opened UarpEvents

  // ----- Parts of the image --------------------------------------------------------------------

  /** The pulls that the indices and the application's choice allow. */
  predicate MayBePulled(c: Config, core: Core, p: Pull) {
    match p
    case NoPull => false
    case Pull(SbHeaderKind, index) => index == -1
    case Pull(SbMetadataKind, index) => index == -1
    case Pull(PayloadHeaderKind, index) => 0 <= index < core.numPayloads
    case Pull(_, index) => 0 <= index < core.numPayloads && c.wanted(PayloadHeaderOf(c.images(core), index))
  }

  /** A part of the image that may be pulled and is not empty. */
  predicate IsPart(c: Config, core: Core, p: Pull) {
    MayBePulled(c, core, p) && From(c.images(core), p) < To(c.images(core), p)
  }

  /**
   The part may be the last one pulled: after it nothing is requested, for some answers
   of the writer and the link. The header of a wanted payload with metadata that fits
   the window is always followed by the metadata, and the header of another payload
   by the next header, if there is one in the region.
   */
  predicate MayBeLast(c: Config, core: Core, p: Pull) {
    match p
    case Pull(PayloadHeaderKind, index) =>
      var image := c.images(core);
      index < 0 ||
      (var hdr := PayloadHeaderOf(image, index);
       if c.wanted(hdr) then hdr.metadataLength == 0 || hdr.metadataLength > c.window
       else
         || index + 1 >= core.numPayloads
         || (index + 2) * PAYLOAD_HEADER_LEN > SbHeaderOf(image).payloadHeadersLength)
    case _ => true
  }

  /** A place in the image as a 32-bit offset. */
  function Wrapped(x: nat): nat {
    if x < TWO_32 then x else x - TWO_32
  }

  // ----- What is in the log ----------------------------------------------------------

  /** The pull in progress, or else the last one. */
  function Top(h: History): Pull {
    if h.pull.Pull? then h.pull else h.last
  }

  predicate LogOrdered(c: Config, core: Core, log: seq<Entry>, top: Pull) {
    forall i :: 0 <= i < |log| ==> IsPart(c, core, log[i].pull) && Rank(log[i].pull) <= Rank(top)
  }

  /** After a pull the accessory awaits what follows the part that was pulled. */
  predicate AwaitsEnd(c: Config, a: Asset, last: Pull) {
    last.Pull? ==>
      && IsPart(c, a.core, last) && MayBeLast(c, a.core, last)
      && a.req.currentOffset == Wrapped(To(ImageOf(c, a), last))
  }

  /** The messages in the log ask for parts, none of them later than the present one. */
  predicate Ordered(c: Config, s: State) {
    && !s.h.overrun
    && (HasAsset(s) ==>
          && LogOrdered(c, s.a.core, s.h.log, Top(s.h))
          && (if s.h.pull.Pull? then IsPart(c, s.a.core, s.h.pull) else AwaitsEnd(c, s.a, s.h.last)))
  }

  /** At most one message was added, for the pull that is in progress then. */
  predicate LogKept(log: seq<Entry>, log1: seq<Entry>, pull: Pull) {
    log1 == log || (|log1| == |log| + 1 && log1[..|log|] == log && log1[|log|].pull == pull)
  }

  /** What a callback leaves of log, last pull and awaited offset. */
  predicate Kept(s: State, s1: State) {
    && s1.h.overrun == s.h.overrun
    && (HasAsset(s1) ==>
          && s1.h.last == s.h.last && s1.a.core == s.a.core
          && if s1.h.pull.Pull? then LogKept(s.h.log, s1.h.log, s1.h.pull)
             else s1.h.log == s.h.log && s1.a.req.currentOffset == s.a.req.currentOffset)
  }

  // ----- Callbacks -------------------------------------------------------------------

  /** No request was made. */
  predicate NotRequested(s: State, s1: State) {
    && s1.h.overrun == s.h.overrun && s1.h.last == s.h.last && s1.h.log == s.h.log
    && s1.a.core == s.a.core && s1.a.req == s.a.req
  }

  lemma KeptWithout(s: State, s1: State)
    requires NotRequested(s, s1)
    ensures Kept(s, s1) && Kept(s, ReportFailure(s1)) && Kept(s, Remove(s1))
  {
  }

  /** What happens before a request does not matter to what it leaves. */
  lemma KeptAfter(s: State, s0: State, s1: State)
    requires NotRequested(s, s0) && Kept(s0, s1)
    ensures Kept(s, s1)
  {
    hide LogKept;
  }

  lemma KeptByContinue(c: Config, s: State, env: Env)
    requires s.h.pull.Pull? || s.a.req.bytesRemaining == 0
    ensures Kept(s, Continue(c, s, env).0)
  {
  }

  lemma KeptByRequest(c: Config, s: State, kind: Kind, rel: u32, needed: u32, env: Env)
    ensures Kept(s, RequestData(c, s, kind, rel, needed, env).0)
  {
    if !s.a.req.outstanding {
      RequestDataIs(c, s, kind, rel, needed, env);
      KeptByContinue(c, Begin(s, kind, rel, needed), env);
      hide RequestData, Continue, Validated, Region, LogKept;
    }
  }

  lemma KeptByFailure(s: State, r: (State, bool))
    requires Kept(s, r.0)
    ensures Kept(s, OrFailure(r)) && Kept(s, ReportFailure(r.0))
  {
    hide LogKept;
  }

  lemma KeptByIndex(c: Config, s: State, index: nat, env: Env)
    ensures Kept(s, OrFailure(SetPayloadIndex(c, s, index, env)))
  {
    if index < s.a.core.numPayloads {
      KeptByRequest(c, Selected(s, index), PayloadHeaderKind, index * PAYLOAD_HEADER_LEN, PAYLOAD_HEADER_LEN, env);
    }
    hide RequestData, LogKept, OrFailure, WithDone;
    assert Kept(s, SetPayloadIndex(c, s, index, env).0);
    KeptByFailure(s, SetPayloadIndex(c, s, index, env));
  }

  lemma KeptByMetadataComplete(c: Config, s: State, env: Env)
    ensures Kept(s, AssetMetadataComplete(c, s, env))
  {
    KeptByIndex(c, s.(f := s.f.(staged := 0), h := s.h.(verified := [])), 0, env);
    hide SetPayloadIndex, OrFailure, LogKept;
  }

  lemma KeptByReady(c: Config, s: State, env: Env)
    ensures Kept(s, AssetReady(c, s, env))
  {
    KeptByMetadataComplete(c, s, env);
    KeptByRequest(c, s, SbMetadataKind, 0, s.a.sb.metadataLength, env);
    KeptByFailure(s, RequestData(c, s, SbMetadataKind, 0, s.a.sb.metadataLength, env));
    hide RequestData, OrFailure, AssetMetadataComplete, LogKept;
  }

  lemma KeptByPayloadRequest(c: Config, s: State, env: Env)
    ensures Kept(s, PayloadRequestData(c, s, env).0)
    ensures Kept(s, OrFailure(PayloadRequestData(c, s, env)))
  {
    var left := Diff32(s.a.payload.hdr.length, s.a.recvd);
    KeptByRequest(c, s, PayloadDataKind, s.a.recvd, Min(left, c.window), env);
    hide RequestData, OrFailure, LogKept;
    KeptByFailure(s, PayloadRequestData(c, s, env));
  }

  lemma KeptByPayloadMetadata(c: Config, s: State, env: Env)
    ensures Kept(s, PayloadMetadataComplete(c, s, env))
  {
    KeptByPayloadRequest(c, s.(f := s.f.(busy := true), h := s.h.(written := [])), env);
    KeptWithout(s, s);
    KeptWithout(s, s.(f := s.f.(busy := false)));
    hide PayloadRequestData, OrFailure, LogKept, ReportFailure;
  }

  lemma KeptByNextIndex(c: Config, s: State, env: Env)
    requires s.a.selected < TWO_16 - 1
    ensures Kept(s, SetNextIndex(c, s, env))
  {
    hide *;
    SetNextIndexIs(c, s, env);
    KeptByIndex(c, s, s.a.selected + 1, env);
  }

  lemma KeptByMark(s: State, env: Env)
    ensures Kept(s, FullyStagedMark(s, env)) && Kept(s, InState(s, Applied))
  {
  }

  lemma KeptByPayloadReady(c: Config, s: State, env: Env)
    ensures Kept(s, PayloadReady(c, s, env))
  {
    var s1 := s.(f := s.f.(applyFlags := APPLY_FLAGS_NEEDS_RESTART, hashed := [], payloadHash := NoHash()));
    KeptByRequest(c, s1, PayloadMetadataKind, 0, s.a.payload.hdr.metadataLength, env);
    KeptByFailure(s1, RequestData(c, s1, PayloadMetadataKind, 0, s.a.payload.hdr.metadataLength, env));
    KeptByPayloadMetadata(c, s1, env);
    if s.a.selected + 1 < s.a.core.numPayloads {
      KeptByNextIndex(c, s, env);
    }
    KeptWithout(s, s);
    KeptByMark(s, env);
    hide RequestData, SetNextIndex, OrFailure, PayloadMetadataComplete, LogKept, NoHash, ReportFailure, FullyStagedMark;
    hide Kept;
    assert NotRequested(s, s1);
    KeptAfter(s, s1, OrFailure(RequestData(c, s1, PayloadMetadataKind, 0, s.a.payload.hdr.metadataLength, env)));
    KeptAfter(s, s1, PayloadMetadataComplete(c, s1, env));
  }

  lemma KeptByDataComplete(c: Config, s: State, env: Env)
    ensures Kept(s, PayloadDataComplete(c, s, env))
  {
    KeptWithout(s, s);
    if s.f.state.Active? {
      var s1 := CountedOne(s);
      assert NotRequested(s, s1);
      KeptWithout(s, s.(f := s.f.(busy := false)));
      DataCompleteIs(c, s, env);
      hide PayloadDataComplete, SetNextIndex, FullyStagedMark, InState, ReportFailure, Kept, NotRequested, CountedOne;
      if s.a.selected + 1 < s.a.core.numPayloads {
        KeptByNextCounted(c, s, s1, env);
      }
      KeptByMark(s1, env);
      KeptAfter(s, s1, InState(s1, Applied));
      KeptAfter(s, s1, FullyStagedMark(s1, env));
    } else {
      hide Kept;
    }
  }

  lemma KeptByNextCounted(c: Config, s: State, s1: State, env: Env)
    requires s.a.selected + 1 < s.a.core.numPayloads && s1 == CountedOne(s)
    ensures Kept(s, SetNextIndex(c, s1, env))
  {
    assert NotRequested(s, s1) && s1.a == s.a;
    hide SetNextIndex, Kept, NotRequested, CountedOne;
    KeptByNextIndex(c, s1, env);
    KeptAfter(s, s1, SetNextIndex(c, s1, env));
  }

  lemma KeptByWindow(c: Config, s: State, data: seq<byte>, env: Env)
    requires |data| < TWO_32
    ensures Kept(s, WindowComplete(c, s, data, env))
  {
    var s1 := Advanced(s, data, env);
    WindowCompleteIs(c, s, data, env);
    KeptByDataComplete(c, s1, env);
    KeptByPayloadRequest(c, s1, env);
    AdvancedKept(s, data, env);
    hide WindowComplete, PayloadDataComplete, PayloadRequestData, Advanced, LogKept;
  }

  lemma AdvancedKept(s: State, data: seq<byte>, env: Env)
    requires |data| < TWO_32
    ensures var s1 := Advanced(s, data, env);
            && s1.h.log == s.h.log && s1.h.last == s.h.last && s1.h.overrun == s.h.overrun
            && s1.a.core == s.a.core && s1.a.req == s.a.req
  {
  }

  lemma KeptByHeaders(c: Config, s: State, data: seq<byte>, env: Env)
    ensures |data| == SB_HEADER_LEN ==> Kept(s, SbHeaderComplete(c, s, data, env))
    ensures |data| == PAYLOAD_HEADER_LEN ==> Kept(s, PayloadHeaderComplete(c, s, data, env))
  {
    hide ParseSbHeader, ParsePayloadHeader, AssetReady, PayloadReady, LogKept;
    if |data| == SB_HEADER_LEN {
      KeptByReady(c, WithHeader(s, ParseSbHeader(data)), env);
    }
    if |data| == PAYLOAD_HEADER_LEN {
      KeptByPayloadReady(c, WithPayloadHeader(s, ParsePayloadHeader(data)), env);
    }
  }

  lemma TlvsKept(s: State, tlvs: seq<Tlv>)
    ensures var s1 := ReadTlvs(s, tlvs);
            && Kept(s, s1)
            && s1.h.overrun == s.h.overrun && s1.h.last == s.h.last && s1.h.log == s.h.log
            && s1.a == s.a
  {
    hide HashFrom, FlagsFrom, AnyBad;
  }

  lemma KeptByMetadata(c: Config, s: State, data: seq<byte>, env: Env)
    ensures Kept(s, SbMetadataComplete(c, s, data, env))
    ensures Kept(s, PayloadMetadataPullComplete(c, s, data, env))
  {
    hide ParseTlvs, AssetMetadataComplete, PayloadMetadataComplete, HashFrom, FlagsFrom, AnyBad, LogKept;
    var s0 := s.(a := s.a.(hasMetadata := true, payload := s.a.payload.(hasMetadata := true)));
    KeptByMetadataComplete(c, s.(a := s.a.(hasMetadata := true)), env);
    KeptWithout(s, s.(a := s.a.(hasMetadata := true)));
    var s1 := WithPayloadMetadata(s, ParseTlvs(data).tlvs);
    TlvsKept(s0, ParseTlvs(data).tlvs);
    KeptByPayloadMetadata(c, s1, env);
    hide ReadTlvs;
  }

  lemma KeptByPullComplete(c: Config, s: State, env: Env)
    ensures Kept(s, PullComplete(c, s, env))
  {
    hide SbHeaderComplete, SbMetadataComplete, PayloadHeaderComplete, PayloadMetadataPullComplete, WindowComplete,
      LogKept;
    KeptWithout(s, s);
    if s.a.req.bytesResponded <= |s.a.scratch| {
      var data := s.a.scratch[..s.a.req.bytesResponded];
      KeptByHeaders(c, s, data, env);
      KeptByMetadata(c, s, data, env);
      KeptByWindow(c, s, data, env);
    }
  }

  lemma KeptByAccept(c: Config, s: State, env: Env)
    ensures Kept(s, AssetAccept(c, s, env).0)
  {
    KeptByRequest(c, s, SbHeaderKind, 0, SB_HEADER_LEN, env);
    KeptByRequest(c, s, SbMetadataKind, 0, s.a.sb.metadataLength, env);
    KeptByMetadataComplete(c, s, env);
    KeptByPayloadReady(c, s, env);
    KeptByPayloadRequest(c, s, env);
    hide RequestData, AssetMetadataComplete, PayloadReady, PayloadRequestData, LogKept;
  }

  lemma KeptByTakeOn(c: Config, s: State, env: Env)
    ensures Kept(s, TakeOn(c, s, env))
  {
    KeptByAccept(c, InState(s, Active), env);
    hide AssetAccept, LogKept;
  }

  // ----- Steps ----------------------------------------------------------------------

  /** The pull in progress is what the asset has come to, and a part of the image. */
  lemma PullIsPart(c: Config, s: State)
    requires Live(c, s) && s.h.pull.Pull?
    ensures IsPart(c, s.a.core, s.h.pull) && Rank(s.h.pull) == Place(s.a)
  {
    RegionRight(c, s.a, s.h.pull) by {
      LiveParts(c, s);
      PullFields(c, s);
      hide PullRight, Live;
    }
    PullFields(c, s);
    hide LogRight, Delivery, Tally, PastRight, SbHeaderOf, Slice, StartOf, Phase;
    PullPlace(c, s.a, s.h.pull);
  }

  lemma PullPlace(c: Config, a: Asset, pull: Pull)
    requires Headers(c, a) && pull.Pull? && pull.index == a.selected && Expected(c, a, pull.kind)
    ensures MayBePulled(c, a.core, pull) && Rank(pull) == Place(a)
  {
    hide SbHeaderOf, PayloadHeaderOf;
  }

  lemma LastPlace(c: Config, s: State)
    requires Live(c, s)
    ensures Rank(s.h.last) <= Place(s.a)
  {
    hide Headers, LogRight, Delivery, Tally, PastRight, PullRight, Phase, Rank, Place;
  }

  lemma LogGrows(c: Config, core: Core, log: seq<Entry>, log1: seq<Entry>, top: Pull, pull: Pull)
    requires LogOrdered(c, core, log, top) && LogKept(log, log1, pull)
    requires Rank(top) <= Rank(pull) && IsPart(c, core, pull)
    ensures LogOrdered(c, core, log1, pull)
  {
    hide IsPart, Rank;
    forall i | 0 <= i < |log1| ensures IsPart(c, core, log1[i].pull) && Rank(log1[i].pull) <= Rank(pull) {
      if i < |log| {
        assert log1[..|log|][i] == log1[i];
      }
    }
  }

  /** A callback between two pulls keeps the order. */
  lemma CallbackOrdered(c: Config, s: State, s1: State)
    requires Kept(s, s1) && Inv(c, s1) && !s.h.overrun
    requires LogOrdered(c, s.a.core, s.h.log, s.h.last)
    requires HasAsset(s1) && s1.h.pull.NoPull? ==> AwaitsEnd(c, s.a, s.h.last)
    ensures Ordered(c, s1)
  {
    hide LogOrdered, LogKept, IsPart, Rank, Place, Live;
    if HasAsset(s1) && s1.h.pull.Pull? {
      PullIsPart(c, s1);
      LastPlace(c, s1);
      LogGrows(c, s.a.core, s.h.log, s1.h.log, s.h.last, s1.h.pull);
    }
  }

  /** A pull that goes on keeps the order. */
  lemma PullGoesOn(c: Config, s: State, s1: State)
    requires Kept(s, s1) && Ordered(c, s) && HasAsset(s)
    requires HasAsset(s1) ==> s1.h.pull == s.h.pull
    ensures Ordered(c, s1)
  {
    hide LogOrdered, LogKept, IsPart, Rank;
    if HasAsset(s1) && s1.h.pull.Pull? {
      LogGrows(c, s.a.core, s.h.log, s1.h.log, s.h.pull, s1.h.pull);
    }
  }

  // ----- Responses -------------------------------------------------------------------

  /** A completed pull of payload bytes that leaves some is followed by the next window. */
  lemma NextWindowPulled(c: Config, s: State, env: Env)
    requires c.Valid() && Idle(c, s) && Fed(c, s) && s.f.busy && Expected(c, s.a, PayloadDataKind)
    ensures PayloadRequestData(c, s, env).0.h.pull.Pull?
  {
    WindowValid(c, s.a);
    var n := WindowLen(c, s.a, PayloadDataKind);
    RequestDataRight(c, s, PayloadDataKind, s.a.recvd, n, env);
    hide Base, RequestData, PullRight, Config.Valid, Validated, Fed;
  }

  lemma OpenWindow(c: Config, s: State, data: seq<byte>, env: Env)
    requires c.Valid() && |data| < TWO_32 && Idle(c, s) && Fed(c, s) && IsWindow(c, s, data)
    ensures WindowComplete(c, s, data, env).h.pull.Pull? || s.a.recvd + |data| == s.a.payload.hdr.length
  {
    hide *;
    AdvancedRight(c, s, data, env);
    WindowCompleteIs(c, s, data, env);
    var s1 := Advanced(s, data, env);
    if s1.a.recvd != s.a.payload.hdr.length {
      NextWindowPulled(c, s1, env);
    }
  }

  lemma Sum32Twice(a: u32, b: nat, n: nat)
    requires b + n < TWO_32
    ensures Sum32(Sum32(a, b), n) == Wrapped(a + b + n)
  {
  }

  /** What is awaited when a window is full. */
  lemma FullAwaits(c: Config, s: State, bytes: seq<byte>)
    requires Live(c, s) && s.h.pull.Pull? && 0 < |bytes| == s.a.req.bytesRemaining
    requires Awaited(c, s.a, s.h.pull.kind, bytes)
    ensures |bytes| < TWO_32
    ensures var s1 := Full(s, bytes);
            && s1.h == s.h.(pull := NoPull, last := s.h.pull) && s1.a.core == s.a.core
            && s1.a.req.currentOffset ==
               Wrapped(StartOf(ImageOf(c, s.a), s.h.pull) + WindowBase(s.a, s.h.pull.kind) +
                       WindowLen(c, s.a, s.h.pull.kind))
  {
    LiveParts(c, s);
    AcceptFields(c, s.a, s.h.pull, s.f.busy, bytes);
    PullFields(c, s);
    PullStart(c, s);
    hide Live, Base, Slice, Awaited, Expected, Region, WindowLen, WindowBase, StartOf;
    Sum32Twice(StartOf(ImageOf(c, s.a), s.h.pull), s.a.req.relativeOffset, s.a.req.bytesRequested);
    hide PullRight, Accept, Sum32, Wrapped;
  }

  lemma PullStart(c: Config, s: State)
    requires Live(c, s) && s.h.pull.Pull?
    ensures s.a.req.absoluteOffset == Sum32(StartOf(ImageOf(c, s.a), s.h.pull), s.a.req.relativeOffset)
    ensures s.a.req.relativeOffset + s.a.req.bytesRequested < TWO_32
    ensures s.h.pull.kind.PayloadDataKind? ==> s.a.payload.hdr.length == BoundsOf(ImageOf(c, s.a), s.h.pull).1
    ensures !s.h.pull.kind.PayloadDataKind? ==>
              BoundsOf(ImageOf(c, s.a), s.h.pull).1 == WindowBase(s.a, s.h.pull.kind) + WindowLen(c, s.a, s.h.pull.kind)
    ensures s.a.req.bytesRequested > 0
  {
    PullFields(c, s);
    RegionRight(c, s.a, s.h.pull);
    hide LogRight, Delivery, Tally, PastRight, SbHeaderOf, PayloadHeaderOf, Slice, StartOf, BoundsOf, Phase, Headers,
      Expected, WindowLen, WindowBase;
  }

  lemma FullOrdered(c: Config, s: State, bytes: seq<byte>, env: Env)
    requires c.Valid() && Live(c, s) && Working(s) && Ordered(c, s) && s.h.pull.Pull?
    requires 0 < |bytes| == s.a.req.bytesRemaining && Awaited(c, s.a, s.h.pull.kind, bytes)
    requires |bytes| < TWO_32 && Inv(c, PullComplete(c, Full(s, bytes), env))
    ensures Ordered(c, PullComplete(c, Full(s, bytes), env))
  {
    var s0 := Full(s, bytes);
    var s1 := PullComplete(c, s0, env);
    FullAwaits(c, s, bytes);
    PullStart(c, s);
    KeptByPullComplete(c, s0, env);
    FullOrAll(c, s, bytes, env);
    FullEnds(c, s, bytes, env);
    hide Live, Awaited, PullComplete, Full, StartOf, BoundsOf, WindowLen, WindowBase, Wrapped, Inv, MayBePulled, Kept;
    hide MayBeLast;
    CallbackOrdered(c, s0, s1);
  }

  /** The last window of a payload ends where the payload ends. */
  lemma FullOrAll(c: Config, s: State, bytes: seq<byte>, env: Env)
    requires c.Valid() && Live(c, s) && Working(s) && s.h.pull.Pull?
    requires 0 < |bytes| == s.a.req.bytesRemaining && Awaited(c, s.a, s.h.pull.kind, bytes) && |bytes| < TWO_32
    ensures s.h.pull.kind.PayloadDataKind? && PullComplete(c, Full(s, bytes), env).h.pull.NoPull? ==>
              WindowBase(s.a, s.h.pull.kind) + WindowLen(c, s.a, s.h.pull.kind) == s.a.payload.hdr.length
  {
    if s.h.pull.kind.PayloadDataKind? {
      FullRight(c, s, bytes);
      PullFields(c, s);
      var s0 := Full(s, bytes);
      var data := s0.a.scratch[..s0.a.req.bytesResponded];
      assert s0.a.req.kind == s.a.req.kind && s0.a.req.bytesRequested == s.a.req.bytesRequested;
      assert s0.a.recvd == s.a.recvd && s0.a.payload == s.a.payload;
      assert WindowBase(s.a, s.h.pull.kind) == s.a.recvd;
      hide *;
      WindowPulled(c, s0, data);
      PullCompleteIs(c, s0, env);
      OpenWindow(c, s0, data, env);
    }
  }

  // ----- What follows a header ---------------------------------------------------------

  lemma RequestPulls(c: Config, s: State, kind: Kind, rel: u32, needed: u32, env: Env)
    requires !s.a.req.outstanding && needed <= c.window && Validated(s.a, kind, rel, needed)
    ensures var r := RequestData(c, s, kind, rel, needed, env);
            r.0.h.pull.Pull? && (HasAsset(OrFailure(r)) ==> OrFailure(r).h.pull.Pull?)
  {
    RequestDataIs(c, s, kind, rel, needed, env);
    ContinueSame(c, Begin(s, kind, rel, needed), env);
    hide RequestData, Continue, Validated, Started;
  }

  /** A payload that may not be the last one pulled is followed by a request. */
  lemma ReadyFollowed(c: Config, s: State, env: Env)
    requires c.Valid() && Idle(c, s) && s.a.hasPayloadHeader
    requires s.a.selected >= 0 && !MayBeLast(c, s.a.core, Pull(PayloadHeaderKind, s.a.selected))
    ensures var s1 := PayloadReady(c, s, env); HasAsset(s1) ==> s1.h.pull.Pull?
  {
    HeadersHeld(c, s);
    hide Idle, PayloadHeaderOf, SbHeaderOf, Config.Valid, PayloadMetadataComplete, NoHash;
    if c.wanted(s.a.payload.hdr) {
      var s1 := s.(f := s.f.(applyFlags := APPLY_FLAGS_NEEDS_RESTART, hashed := [], payloadHash := NoHash()));
      RequestPulls(c, s1, PayloadMetadataKind, 0, s.a.payload.hdr.metadataLength, env);
      hide RequestData, OrFailure;
    } else {
      NextFollowed(c, s, env);
      hide SetNextIndex;
    }
  }

  lemma HeadersHeld(c: Config, s: State)
    requires Idle(c, s) && s.a.hasPayloadHeader && s.a.selected >= 0
    ensures s.a.payload.hdr == PayloadHeaderOf(ImageOf(c, s.a), s.a.selected)
    ensures s.a.sb == SbHeaderOf(ImageOf(c, s.a)) && !s.a.req.outstanding
  {
    hide PayloadHeaderOf, SbHeaderOf, LogRight, Delivery, Tally, PastRight;
  }

  lemma NextFollowed(c: Config, s: State, env: Env)
    requires c.Valid() && 0 <= s.a.selected && s.a.selected + 1 < s.a.core.numPayloads && !s.a.req.outstanding
    requires (s.a.selected + 2) * PAYLOAD_HEADER_LEN <= s.a.sb.payloadHeadersLength
    ensures var s1 := SetNextIndex(c, s, env); HasAsset(s1) ==> s1.h.pull.Pull?
  {
    var index := s.a.selected + 1;
    SetNextIndexIs(c, s, env);
    SetPayloadIndexIs(c, s, index, env);
    RequestPulls(c, Selected(s, index), PayloadHeaderKind, index * PAYLOAD_HEADER_LEN, PAYLOAD_HEADER_LEN, env);
    hide SetNextIndex, SetPayloadIndex, RequestData, OrFailure;
  }

  lemma HeaderFollowed(c: Config, s: State, data: seq<byte>, env: Env)
    requires c.Valid() && Pulled(c, s, PayloadHeaderKind, data)
    requires !MayBeLast(c, s.a.core, Pull(PayloadHeaderKind, s.a.selected))
    ensures |data| == PAYLOAD_HEADER_LEN
    ensures var s1 := PayloadHeaderComplete(c, s, data, env); HasAsset(s1) ==> s1.h.pull.Pull?
  {
    PayloadHeaderParsed(c, s, data);
    var hdr := ParsePayloadHeader(data);
    WithPayloadHeaderRight(c, s, hdr);
    hide Idle, PayloadReady, ParsePayloadHeader, Pulled, PayloadHeaderOf, Config.Valid, MayBeLast;
    ReadyFollowed(c, WithPayloadHeader(s, hdr), env);
  }

  /** If nothing is pulled after a part, it may be the last one. */
  lemma FullEnds(c: Config, s: State, bytes: seq<byte>, env: Env)
    requires c.Valid() && Live(c, s) && Working(s) && s.h.pull.Pull?
    requires 0 < |bytes| == s.a.req.bytesRemaining && Awaited(c, s.a, s.h.pull.kind, bytes) && |bytes| < TWO_32
    ensures var s1 := PullComplete(c, Full(s, bytes), env);
            HasAsset(s1) && s1.h.pull.NoPull? ==> MayBeLast(c, s.a.core, s.h.pull)
  {
    if s.h.pull.kind.PayloadHeaderKind? && !MayBeLast(c, s.a.core, s.h.pull) {
      FullRight(c, s, bytes);
      PullFields(c, s);
      var s0 := Full(s, bytes);
      var data := s0.a.scratch[..s0.a.req.bytesResponded];
      assert s0.a.req.kind == s.a.req.kind && s0.a.core == s.a.core && s0.a.selected == s.a.selected;
      assert s.h.pull == Pull(PayloadHeaderKind, s.a.selected);
      hide MayBeLast, Pulled, PullComplete, Full, Live, Awaited, Expected, WindowLen, WindowBase;
      HeaderFollowed(c, s0, data, env);
      PullCompleteIs(c, s0, env);
    }
  }

  lemma ResponseOrdered(c: Config, s: State, i: nat, bytes: seq<byte>, env: Env)
    requires c.Valid() && Live(c, s) && Honest(c, s, i, bytes) && Working(s) && Ordered(c, s)
    ensures Ordered(c, DataResponse(c, s, s.h.log[i].offset, bytes, env))
  {
    var offset := s.h.log[i].offset;
    DataResponseRight(c, s, i, bytes, env);
    if Passes(s.a, offset, bytes) {
      ResponseFits(c, s, i, bytes);
      ResponseBytes(c, s, i, bytes);
      hide *;
      CompletesOrNot(c, s, offset, bytes, env);
      if |bytes| == s.a.req.bytesRemaining {
        FullOrdered(c, s, bytes, env);
      } else {
        PullGoesOn(c, s, DataResponse(c, s, offset, bytes, env));
      }
    } else {
      hide Ordered, Live;
    }
  }

  /** An accepted response completes its pull or leaves it in progress. */
  lemma CompletesOrNot(c: Config, s: State, offset: u32, bytes: seq<byte>, env: Env)
    requires Live(c, s) && s.h.pull.Pull? && 0 < |bytes| <= s.a.req.bytesRemaining
    requires Awaited(c, s.a, s.h.pull.kind, bytes) && Passes(s.a, offset, bytes)
    ensures |bytes| < TWO_32
    ensures HasAsset(s)
    ensures var s1 := DataResponse(c, s, offset, bytes, env);
            if |bytes| == s.a.req.bytesRemaining then s1 == PullComplete(c, Full(s, bytes), env)
            else s1.h.pull == s.h.pull && Kept(s, s1)
  {
    LiveParts(c, s);
    AcceptFields(c, s.a, s.h.pull, s.f.busy, bytes);
    PullFields(c, s);
    KeptByContinue(c, Received(s, bytes), env);
    hide Live, Base, Slice, PullRight, Awaited, Expected, Region, WindowLen, WindowBase, Accept, PullComplete, LogKept;
    ContinueSame(c, Received(s, bytes), env);
    hide Continue;
  }

  lemma ContinueSame(c: Config, s: State, env: Env)
    ensures Continue(c, s, env).0.h.pull == s.h.pull
  {
  }

  // ----- Offers ----------------------------------------------------------------------

  lemma AdoptOrdered(c: Config, s: State, core: Core, env: Env)
    requires c.Valid() && s.connected && !s.h.overrun
    ensures Ordered(c, Adopt(c, s, core, env))
    ensures HasAsset(Adopt(c, s, core, env)) ==> Adopt(c, s, core, env).a.core == core
  {
    AdoptRight(c, s, core, env);
    var s0 := s.(a := NewAsset(c, core), h := NewHistory(s.h));
    KeptByTakeOn(c, s0, env);
    hide TakeOn, Live, LogKept;
    CallbackOrdered(c, s0, Adopt(c, s, core, env));
  }

  /** A merged asset that was left with a pull makes the same pull again. */
  lemma MergedPull(c: Config, s: State, env: Env)
    requires c.Valid() && Live(c, s) && s.f.state.Orphaned? && s.connected && s.h.pull.Pull?
    ensures var s1 := TakeOn(c, Merge(s), env);
            HasAsset(s1) ==> s1.h.pull == s.h.pull
  {
    MergedRight(c, s);
    var s1 := Merged(s);
    MergedCases(c, s1);
    hide Base, Live, PullRight, Healthy, RequestData, PayloadReady, PayloadRequestData, AssetMetadataComplete,
      Config.Valid, Resumable;
    var a := s1.a;
    if !a.hasHeader {
      SamePullAgain(c, s1, SbHeaderKind, 0, SB_HEADER_LEN, env);
    } else if a.ShouldRequestMetadata() {
      SamePullAgain(c, s1, SbMetadataKind, 0, a.sb.metadataLength, env);
    } else if a.payload.ShouldRequestMetadata() {
      MetadataAgain(c, s1, env);
    } else {
      PayloadAgain(c, s1, env);
    }
  }

  lemma SamePullAgain(c: Config, s: State, kind: Kind, rel: u32, needed: u32, env: Env)
    requires c.Valid() && Base(c, s) && !s.a.req.outstanding && Interrupted(c, s, kind)
    requires rel == WindowBase(s.a, kind) && needed == WindowLen(c, s.a, kind)
    ensures RequestData(c, s, kind, rel, needed, env).0.h.pull == Pull(kind, s.a.selected)
  {
    InterruptedNeeds(c, s, kind);
    hide Base, PullRight, Expected, WindowBase, WindowLen, RequestData, Config.Valid;
    RequestDataRight(c, s, kind, rel, needed, env);
    InterruptedValid(c, s, kind, rel, needed);
  }

  lemma InterruptedNeeds(c: Config, s: State, kind: Kind)
    requires Interrupted(c, s, kind)
    ensures Expected(c, s.a, kind) && (kind.PayloadDataKind? ==> s.f.busy)
  {
    hide Expected, Slice, WindowLen, WindowBase, Region;
  }

  lemma PayloadAgain(c: Config, s: State, env: Env)
    requires c.Valid() && Base(c, s) && !s.a.req.outstanding && Interrupted(c, s, PayloadDataKind)
    ensures PayloadRequestData(c, s, env).0.h.pull == Pull(PayloadDataKind, s.a.selected)
  {
    SamePullAgain(c, s, PayloadDataKind, s.a.recvd, WindowLen(c, s.a, PayloadDataKind), env);
    hide RequestData, Base, Interrupted;
  }

  lemma MetadataAgain(c: Config, s: State, env: Env)
    requires c.Valid() && Base(c, s) && Working(s) && !s.a.req.outstanding && Interrupted(c, s, PayloadMetadataKind)
    ensures PayloadReady(c, s, env).h.pull == Pull(PayloadMetadataKind, s.a.selected)
  {
    InterruptedNeeds(c, s, PayloadMetadataKind);
    MetadataNeeded(c, s);
    var s1 := s.(f := s.f.(applyFlags := APPLY_FLAGS_NEEDS_RESTART, hashed := [], payloadHash := NoHash()));
    assert Base(c, s1) by {
      hide Base;
      BaseFrame(c, s, s1);
    }
    SamePullAgain(c, s1, PayloadMetadataKind, 0, s.a.payload.hdr.metadataLength, env) by {
      hide Base, PullRight;
    }
    hide *;
    MetadataAsked(c, s, env);
  }

  /** The request that a wanted payload with metadata makes. */
  lemma MetadataAsked(c: Config, s: State, env: Env)
    requires c.wanted(s.a.payload.hdr) && s.a.payload.hdr.metadataLength > 0 && Working(s)
    ensures var s1 := s.(f := s.f.(applyFlags := APPLY_FLAGS_NEEDS_RESTART, hashed := [], payloadHash := NoHash()));
            PayloadReady(c, s, env).h.pull ==
            RequestData(c, s1, PayloadMetadataKind, 0, s.a.payload.hdr.metadataLength, env).0.h.pull
  {
    var s1 := s.(f := s.f.(applyFlags := APPLY_FLAGS_NEEDS_RESTART, hashed := [], payloadHash := NoHash()));
    RequestKeepsState(c, s1, PayloadMetadataKind, 0, s.a.payload.hdr.metadataLength, env);
    hide RequestData, NoHash, SetNextIndex, PayloadMetadataComplete, FullyStagedMark;
  }

  lemma RequestKeepsState(c: Config, s: State, kind: Kind, rel: u32, needed: u32, env: Env)
    ensures RequestData(c, s, kind, rel, needed, env).0.f == s.f
  {
  }

  lemma MetadataNeeded(c: Config, s: State)
    requires Base(c, s) && Expected(c, s.a, PayloadMetadataKind)
    ensures s.a.payload.hdr.metadataLength > 0
  {
    hide LogRight, Delivery, Tally, PastRight, SbHeaderOf, PayloadHeaderOf;
  }

  lemma MergeOrdered(c: Config, s: State, env: Env)
    requires c.Valid() && Live(c, s) && s.f.state.Orphaned? && s.connected && Ordered(c, s)
    ensures Ordered(c, TakeOn(c, Merge(s), env))
    ensures HasAsset(TakeOn(c, Merge(s), env)) ==> TakeOn(c, Merge(s), env).a.core == s.a.core
  {
    TakeOnMergedRight(c, s, env);
    KeptByTakeOn(c, Merge(s), env);
    hide TakeOn, Live, LogKept, LogOrdered, IsPart, Rank;
    if s.h.pull.Pull? {
      MergedPull(c, s, env);
      PullGoesOn(c, Merge(s), TakeOn(c, Merge(s), env));
    } else {
      CallbackOrdered(c, Merge(s), TakeOn(c, Merge(s), env));
    }
  }

  /** Assets come from offers. */
  predicate CoreOffered(s: State, e: Event, s1: State) {
    HasAsset(s1) ==> (HasAsset(s) && s1.a.core == s.a.core) || (e.Offer? && s1.a.core == e.core)
  }

  lemma OfferOrdered(c: Config, s: State, e: Event)
    requires c.Valid() && Inv(c, s) && Ordered(c, s) && s.connected && e.Offer?
    ensures var s1 := Offered(c, s, e.core, e.acceptable, e.env);
            Ordered(c, s1) && CoreOffered(s, e, s1)
  {
    hide Live, Adopt, TakeOn, Merge, Config.Valid, LogOrdered, AwaitsEnd, IsPart;
    if e.acceptable && (s.f.state.NoAsset? || (s.f.state.Orphaned? && s.a.core != e.core)) {
      AdoptOrdered(c, s, e.core, e.env);
    } else if e.acceptable && s.f.state.Orphaned? {
      MergeOrdered(c, s, e.env);
    }
  }

  // ----- Runs ------------------------------------------------------------------------

  /** An event that changes neither log nor request. */
  lemma SameOrder(c: Config, s: State, s1: State)
    requires Ordered(c, s) && s1.h == s.h && s1.a == s.a.(attached := s1.a.attached)
    requires HasAsset(s1) ==> HasAsset(s)
    ensures Ordered(c, s1)
  {
    hide LogOrdered, IsPart;
  }

  lemma RemovedOrder(c: Config, s: State)
    requires Ordered(c, s)
    ensures Ordered(c, Remove(s))
  {
  }

  lemma ResumeOrdered(c: Config, s: State, env: Env)
    requires Live(c, s) && Ordered(c, s)
    ensures var s1 := Continue(c, s.(allowed := true), env).0;
            Ordered(c, s1) && s1.a.core == s.a.core
  {
    var s0 := s.(allowed := true);
    LiveParts(c, s);
    assert s.h.pull.Pull? || s.a.req.bytesRemaining == 0;
    hide Base, Phase, PullRight, LogOrdered, LogKept, IsPart;
    KeptByContinue(c, s0, env);
    ContinueSame(c, s0, env);
    ContinueCore(c, s0, env);
    SameOrder(c, s, s0);
    hide Continue, Ordered;
    PullGoesOn(c, s0, Continue(c, s0, env).0);
  }

  lemma ContinueCore(c: Config, s: State, env: Env)
    ensures Continue(c, s, env).0.a.core == s.a.core
  {
  }

  lemma WorkingOrNot(c: Config, s: State, i: nat, bytes: seq<byte>, env: Env)
    requires Live(c, s) && Honest(c, s, i, bytes) && s.a.attached
    ensures Working(s) || !Passes(s.a, s.h.log[i].offset, bytes)
  {
    if Passes(s.a, s.h.log[i].offset, bytes) {
      ResponseFits(c, s, i, bytes);
      hide Base, PullRight, Honest, HashOf, FlagsOf;
    }
  }

  lemma ResponseCore(c: Config, s: State, i: nat, bytes: seq<byte>, env: Env)
    requires c.Valid() && Live(c, s) && Honest(c, s, i, bytes) && s.a.attached && Ordered(c, s)
    ensures var s1 := DataResponse(c, s, s.h.log[i].offset, bytes, env);
            Ordered(c, s1) && (HasAsset(s1) ==> HasAsset(s) && s1.a.core == s.a.core)
  {
    WorkingOrNot(c, s, i, bytes, env);
    if Passes(s.a, s.h.log[i].offset, bytes) {
      ResponseFits(c, s, i, bytes);
      ResponseBytes(c, s, i, bytes);
      ResponseOrdered(c, s, i, bytes, env);
      CompletesOrNot(c, s, s.h.log[i].offset, bytes, env);
      KeptByPullComplete(c, Full(s, bytes), env);
      FullCore(s, bytes);
      hide DataResponse, Live, Ordered, Honest, PullComplete, Full, LogKept, Awaited;
    } else {
      hide Live, Ordered, Honest;
    }
  }

  lemma FullCore(s: State, bytes: seq<byte>)
    requires |bytes| < TWO_32
    ensures Full(s, bytes).a.core == s.a.core
  {
  }

  /** An event keeps the order, and the asset is that of the offer. */
  ghost predicate OrderedAfter(c: Config, s: State, e: Event) {
    Ordered(c, Step(c, s, e)) && CoreOffered(s, e, Step(c, s, e))
  }

  lemma LinkOrdered(c: Config, s: State, e: Event)
    requires Ordered(c, s) && (e.Disconnect? || e.Rescind? || e.Connect? || e.Pause? || e.Apply?)
    ensures OrderedAfter(c, s, e)
  {
    hide Ordered, Orphan, Remove;
    match e
    case Disconnect =>
      if s.connected && HasAsset(s) && s.a.attached {
        OrphanOrdered(c, s);
      } else {
        SameOrder(c, s, Step(c, s, e));
      }
    case Rescind =>
      if s.connected && HasAsset(s) && s.a.attached {
        RemovedOrder(c, s);
        RemovedCore(s);
      }
    case _ => SameOrder(c, s, Step(c, s, e));
  }

  lemma ResumedOrdered(c: Config, s: State, env: Env)
    requires c.Valid() && Inv(c, s) && Ordered(c, s)
    ensures OrderedAfter(c, s, Resume(env))
  {
    hide Ordered, Continue, Inv, Config.Valid;
    if s.connected && HasAsset(s) && s.a.attached {
      LiveAsset(c, s);
      ResumeOrdered(c, s, env);
    } else {
      SameOrder(c, s, Step(c, s, Resume(env)));
    }
  }

  lemma AnsweredOrdered(c: Config, s: State, i: nat, bytes: seq<byte>, env: Env)
    requires c.Valid() && Inv(c, s) && Ordered(c, s) && Fair(c, s, Response(i, bytes, env))
    ensures OrderedAfter(c, s, Response(i, bytes, env))
  {
    hide Ordered, Inv, Config.Valid, Honest, DataResponse;
    if s.connected && HasAsset(s) && s.a.attached {
      LiveAsset(c, s);
      HonestInLog(c, s, i, bytes);
      ResponseCore(c, s, i, bytes, env);
    }
  }

  lemma HonestInLog(c: Config, s: State, i: nat, bytes: seq<byte>)
    requires Honest(c, s, i, bytes)
    ensures i < |s.h.log|
  {
  }

  lemma StepKeepsOrdered(c: Config, s: State, e: Event)
    requires c.Valid() && Inv(c, s) && Fair(c, s, e) && Ordered(c, s)
    ensures Ordered(c, Step(c, s, e)) && CoreOffered(s, e, Step(c, s, e))
  {
    hide Ordered, Inv, Config.Valid, Fair, Step, CoreOffered;
    match e
    case Offer(core, acceptable, env) => OfferedOrdered(c, s, e);
    case Response(i, bytes, env) => AnsweredOrdered(c, s, i, bytes, env);
    case Resume(env) => ResumedOrdered(c, s, env);
    case _ => LinkOrdered(c, s, e);
  }

  lemma OfferedOrdered(c: Config, s: State, e: Event)
    requires c.Valid() && Inv(c, s) && Ordered(c, s) && e.Offer?
    ensures OrderedAfter(c, s, e)
  {
    hide Ordered, Inv, Config.Valid, Offered;
    if s.connected {
      OfferOrdered(c, s, e);
    }
  }

  lemma LiveAsset(c: Config, s: State)
    requires Inv(c, s) && HasAsset(s)
    ensures Live(c, s)
  {
    hide Live;
  }

  lemma RemovedCore(s: State)
    ensures !HasAsset(Remove(s))
  {
  }

  lemma OrphanOrdered(c: Config, s: State)
    requires Ordered(c, s) && HasAsset(s)
    ensures var s1 := Orphan(s.(connected := false));
            Ordered(c, s1) && s1.a.core == s.a.core
  {
    hide LogOrdered, IsPart, AwaitsEnd;
    AwaitsFrame(c, s.a, Orphan(s.(connected := false)).a, s.h.last);
  }

  lemma AwaitsFrame(c: Config, a: Asset, a1: Asset, last: Pull)
    requires a1 == a.(attached := a1.attached)
    ensures AwaitsEnd(c, a1, last) == AwaitsEnd(c, a, last)
  {
  }

  lemma {:induction false} RunKeepsOrdered(c: Config, events: seq<Event>)
    requires c.Valid() && FairRun(c, events)
    ensures Ordered(c, Run(c, events))
  {
    hide Inv, Fair, Step, Config.Valid, FairRun, CoreOffered;
    if events == [] {
      InitOrdered(c);
    } else {
      var past := events[..|events| - 1];
      FairPrefix(c, events);
      hide Ordered;
      RunKeepsInv(c, past);
      RunKeepsOrdered(c, past);
      StepKeepsOrdered(c, Run(c, past), events[|events| - 1]);
    }
  }

  lemma InitOrdered(c: Config)
    ensures Ordered(c, Init(c))
  {
  }

  /** In no fair run a response leaves the scratch buffer. */
  lemma NeverOverrun(c: Config, events: seq<Event>)
    requires c.Valid() && FairRun(c, events)
    ensures !Run(c, events).h.overrun
  {
    RunKeepsOrdered(c, events);
  }
}
