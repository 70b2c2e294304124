/** Honest responses keep the invariant; what is pulled are the bytes of the image. */
module UarpResponses {
  import opened Bytes
  import opened UarpImage
  import opened Uarp
  import opened UarpInvariant
  import opened UarpSteps

  /** What the hash context and the expected hash are while a pull is in progress. */
  predicate Prepared(c: Config, s: State, kind: Kind) {
    match kind
    case PayloadMetadataKind =>
      s.f.state.Active? ==>
        s.f.hashed == [] && s.f.payloadHash == NoHash() && s.f.applyFlags == APPLY_FLAGS_NEEDS_RESTART
    case PayloadDataKind => s.f.busy && Fed(c, s)
    case _ => true
  }

  /** The pull is over and the scratch buffer holds the bytes of the image. */
  predicate Pulled(c: Config, s: State, kind: Kind, data: seq<byte>) {
    && Idle(c, s) && Expected(c, s.a, kind) && Prepared(c, s, kind)
    && |data| == WindowLen(c, s.a, kind) <= c.window
    && data == Slice(ImageOf(c, s.a), Region(s.a, kind).0 + WindowBase(s.a, kind), |data|)
  }

  // ----- Completed pulls ----------------------------------------------------------

  /** The asset once the SuperBinary header is held. */
  function WithHeader(s: State, sb: SbHeader): State {
    s.(a := s.a.(sb := sb, hasHeader := true, needsMetadata := s.a.needsMetadata || sb.metadataLength > 0))
  }

  lemma WithHeaderRight(c: Config, s: State, sb: SbHeader)
    requires Idle(c, s) && !s.a.hasHeader && sb == SbHeaderOf(ImageOf(c, s.a))
    ensures var s1 := WithHeader(s, sb); Idle(c, s1) && !s1.a.hasMetadata && s1.a.selected == -1
  {
    hide SbHeaderOf, PayloadHeaderOf, StartOf, BoundsOf, Slice, Tally, PastRight;
    var s1 := WithHeader(s, sb);
    forall i | 0 <= i < |s.h.log| ensures EntryRight(c, s1.a, s.h.log[i]) {
      assert EntryRight(c, s.a, s.h.log[i]);
    }
  }

  lemma SbHeaderCompleteRight(c: Config, s: State, data: seq<byte>, env: Env)
    requires c.Valid() && Pulled(c, s, SbHeaderKind, data)
    ensures |data| == SB_HEADER_LEN && Inv(c, SbHeaderComplete(c, s, data, env))
  {
    var sb := ParseSbHeader(data);
    assert sb == SbHeaderOf(ImageOf(c, s.a)) && !s.a.hasHeader;
    WithHeaderRight(c, s, sb);
    hide Idle, Live, AssetReady, ParseSbHeader, Slice, SbHeaderOf, Pulled, Config.Valid;
    AssetReadyRight(c, WithHeader(s, sb), env);
  }

  lemma WithMetadataRight(c: Config, s: State)
    requires Idle(c, s) && s.a.hasHeader
    ensures Idle(c, s.(a := s.a.(hasMetadata := true)))
  {
    hide SbHeaderOf, PayloadHeaderOf, StartOf, BoundsOf, Slice, Tally, PastRight;
    var s1 := s.(a := s.a.(hasMetadata := true));
    forall i | 0 <= i < |s.h.log| ensures EntryRight(c, s1.a, s.h.log[i]) {
      assert EntryRight(c, s.a, s.h.log[i]);
    }
  }

  /** Without another pull an asset is stuck, but still right. */
  lemma StuckRight(c: Config, s: State)
    requires Idle(c, s) && (s.f.state.Active? ==> s.a.selected == -1 || Stuck(c, s))
    ensures Live(c, s)
  {
    hide Base, HashOf, FlagsOf;
  }

  lemma SbMetadataCompleteRight(c: Config, s: State, data: seq<byte>, env: Env)
    requires c.Valid() && Pulled(c, s, SbMetadataKind, data)
    ensures Live(c, SbMetadataComplete(c, s, data, env))
  {
    WithMetadataRight(c, s);
    hide Idle, Live, AssetMetadataComplete, ParseTlvs, Slice, WindowLen, Region, WindowBase, Config.Valid;
    var s1 := s.(a := s.a.(hasMetadata := true));
    if ParseTlvs(data).corrupt {
      StuckRight(c, s1);
    } else {
      AssetMetadataCompleteRight(c, s1, env);
    }
  }

  /** The asset once the payload header is held. */
  function WithPayloadHeader(s: State, hdr: PayloadHeader): State {
    s.(a := s.a.(hasPayloadHeader := true,
                 payload := s.a.payload.(
                   hdr := hdr, needsMetadata := s.a.payload.needsMetadata || hdr.metadataLength > 0)))
  }

  lemma WithPayloadHeaderRight(c: Config, s: State, hdr: PayloadHeader)
    requires Idle(c, s) && Expected(c, s.a, PayloadHeaderKind)
    requires hdr == PayloadHeaderOf(ImageOf(c, s.a), s.a.selected)
    ensures var s1 := WithPayloadHeader(s, hdr);
            Idle(c, s1) && s1.a.recvd == 0 && !s1.a.payload.hasMetadata && !s1.a.req.outstanding
  {
    hide SbHeaderOf, PayloadHeaderOf, StartOf, BoundsOf, Tally, PastRight;
    var s1 := WithPayloadHeader(s, hdr);
    assert Slice(ImageOf(c, s.a), hdr.offset, 0) == [];
    hide Slice;
    forall i | 0 <= i < |s.h.log| ensures EntryRight(c, s1.a, s.h.log[i]) {
      assert EntryRight(c, s.a, s.h.log[i]);
    }
  }

  lemma PayloadHeaderParsed(c: Config, s: State, data: seq<byte>)
    requires Pulled(c, s, PayloadHeaderKind, data)
    ensures |data| == PAYLOAD_HEADER_LEN && s.a.selected >= 0
    ensures ParsePayloadHeader(data) == PayloadHeaderOf(ImageOf(c, s.a), s.a.selected)
  {
    hide SbHeaderOf, ParsePayloadHeader, Slice, LogRight, Delivery, Tally, PastRight, Place;
    assert s.a.sb == SbHeaderOf(ImageOf(c, s.a)) by {
      hide PayloadHeaderOf;
    }
    hide Headers, Base;
  }

  lemma PayloadHeaderCompleteRight(c: Config, s: State, data: seq<byte>, env: Env)
    requires c.Valid() && Pulled(c, s, PayloadHeaderKind, data)
    ensures |data| == PAYLOAD_HEADER_LEN && Inv(c, PayloadHeaderComplete(c, s, data, env))
  {
    PayloadHeaderParsed(c, s, data);
    var hdr := ParsePayloadHeader(data);
    WithPayloadHeaderRight(c, s, hdr);
    var s1 := WithPayloadHeader(s, hdr);
    assert Base(c, s1) && Working(s1) && Quiet(s1);
    hide Base, Idle, Live, PayloadReady, ParsePayloadHeader, Pulled, PayloadHeaderOf, Config.Valid, Quiet, Working,
      Interrupted;
    PayloadReadyRight(c, s1, env);
  }

  /** The asset once the payload's metadata is held and its TLVs are read. */
  function WithPayloadMetadata(s: State, tlvs: seq<Tlv>): State {
    ReadTlvs(s.(a := s.a.(hasMetadata := true, payload := s.a.payload.(hasMetadata := true))), tlvs)
  }

  lemma WithPayloadMetadataRight(c: Config, s: State, tlvs: seq<Tlv>)
    requires Idle(c, s) && Expected(c, s.a, PayloadMetadataKind)
    ensures var s1 := WithPayloadMetadata(s, tlvs);
            && Idle(c, s1) && s1.a.hasPayloadHeader && s1.a.payload.hasMetadata && s1.a.recvd == 0
            && c.wanted(s1.a.payload.hdr) && s1.a.selected == s.a.selected >= 0 && s1.a.core == s.a.core
            && (s1.f.state.Active? ==>
                  s.f.state.Active? && s1.f.hashed == s.f.hashed && s1.f.payloadHash == HashFrom(tlvs, s.f.payloadHash)
                    && s1.f.applyFlags == FlagsFrom(tlvs, s.f.applyFlags))
  {
    hide SbHeaderOf, PayloadHeaderOf, StartOf, BoundsOf, Slice, Tally, PastRight, HashFrom, FlagsFrom, AnyBad;
    var s1 := WithPayloadMetadata(s, tlvs);
    forall i | 0 <= i < |s.h.log| ensures EntryRight(c, s1.a, s.h.log[i]) {
      assert EntryRight(c, s.a, s.h.log[i]);
    }
  }

  lemma MetadataParsed(c: Config, s: State, data: seq<byte>)
    requires Pulled(c, s, PayloadMetadataKind, data)
    ensures s.a.selected >= 0
    ensures HashFrom(ParseTlvs(data).tlvs, NoHash()) == HashOf(ImageOf(c, s.a), s.a.selected)
    ensures FlagsFrom(ParseTlvs(data).tlvs, APPLY_FLAGS_NEEDS_RESTART) == FlagsOf(ImageOf(c, s.a), s.a.selected)
  {
    hide PayloadHeaderOf, ParseTlvs, HashFrom, FlagsFrom, Slice, LogRight, Delivery, Tally, PastRight, SbHeaderOf;
    assert s.a.payload.hdr == PayloadHeaderOf(ImageOf(c, s.a), s.a.selected);
    hide Headers;
  }

  lemma PayloadMetadataPullRight(c: Config, s: State, data: seq<byte>, env: Env)
    requires c.Valid() && Pulled(c, s, PayloadMetadataKind, data)
    ensures Live(c, PayloadMetadataPullComplete(c, s, data, env))
  {
    var m := ParseTlvs(data);
    MetadataParsed(c, s, data);
    WithPayloadMetadataRight(c, s, m.tlvs);
    hide Idle, Live, ReadTlvs, PayloadMetadataComplete, ParseTlvs, HashFrom, HashOf, Slice, NoHash, Config.Valid,
      Expected, FlagsFrom, FlagsOf;
    var s1 := WithPayloadMetadata(s, m.tlvs);
    if m.corrupt {
      StuckRight(c, s1);
    } else {
      PayloadMetadataCompleteRight(c, s1, env);
    }
  }

  /** The scratch buffer is handed to the callback of the pull. */
  lemma PullCompleteRight(c: Config, s: State, env: Env)
    requires c.Valid() && s.a.req.bytesResponded <= |s.a.scratch|
    requires Pulled(c, s, s.a.req.kind, s.a.scratch[..s.a.req.bytesResponded])
    ensures Inv(c, PullComplete(c, s, env))
  {
    var data := s.a.scratch[..s.a.req.bytesResponded];
    hide Pulled, Live, IsWindow, Fed, Idle, Config.Valid, SbHeaderComplete, SbMetadataComplete, PayloadHeaderComplete,
      PayloadMetadataPullComplete, WindowComplete;
    match s.a.req.kind
    case SbHeaderKind => SbHeaderCompleteRight(c, s, data, env);
    case SbMetadataKind => SbMetadataCompleteRight(c, s, data, env);
    case PayloadHeaderKind => PayloadHeaderCompleteRight(c, s, data, env);
    case PayloadMetadataKind => PayloadMetadataPullRight(c, s, data, env);
    case PayloadDataKind =>
      WindowPulled(c, s, data);
      WindowCompleteRight(c, s, data, env);
  }

  /** A completed pull of the right length is handed on by its kind. */
  lemma PullCompleteIs(c: Config, s: State, env: Env)
    requires s.a.req.bytesResponded <= |s.a.scratch|
    requires s.a.req.kind.SbHeaderKind? ==> s.a.req.bytesResponded == SB_HEADER_LEN
    requires s.a.req.kind.PayloadHeaderKind? ==> s.a.req.bytesResponded == PAYLOAD_HEADER_LEN
    ensures var data := s.a.scratch[..s.a.req.bytesResponded];
            PullComplete(c, s, env) ==
            match s.a.req.kind
            case SbHeaderKind => SbHeaderComplete(c, s, data, env)
            case SbMetadataKind => SbMetadataComplete(c, s, data, env)
            case PayloadHeaderKind => PayloadHeaderComplete(c, s, data, env)
            case PayloadMetadataKind => PayloadMetadataPullComplete(c, s, data, env)
            case PayloadDataKind => WindowComplete(c, s, data, env)
  {
    hide SbHeaderComplete, SbMetadataComplete, PayloadHeaderComplete, PayloadMetadataPullComplete, WindowComplete;
  }

  /** A completed pull of payload bytes is a window. */
  lemma WindowPulled(c: Config, s: State, data: seq<byte>)
    requires Pulled(c, s, PayloadDataKind, data)
    ensures IsWindow(c, s, data) && Idle(c, s) && Fed(c, s) && |data| < TWO_32
  {
    hide Idle, Slice, Expected, WindowLen;
  }

  // ----- Responses -----------------------------------------------------------------

  /**
   What a controller answers: the response belongs to request message `i` and carries
   bytes of the image, at least one and no more than were asked for.
   */
  predicate Truthful(c: Config, s: State, i: nat, bytes: seq<byte>) {
    && i < |s.h.log|
    && var e := s.h.log[i];
    && 0 < |bytes| <= e.len
    && e.offset + |bytes| <= |ImageOf(c, s.a)|
    && bytes == ImageOf(c, s.a)[e.offset..e.offset + |bytes|]
  }

  /**
   An honest response is truthful, and if it answers a message of another pull it is
   not at the awaited offset; the code does not check whether a request is outstanding.
   */
  predicate Honest(c: Config, s: State, i: nat, bytes: seq<byte>) {
    && Truthful(c, s, i, bytes)
    && (s.h.log[i].pull != s.h.pull ==> s.h.log[i].offset != s.a.req.currentOffset)
  }

  /** Where the part of the image that a pull asks for begins. */
  function From(image: seq<byte>, p: Pull): nat
    requires p.Pull?
  {
    StartOf(image, p) + BoundsOf(image, p).0
  }

  /** Where that part ends. */
  function To(image: seq<byte>, p: Pull): nat
    requires p.Pull?
  {
    StartOf(image, p) + BoundsOf(image, p).1
  }

  /** The parts of the image that two pulls ask for do not overlap, nor wrap around. */
  predicate Apart(image: seq<byte>, p: Pull, q: Pull)
    requires p.Pull? && q.Pull?
  {
    && To(image, p) <= TWO_32 && To(image, q) <= TWO_32
    && (To(image, p) <= From(image, q) || To(image, q) <= From(image, p))
  }

  /**
   For a SuperBinary whose parts do not overlap a late response to another pull is
   never at the awaited offset while a pull is in progress.
   */
  lemma OtherPullMisses(c: Config, s: State, i: nat)
    requires Live(c, s) && s.h.pull.Pull? && i < |s.h.log|
    requires s.h.log[i].pull.Pull? && Apart(ImageOf(c, s.a), s.h.log[i].pull, s.h.pull)
    ensures s.h.log[i].offset != s.a.req.currentOffset
  {
    var e := s.h.log[i];
    assert EntryRight(c, s.a, e);
    RegionRight(c, s.a, s.h.pull);
    hide SbHeaderOf, PayloadHeaderOf, StartOf, BoundsOf, Slice, LogRight, Headers, Delivery, Tally, PastRight, Healthy;
  }

  /** A response to the pull in progress fits what is still missing of the window. */
  lemma ResponseFits(c: Config, s: State, i: nat, bytes: seq<byte>)
    requires Live(c, s) && Honest(c, s, i, bytes) && Passes(s.a, s.h.log[i].offset, bytes)
    ensures s.h.pull.Pull? && 0 < |bytes| <= s.a.req.bytesRemaining
    ensures s.h.log[i].at == s.a.req.relativeOffset + s.a.req.bytesResponded
  {
    var e := s.h.log[i];
    assert EntryRight(c, s.a, e);
    RegionRight(c, s.a, e.pull);
    hide SbHeaderOf, PayloadHeaderOf, StartOf, BoundsOf, Slice, LogRight, Headers, Delivery, Tally, PastRight, Healthy;
  }

  /** The bytes of the image that the window misses next. */
  predicate Awaited(c: Config, a: Asset, kind: Kind, bytes: seq<byte>) {
    bytes == Slice(ImageOf(c, a), Region(a, kind).0 + (a.req.relativeOffset + a.req.bytesResponded), |bytes|)
  }

  /** The bytes of the response are those the window misses. */
  lemma ResponseBytes(c: Config, s: State, i: nat, bytes: seq<byte>)
    requires c.Valid() && Live(c, s) && Honest(c, s, i, bytes) && Passes(s.a, s.h.log[i].offset, bytes)
    requires s.h.pull.Pull? && s.h.log[i].at == s.a.req.relativeOffset + s.a.req.bytesResponded < TWO_32
    ensures Awaited(c, s.a, s.h.pull.kind, bytes)
  {
    var e := s.h.log[i];
    PullFields(c, s);
    LiveParts(c, s);
    hide SbHeaderOf, PayloadHeaderOf, BoundsOf, StartOf, Headers, Delivery, Tally, PastRight, Slice, Live, PullRight,
      Phase, Region, WindowLen, WindowBase, Expected;
    assert EntryRight(c, s.a, e);
    hide LogRight;
    RegionRight(c, s.a, e.pull);
    SliceWrapped(ImageOf(c, s.a), e.offset, StartOf(ImageOf(c, s.a), e.pull), e.at, |bytes|);
  }

  /** The front of the scratch buffer after accepting a response. */
  lemma ScratchFront(scratch: seq<byte>, at: nat, bytes: seq<byte>)
    requires at + |bytes| <= |scratch|
    ensures Overwrite(scratch, at, bytes)[..at + |bytes|] == scratch[..at] + bytes
  {
  }

  /** The request and the front of the scratch buffer after an accepted response. */
  predicate Accepted(c: Config, a: Asset, kind: Kind, n: nat, a1: Asset) {
    && a1.req == a.req.(outstanding := false, bytesResponded := a1.req.bytesResponded,
                        bytesRemaining := a1.req.bytesRemaining, currentOffset := a1.req.currentOffset)
    && a1.req.bytesResponded == a.req.bytesResponded + n <= a.req.bytesRequested <= c.window
    && a1.req.bytesRemaining == a.req.bytesRequested - a1.req.bytesResponded
    && a1.req.currentOffset == Sum32(a.req.absoluteOffset, a1.req.bytesResponded)
    && |a1.scratch| == c.window
    && a1.scratch[..a1.req.bytesResponded] ==
       Slice(ImageOf(c, a), Region(a, kind).0 + a.req.relativeOffset, a1.req.bytesResponded)
  }

  lemma AcceptFields(c: Config, a: Asset, pull: Pull, busy: bool, bytes: seq<byte>)
    requires PullRight(c, a, pull, busy) && pull.Pull? && 0 < |bytes| <= a.req.bytesRemaining
    requires Awaited(c, a, pull.kind, bytes)
    ensures |bytes| < TWO_32
    ensures var a1 := Accept(a, bytes);
            && a1 == a.(req := a1.req, scratch := a1.scratch) && |a1.scratch| == |a.scratch|
            && Accepted(c, a, pull.kind, |bytes|, a1)
  {
    var start := Region(a, pull.kind).0 + a.req.relativeOffset;
    var at := a.req.bytesResponded;
    SliceAppend(ImageOf(c, a), start, at, start + at, |bytes|);
    ScratchFront(a.scratch, at, bytes);
    hide Slice, Region, WindowLen, WindowBase, Expected, Overwrite;
  }

  /** A response that does not complete the window leaves the pull right. */
  lemma AcceptRight(c: Config, a: Asset, pull: Pull, busy: bool, bytes: seq<byte>)
    requires PullRight(c, a, pull, busy) && pull.Pull? && 0 < |bytes| < a.req.bytesRemaining
    requires Awaited(c, a, pull.kind, bytes)
    ensures |bytes| < TWO_32 && PullRight(c, Accept(a, bytes), pull, busy)
  {
    AcceptFields(c, a, pull, busy, bytes);
    hide Slice, Accept;
    var a1 := Accept(a, bytes);
    AssetFrame(c, a, a1, pull.kind);
    hide WindowLen, WindowBase, Region, Expected;
  }

  /** The state after a response that completes the window. */
  function Full(s: State, bytes: seq<byte>): State
    requires |bytes| < TWO_32
  {
    Finished(Received(s, bytes))
  }

  lemma FullIdle(c: Config, s: State, bytes: seq<byte>)
    requires Live(c, s) && Working(s) && s.h.pull.Pull? && 0 < |bytes| == s.a.req.bytesRemaining
    requires Awaited(c, s.a, s.h.pull.kind, bytes)
    ensures |bytes| < TWO_32 && Idle(c, Full(s, bytes))
  {
    AcceptFields(c, s.a, s.h.pull, s.f.busy, bytes);
    assert Base(c, s) && s.a.req.bytesRemaining == s.a.req.bytesRequested - s.a.req.bytesResponded;
    hide Slice, Accept, Base, PullRight, Region, Live, Awaited;
    BaseFrame(c, s, Full(s, bytes));
  }

  lemma FullRight(c: Config, s: State, bytes: seq<byte>)
    requires Live(c, s) && Working(s) && s.h.pull.Pull? && 0 < |bytes| == s.a.req.bytesRemaining
    requires Awaited(c, s.a, s.h.pull.kind, bytes)
    ensures |bytes| < TWO_32
    ensures var s1 := Full(s, bytes);
            && s1.a.req.bytesResponded == s1.a.req.bytesRequested <= |s1.a.scratch|
            && Pulled(c, s1, s1.a.req.kind, s1.a.scratch[..s1.a.req.bytesResponded])
  {
    hide Live, Awaited;
    AcceptFields(c, s.a, s.h.pull, s.f.busy, bytes) by {
      assert PullRight(c, s.a, s.h.pull, s.f.busy) by { LiveParts(c, s); }
    }
    FullIdle(c, s, bytes);
    PullFields(c, s);
    hide Slice, Accept, Idle, WindowLen, WindowBase, Region, Expected, Prepared;
    var s1 := Full(s, bytes);
    AssetFrame(c, s.a, s1.a, s.h.pull.kind);
    PreparedRight(c, s, s1);
  }

  lemma LiveParts(c: Config, s: State)
    requires Live(c, s)
    ensures Base(c, s) && PullRight(c, s.a, s.h.pull, s.f.busy) && Phase(c, s)
  {
    hide Base, PullRight, Phase;
  }

  /** The parts of the pull in progress. */
  lemma PullFields(c: Config, s: State)
    requires Live(c, s) && s.h.pull.Pull?
    ensures var kind := s.h.pull.kind;
            && s.a.req.kind == kind && s.h.pull.index == s.a.selected && Expected(c, s.a, kind)
            && s.a.req.bytesRequested == WindowLen(c, s.a, kind) <= c.window
            && s.a.req.relativeOffset == WindowBase(s.a, kind)
            && s.a.req.bytesRemaining == s.a.req.bytesRequested - s.a.req.bytesResponded
  {
    hide Base, Slice, Region, WindowLen, WindowBase, Expected;
  }

  lemma PreparedRight(c: Config, s: State, s1: State)
    requires Live(c, s) && s.h.pull.Pull? && s1.f == s.f
    requires s1.h == s.h.(pull := NoPull, last := s1.h.last, overrun := s1.h.overrun)
    requires s1.a == s.a.(req := s1.a.req, scratch := s1.a.scratch)
    ensures Prepared(c, s1, s.h.pull.kind)
  {
    hide Base, Slice, Region, WindowLen, WindowBase, Expected, HashOf, FlagsOf;
  }

  lemma DataResponseRight(c: Config, s: State, i: nat, bytes: seq<byte>, env: Env)
    requires c.Valid() && Live(c, s) && Honest(c, s, i, bytes) && s.a.attached
    ensures Inv(c, DataResponse(c, s, s.h.log[i].offset, bytes, env))
  {
    if Passes(s.a, s.h.log[i].offset, bytes) {
      ResponseFits(c, s, i, bytes);
      ResponseBytes(c, s, i, bytes);
      if |bytes| == s.a.req.bytesRemaining {
        FullRight(c, s, bytes);
        hide Live, Pulled, Accept, PullComplete, Honest, Passes, Config.Valid;
        PullCompleteRight(c, Full(s, bytes), env);
      } else {
        PartRight(c, s, bytes, env);
      }
    }
  }

  lemma PartRight(c: Config, s: State, bytes: seq<byte>, env: Env)
    requires c.Valid() && Live(c, s) && s.h.pull.Pull? && 0 < |bytes| < s.a.req.bytesRemaining
    requires Awaited(c, s.a, s.h.pull.kind, bytes)
    ensures |bytes| < TWO_32
    ensures Live(c, Continue(c, s.(a := Accept(s.a, bytes)), env).0)
  {
    AcceptRight(c, s.a, s.h.pull, s.f.busy, bytes);
    AcceptFields(c, s.a, s.h.pull, s.f.busy, bytes);
    LiveParts(c, s);
    hide Slice, Accept, Accepted, Awaited, Base, PullRight, Continue, HashOf, FlagsOf, Config.Valid, Region;
    var s1 := s.(a := Accept(s.a, bytes));
    BaseFrame(c, s, s1);
    var n := ContinueRight(c, s1, env);
  }
}
