/**
 What follows every part of a SuperBinary, said of the image alone: the next part to
 ask for, or the end of the transfer. Every answer of the controller leads there.
 */
module UarpPlan {
  import opened Bytes
  import opened UarpImage
  import opened Uarp
  import opened UarpInvariant
  import opened UarpSteps
  import opened UarpResponses
  import opened UarpEvents
  import opened UarpTheorems

  // ----- The plan --------------------------------------------------------------------

  /**
   The window to ask for, `n` bytes from `at` on in the region of the part; or nothing
   more, for want of readable metadata; or the removal, the failure, the staging or the
   application of the asset.
   */
  datatype Next = Ask(pull: Pull, at: nat, n: nat) | Silence | Reject | Fail | Stage | ApplyNow

  /** The header of payload `index`, if there is one. */
  function AskHeader(core: Core, image: seq<byte>, index: nat): Next {
    if index < core.numPayloads && (index + 1) * PAYLOAD_HEADER_LEN <= SbHeaderOf(image).payloadHeadersLength then
      Ask(Pull(PayloadHeaderKind, index), index * PAYLOAD_HEADER_LEN, PAYLOAD_HEADER_LEN)
    else Fail
  }

  /** Metadata is asked for at once, and must fit the window. */
  function AskMetadata(c: Config, pull: Pull, length: nat): Next {
    if length <= c.window then Ask(pull, 0, length) else Fail
  }

  /** The window of payload `index` that begins at `at`; an empty payload has none. */
  function AskWindow(c: Config, image: seq<byte>, index: nat, at: nat): Next {
    var length := PayloadHeaderOf(image, index).length;
    if at < length then Ask(Pull(PayloadDataKind, index), at, Min(length - at, c.window)) else Fail
  }

  /** The writer is started, after another payload's writing was finished, and the first window asked for. */
  function StartPayload(c: Config, image: seq<byte>, index: nat, busy: bool, env: Env): Next {
    if (busy && !env.finishOk) || !env.startOk then Fail else AskWindow(c, image, index, 0)
  }

  function AfterSbHeader(c: Config, core: Core, image: seq<byte>): Next {
    var sb := SbHeaderOf(image);
    if || sb.formatVersion != 2 || sb.headerLength != 44
       || Sum32(sb.metadataOffset, sb.metadataLength) > core.totalLength
       || Sum32(sb.payloadHeadersOffset, sb.payloadHeadersLength) > core.totalLength
    then Reject
    else if sb.metadataLength > 0 then AskMetadata(c, Pull(SbMetadataKind, -1), sb.metadataLength)
    else AskHeader(core, image, 0)
  }

  function AfterSbMetadata(core: Core, image: seq<byte>): Next {
    var sb := SbHeaderOf(image);
    if ParseTlvs(Slice(image, sb.metadataOffset, sb.metadataLength)).corrupt then Silence else AskHeader(core, image, 0)
  }

  /** Once the payload header is held and found in range. */
  function OnceHeld(c: Config, core: Core, image: seq<byte>, index: nat, staged: nat, busy: bool, env: Env): Next {
    var hdr := PayloadHeaderOf(image, index);
    if c.wanted(hdr) then
      if hdr.metadataLength > 0 then AskMetadata(c, Pull(PayloadMetadataKind, index), hdr.metadataLength)
      else StartPayload(c, image, index, busy, env)
    else if index + 1 < core.numPayloads then AskHeader(core, image, index + 1)
    else if staged > 0 then Stage
    else Fail
  }

  function AfterPayloadHeader(c: Config, core: Core, image: seq<byte>, index: nat, staged: nat, busy: bool, env: Env):
    Next
  {
    var hdr := PayloadHeaderOf(image, index);
    if || Sum32(hdr.metadataOffset, hdr.metadataLength) > core.totalLength
       || Sum32(hdr.offset, hdr.length) > core.totalLength
    then Reject
    else OnceHeld(c, core, image, index, staged, busy, env)
  }

  function AfterPayloadMetadata(c: Config, image: seq<byte>, index: nat, busy: bool, env: Env): Next {
    var m := ParseTlvs(MetadataOf(image, index));
    if AnyBad(m.tlvs) then Fail
    else if m.corrupt then Silence
    else StartPayload(c, image, index, busy, env)
  }

  /** After the bytes of payload `index` up to `upto`. */
  function AfterWindow(c: Config, core: Core, image: seq<byte>, index: nat, upto: nat, env: Env): Next {
    if !env.writeOk then Fail
    else if upto < PayloadHeaderOf(image, index).length then AskWindow(c, image, index, upto)
    else if !HashRight(c, image, index) || !env.finishOk then Fail
    else if FlagsOf(image, index) == APPLY_FLAGS_FAST_RESET then ApplyNow
    else if index + 1 < core.numPayloads then AskHeader(core, image, index + 1)
    else Stage
  }

  /** After the window that ends at `upto` of the part of a pull. */
  function After(c: Config, core: Core, pull: Pull, upto: nat, staged: nat, busy: bool, env: Env): Next
    requires pull.Pull?
  {
    var image := c.images(core);
    match pull.kind
    case SbHeaderKind => AfterSbHeader(c, core, image)
    case SbMetadataKind => AfterSbMetadata(core, image)
    case PayloadHeaderKind =>
      if pull.index < 0 then Fail else AfterPayloadHeader(c, core, image, pull.index, staged, busy, env)
    case PayloadMetadataKind => if pull.index < 0 then Fail else AfterPayloadMetadata(c, image, pull.index, busy, env)
    case PayloadDataKind => if pull.index < 0 then Fail else AfterWindow(c, core, image, pull.index, upto, env)
  }

  /** The bytes of payload `index` have the hash that its metadata names. */
  predicate HashRight(c: Config, image: seq<byte>, index: nat) {
    c.hash(PayloadOf(image, index)) == HashOf(image, index)
  }

  /** No payload is counted yet. */
  function Uncounted(s: State): State {
    s.(f := s.f.(staged := 0), h := s.h.(verified := []))
  }

  /** The writer is busy, or it is not. */
  function WithWriter(s: State, busy: bool): State {
    s.(f := s.f.(busy := busy))
  }

  /** A payload's bytes are about to be written: another one was finished, and this one started. */
  predicate WriterStarts(busy: bool, env: Env) {
    (!busy || env.finishOk) && env.startOk
  }

  /** One payload more is counted, and the writer is finished. */
  function CountedWith(s: State, v: Verified): State {
    s.(f := s.f.(staged := s.f.staged + 1, busy := false), h := s.h.(verified := s.h.verified + [v]))
  }

  /**
   The payloads counted after the window that ends at `upto`, one more if it completes
   a right one; and whether the writer is busy then.
   */
  function Tallied(c: Config, s: State, pull: Pull, upto: nat, env: Env): State
    requires pull.Pull?
  {
    var image := c.images(s.a.core);
    match pull.kind
    case SbHeaderKind =>
      if AfterSbHeader(c, s.a.core, image) == Reject then WithWriter(s, false)
      else if SbHeaderOf(image).metadataLength > 0 then s
      else Uncounted(s)
    case SbMetadataKind => if AfterSbMetadata(s.a.core, image) == Silence then s else Uncounted(s)
    case PayloadHeaderKind => if pull.index < 0 then s else HeaderWriter(c, s, image, pull.index, env)
    case PayloadMetadataKind =>
      if pull.index < 0 then s
      else
        var m := ParseTlvs(MetadataOf(image, pull.index));
        if AnyBad(m.tlvs) || m.corrupt then s else WithWriter(s, WriterStarts(s.f.busy, env))
    case PayloadDataKind =>
      if || pull.index < 0 || !env.writeOk || upto < PayloadHeaderOf(image, pull.index).length
         || !HashRight(c, image, pull.index)
      then s
      else if !env.finishOk then WithWriter(s, false)
      else CountedWith(s, Verified(pull.index, PayloadOf(image, pull.index)))
  }

  /** Whether the writer is busy after the header of a payload. */
  function HeaderWriter(c: Config, s: State, image: seq<byte>, index: nat, env: Env): State {
    var hdr := PayloadHeaderOf(image, index);
    if || Sum32(hdr.metadataOffset, hdr.metadataLength) > s.a.core.totalLength
       || Sum32(hdr.offset, hdr.length) > s.a.core.totalLength
    then WithWriter(s, false)
    else HeldWriter(c, s, hdr, env)
  }

  function HeldWriter(c: Config, s: State, hdr: PayloadHeader, env: Env): State {
    if c.wanted(hdr) && hdr.metadataLength == 0 then WithWriter(s, WriterStarts(s.f.busy, env)) else s
  }

  // ----- Following the plan --------------------------------------------------------------

  /** The message for the first chunk of a window. */
  function FirstChunk(c: Config, image: seq<byte>, next: Next): Entry
    requires next.Ask? && next.pull.Pull? && next.at < TWO_32
  {
    Entry(next.pull, next.at, Sum32(StartOf(image, next.pull), next.at), Min(next.n, MostBytes(c)))
  }

  /**
   The window is what the asset awaits. Its first chunk has been asked for, unless the
   controller does not allow it now; then the request is pending. If the request cannot
   be sent the asset fails, or stalls between two windows of a payload.
   */
  predicate Asks(c: Config, s: State, next: Next, env: Env, s1: State)
    requires next.Ask?
  {
    && next.pull.Pull? && next.at < TWO_32
    && s1.h.pull == next.pull && s1.a.selected == next.pull.index
    && s1.a.req.relativeOffset == next.at && s1.a.req.bytesRequested == next.n && s1.a.req.bytesResponded == 0
    && if s.allowed && env.txOk then
         && s1.f.state.Active? && s1.a.req.outstanding
         && s1.h.log == s.h.log + [FirstChunk(c, c.images(s.a.core), next)]
       else
         && !s1.a.req.outstanding && s1.h.log == s.h.log
         && (s1.f.state == if s.allowed && !(next.pull.kind.PayloadDataKind? && next.at > 0) then Failed else Active)
  }

  /** `s1` is what the plan says for `s`. */
  predicate Follows(c: Config, s: State, next: Next, env: Env, s1: State) {
    && s1.a.core == s.a.core && s1.allowed == s.allowed
    && s1.f.staged == s.f.staged && s1.h.verified == s.h.verified && s1.f.busy == s.f.busy
    && match next
       case Ask(_, _, _) => Asks(c, s, next, env, s1)
       case Silence => s1.f.state.Active? && s1.h.pull.NoPull? && s1.h.log == s.h.log
       case Reject => s1.f.state.NoAsset?
       case Fail => s1.f.state.Failed?
       case Stage => s1.f.state == if env.notifyOk then Staged else Failed
       case ApplyNow => s1.f.state.Applied?
  }

  // ----- Requests ---------------------------------------------------------------------------

  /** A request that passes its checks, exactly. */
  lemma RequestIs(c: Config, s: State, kind: Kind, rel: u32, needed: u32, env: Env)
    requires c.Valid() && !s.a.req.outstanding && 0 < needed <= c.window && Validated(s.a, kind, rel, needed)
    ensures RequestData(c, s, kind, rel, needed, env) ==
            var s1 := Begin(s, kind, rel, needed);
            (if s.allowed && env.txOk then Sent(s1, Min(needed, MostBytes(c))) else s1, !s.allowed || env.txOk)
  {
    RequestDataIs(c, s, kind, rel, needed, env);
    hide RequestData, Validated, Region;
  }

  /**
   A request is refused while another one is outstanding or if its window is too long, and
   changes nothing then; one that is not within its region leaves no pull behind.
   */
  lemma RequestRefused(c: Config, s: State, kind: Kind, rel: u32, needed: u32, env: Env)
    ensures s.a.req.outstanding || needed > c.window ==> RequestData(c, s, kind, rel, needed, env) == (s, false)
    ensures !s.a.req.outstanding && needed <= c.window && !Validated(s.a, kind, rel, needed) ==>
              var (s1, ok) := RequestData(c, s, kind, rel, needed, env);
              && !ok && s1.h == s.h.(pull := NoPull) && s1.f == s.f && s1.a == s.a.(req := s1.a.req)
              && s1.a.req == Begun(s.a.req, kind, rel, needed)
  {
  }

  /** Nothing was asked for, awaited or decided yet. */
  predicate Ready(s: State, s0: State) {
    && s0.a.core == s.a.core && s0.allowed == s.allowed && s0.h.log == s.h.log
    && s0.f.staged == s.f.staged && s0.h.verified == s.h.verified && s0.f.busy == s.f.busy
    && s0.f.state.Active? && !s0.a.req.outstanding && s0.h.pull.NoPull?
  }

  lemma RequestFollows(c: Config, s: State, s0: State, kind: Kind, rel: u32, needed: u32, env: Env)
    requires c.Valid() && Ready(s, s0) && 0 < needed <= c.window && Validated(s0.a, kind, rel, needed)
    requires Region(s0.a, kind).0 == StartOf(c.images(s.a.core), Pull(kind, s0.a.selected))
    ensures var (s1, ok) := RequestData(c, s0, kind, rel, needed, env);
            var next := Ask(Pull(kind, s0.a.selected), rel, needed);
            if kind.PayloadDataKind? && rel > 0 then Follows(c, s, next, env, s1)
            else Follows(c, s, next, env, OrFailure((s1, ok)))
  {
    var begun := Begin(s0, kind, rel, needed);
    RequestIs(c, s0, kind, rel, needed, env);
    hide RequestData, StartOf, Region, Validated, MostBytes;
    if s.allowed && env.txOk {
      BegunSent(c, s, s0, kind, rel, needed);
    }
  }

  lemma BegunSent(c: Config, s: State, s0: State, kind: Kind, rel: u32, needed: u32)
    requires Ready(s, s0)
    requires Region(s0.a, kind).0 == StartOf(c.images(s.a.core), Pull(kind, s0.a.selected))
    ensures var next := Ask(Pull(kind, s0.a.selected), rel, needed);
            Sent(Begin(s0, kind, rel, needed), Min(needed, MostBytes(c))).h.log ==
            s.h.log + [FirstChunk(c, c.images(s.a.core), next)]
  {
    hide StartOf, Region, MostBytes;
  }

  lemma RequestRejected(c: Config, s: State, s0: State, kind: Kind, rel: u32, needed: u32, env: Env)
    requires Ready(s, s0) && !(needed <= c.window && Validated(s0.a, kind, rel, needed))
    ensures Follows(c, s, Fail, env, OrFailure(RequestData(c, s0, kind, rel, needed, env)))
  {
    RequestDataIs(c, s0, kind, rel, needed, env);
    hide RequestData, Validated;
  }

  lemma HeaderAsked(c: Config, s: State, s0: State, index: nat, env: Env)
    requires c.Valid() && Ready(s, s0) && s0.a.sb == SbHeaderOf(c.images(s.a.core))
    ensures Follows(c, s, AskHeader(s.a.core, c.images(s.a.core), index), env,
                    OrFailure(SetPayloadIndex(c, s0, index, env)))
  {
    if index < s.a.core.numPayloads {
      SetPayloadIndexIs(c, s0, index, env);
      var s1 := Selected(s0, index);
      var rel := index * PAYLOAD_HEADER_LEN;
      assert Ready(s, s1) && s1.a.sb == s0.a.sb && s1.a.selected == index;
      assert Validated(s1.a, PayloadHeaderKind, rel, PAYLOAD_HEADER_LEN) <==>
             rel + PAYLOAD_HEADER_LEN <= s1.a.sb.payloadHeadersLength;
      hide SetPayloadIndex, RequestData, OrFailure, Follows, Selected, SbHeaderOf, Validated;
      if rel + PAYLOAD_HEADER_LEN <= s1.a.sb.payloadHeadersLength {
        RequestFollows(c, s, s1, PayloadHeaderKind, rel, PAYLOAD_HEADER_LEN, env);
      } else {
        RequestRejected(c, s, s1, PayloadHeaderKind, rel, PAYLOAD_HEADER_LEN, env);
      }
    }
  }

  lemma MetadataAsked(c: Config, s: State, s0: State, kind: Kind, length: u32, env: Env)
    requires c.Valid() && Ready(s, s0) && length > 0 && Region(s0.a, kind).1 == length
    requires kind.SbMetadataKind? || kind.PayloadMetadataKind?
    requires Region(s0.a, kind).0 == StartOf(c.images(s.a.core), Pull(kind, s0.a.selected))
    ensures Follows(c, s, AskMetadata(c, Pull(kind, s0.a.selected), length), env,
                    OrFailure(RequestData(c, s0, kind, 0, length, env)))
  {
    assert Validated(s0.a, kind, 0, length);
    hide RequestData, OrFailure, Follows, Region, Validated, StartOf;
    if length <= c.window {
      RequestFollows(c, s, s0, kind, 0, length, env);
    } else {
      RequestRejected(c, s, s0, kind, 0, length, env);
    }
  }

  /** The header that is held is that of the image. */
  predicate HeldHeader(c: Config, a: Asset) {
    && a.selected >= 0 && a.payload.hdr == PayloadHeaderOf(c.images(a.core), a.selected)
    && a.sb == SbHeaderOf(c.images(a.core))
  }

  lemma WindowRequested(c: Config, s: State, env: Env)
    requires c.Valid() && (s.a.recvd == 0 || s.a.recvd < s.a.payload.hdr.length)
    ensures var n := Min(s.a.payload.hdr.length - s.a.recvd, c.window);
            && PayloadRequestData(c, s, env) == RequestData(c, s, PayloadDataKind, s.a.recvd, n, env)
            && (Validated(s.a, PayloadDataKind, s.a.recvd, n) <==> n > 0)
            && Region(s.a, PayloadDataKind).0 == s.a.payload.hdr.offset
  {
    hide RequestData;
  }

  lemma WindowAsked(c: Config, s: State, s0: State, env: Env)
    requires c.Valid() && Ready(s, s0) && HeldHeader(c, s0.a)
    requires s0.a.recvd == 0 || s0.a.recvd < s0.a.payload.hdr.length
    ensures var next := AskWindow(c, c.images(s.a.core), s0.a.selected, s0.a.recvd);
            var (s1, ok) := PayloadRequestData(c, s0, env);
            && (s0.a.recvd == 0 ==> Follows(c, s, next, env, OrFailure((s1, ok))))
            && (0 < s0.a.recvd < s0.a.payload.hdr.length ==> Follows(c, s, next, env, s1))
  {
    var n := Min(s0.a.payload.hdr.length - s0.a.recvd, c.window);
    WindowRequested(c, s0, env);
    assert s0.a.core == s.a.core;
    assert StartOf(c.images(s.a.core), Pull(PayloadDataKind, s0.a.selected)) == s0.a.payload.hdr.offset by {
      hide PayloadHeaderOf;
    }
    hide RequestData, OrFailure, Follows, PayloadHeaderOf, SbHeaderOf, Validated, Region, PayloadRequestData, StartOf,
      Ready;
    if n > 0 {
      RequestFollows(c, s, s0, PayloadDataKind, s0.a.recvd, n, env);
    } else {
      RequestRejected(c, s, s0, PayloadDataKind, s0.a.recvd, n, env);
    }
  }

  // ----- Callbacks ----------------------------------------------------------------------------

  lemma MetadataCompleteFollows(c: Config, s: State, s0: State, env: Env)
    requires c.Valid() && Ready(s, s0) && s0.a.sb == SbHeaderOf(c.images(s.a.core))
    ensures Follows(c, Uncounted(s), AskHeader(s.a.core, c.images(s.a.core), 0), env, AssetMetadataComplete(c, s0, env))
  {
    hide SetPayloadIndex, OrFailure, Follows, SbHeaderOf, AskHeader;
    HeaderAsked(c, Uncounted(s), Uncounted(s0), 0, env);
  }

  lemma StartFollows(c: Config, s: State, s0: State, env: Env)
    requires c.Valid() && Ready(s, s0) && HeldHeader(c, s0.a) && s0.a.recvd == 0
    ensures Follows(c, WithWriter(s, WriterStarts(s.f.busy, env)),
                    StartPayload(c, c.images(s.a.core), s0.a.selected, s.f.busy, env), env,
                    PayloadMetadataComplete(c, s0, env))
  {
    var s1 := s0.(f := s0.f.(busy := true), h := s0.h.(written := []));
    assert Follows(c, WithWriter(s, false), Fail, env, ReportFailure(s0.(f := s0.f.(busy := false))));
    assert Ready(WithWriter(s, true), s1);
    WindowAsked(c, WithWriter(s, true), s1, env);
    hide PayloadRequestData, OrFailure, Follows, AskWindow, PayloadHeaderOf, SbHeaderOf, ReportFailure, Ready;
  }

  lemma MarkFollows(c: Config, s: State, s0: State, env: Env)
    requires Ready(s, s0)
    ensures Follows(c, s, Stage, env, FullyStagedMark(s0, env))
    ensures Follows(c, s, Fail, env, ReportFailure(s0))
    ensures Follows(c, s, ApplyNow, env, InState(s0, Applied))
    ensures Follows(c, WithWriter(s, false), Reject, env, Remove(s0))
    ensures Follows(c, s, Silence, env, s0)
  {
  }

  lemma NextIndexFollows(c: Config, s: State, s0: State, env: Env)
    requires c.Valid() && Ready(s, s0) && 0 <= s0.a.selected < TWO_16 - 1
    requires s0.a.sb == SbHeaderOf(c.images(s.a.core))
    ensures Follows(c, s, AskHeader(s.a.core, c.images(s.a.core), s0.a.selected + 1), env, SetNextIndex(c, s0, env))
  {
    SetNextIndexIs(c, s0, env);
    HeaderAsked(c, s, s0, s0.a.selected + 1, env);
    hide SetPayloadIndex, OrFailure, Follows, SbHeaderOf, AskHeader;
  }

  lemma PayloadReadyFollows(c: Config, s: State, s0: State, env: Env)
    requires c.Valid() && Ready(s, s0) && HeldHeader(c, s0.a) && s0.a.recvd == 0
    ensures Follows(c, HeldWriter(c, s, s0.a.payload.hdr, env),
                    OnceHeld(c, s.a.core, c.images(s.a.core), s0.a.selected, s.f.staged, s.f.busy, env), env,
                    PayloadReady(c, s0, env))
  {
    var s1 := s0.(f := s0.f.(applyFlags := APPLY_FLAGS_NEEDS_RESTART, hashed := [], payloadHash := NoHash()));
    var length := s0.a.payload.hdr.metadataLength;
    hide RequestData, OrFailure, Follows, AskHeader, StartPayload, AskMetadata, PayloadHeaderOf, SbHeaderOf,
      SetNextIndex, FullyStagedMark, ReportFailure, PayloadMetadataComplete, NoHash;
    if c.wanted(s0.a.payload.hdr) {
      if length > 0 {
        MetadataAsked(c, s, s1, PayloadMetadataKind, length, env);
      } else {
        StartFollows(c, s, s1, env);
      }
    } else if s0.a.selected + 1 < s0.a.core.numPayloads {
      NextIndexFollows(c, s, s0, env);
    } else {
      MarkFollows(c, s, s0, env);
    }
  }

  /** The payload is whole; hash and flags expected are those of the image. */
  predicate AllFed(c: Config, s0: State, image: seq<byte>) {
    && HeldHeader(c, s0.a) && s0.a.recvd == s0.a.payload.hdr.length
    && s0.f.hashed == s0.h.written == PayloadOf(image, s0.a.selected)
    && s0.f.payloadHash == HashOf(image, s0.a.selected) && s0.f.applyFlags == FlagsOf(image, s0.a.selected)
  }

  lemma CountedReady(s: State, s0: State, v: Verified)
    requires Ready(s, s0) && v == Verified(s0.a.selected, s0.h.written)
    ensures Ready(CountedWith(s, v), CountedOne(s0))
    ensures CountedOne(s0).a == s0.a && CountedWith(s, v).a == s.a && s0.a.core == s.a.core
  {
  }

  lemma CountedMarked(c: Config, s: State, s0: State, v: Verified, env: Env)
    requires Ready(s, s0) && v == Verified(s0.a.selected, s0.h.written)
    ensures Follows(c, CountedWith(s, v), Stage, env, FullyStagedMark(CountedOne(s0), env))
    ensures Follows(c, CountedWith(s, v), ApplyNow, env, InState(CountedOne(s0), Applied))
  {
    CountedReady(s, s0, v);
    hide *;
    MarkFollows(c, CountedWith(s, v), CountedOne(s0), env);
  }

  lemma CountedNext(c: Config, s: State, s0: State, v: Verified, env: Env)
    requires c.Valid() && Ready(s, s0) && HeldHeader(c, s0.a) && v == Verified(s0.a.selected, s0.h.written)
    requires s0.a.selected + 1 < s0.a.core.numPayloads
    ensures Follows(c, CountedWith(s, v), AskHeader(s.a.core, c.images(s.a.core), s0.a.selected + 1), env,
                    SetNextIndex(c, CountedOne(s0), env))
  {
    CountedReady(s, s0, v);
    hide Ready, Follows, AskHeader, PayloadHeaderOf, SbHeaderOf, SetNextIndex, CountedOne, CountedWith;
    NextIndexFollows(c, CountedWith(s, v), CountedOne(s0), env);
  }

  /** What the plan says after the last window of a payload. */
  lemma PlanOfWhole(c: Config, s: State, a: Asset, written: seq<byte>, env: Env)
    requires HeldHeader(c, a) && a.recvd == a.payload.hdr.length && env.writeOk && a.core == s.a.core
    requires written == PayloadOf(c.images(a.core), a.selected)
    ensures var image := c.images(a.core);
            var pull := Pull(PayloadDataKind, a.selected);
            if c.hash(written) != HashOf(image, a.selected) || !env.finishOk then
              && AfterWindow(c, a.core, image, a.selected, a.recvd, env) == Fail
              && Tallied(c, s, pull, a.recvd, env) ==
                 if c.hash(written) != HashOf(image, a.selected) then s else WithWriter(s, false)
            else
              && Tallied(c, s, pull, a.recvd, env) == CountedWith(s, Verified(a.selected, written))
              && AfterWindow(c, a.core, image, a.selected, a.recvd, env) ==
                 if FlagsOf(image, a.selected) == APPLY_FLAGS_FAST_RESET then ApplyNow
                 else if a.selected + 1 < a.core.numPayloads then AskHeader(a.core, image, a.selected + 1)
                 else Stage
  {
    hide AskHeader, AskWindow, PayloadHeaderOf, SbHeaderOf, HashOf, FlagsOf, PayloadOf, CountedWith, WithWriter;
  }

  /** A payload that was not right is not counted, and fails the asset. */
  lemma WrongFollows(c: Config, s: State, s0: State, env: Env)
    requires Ready(s, s0) && (c.hash(s0.f.hashed) != s0.f.payloadHash || !env.finishOk)
    ensures Follows(c, if c.hash(s0.f.hashed) != s0.f.payloadHash then s else WithWriter(s, false), Fail, env,
                    PayloadDataComplete(c, s0, env))
  {
    DataCompleteIs(c, s0, env);
    MarkFollows(c, s, s0, env);
    MarkFollows(c, WithWriter(s, false), s0.(f := s0.f.(busy := false)), env);
    hide PayloadDataComplete, Follows, ReportFailure;
  }

  lemma RightFollows(c: Config, s: State, s0: State, env: Env)
    requires c.Valid() && Ready(s, s0) && HeldHeader(c, s0.a)
    requires c.hash(s0.f.hashed) == s0.f.payloadHash && env.finishOk
    ensures Follows(c, CountedWith(s, Verified(s0.a.selected, s0.h.written)),
                    if s0.f.applyFlags == APPLY_FLAGS_FAST_RESET then ApplyNow
                    else if s0.a.selected + 1 < s0.a.core.numPayloads then
                      AskHeader(s0.a.core, c.images(s0.a.core), s0.a.selected + 1)
                    else Stage, env, PayloadDataComplete(c, s0, env))
  {
    var v := Verified(s0.a.selected, s0.h.written);
    DataCompleteIs(c, s0, env);
    assert s0.a.core == s.a.core;
    hide PayloadDataComplete, Follows, AskHeader, HeldHeader, Ready, CountedOne, CountedWith, SetNextIndex,
      FullyStagedMark, InState, ReportFailure;
    CountedMarked(c, s, s0, v, env);
    if s0.a.selected + 1 < s0.a.core.numPayloads {
      CountedNext(c, s, s0, v, env);
    }
  }

  lemma DataCompleteFollows(c: Config, s: State, s0: State, env: Env)
    requires c.Valid() && Ready(s, s0) && AllFed(c, s0, c.images(s.a.core)) && env.writeOk
    ensures Follows(c, Tallied(c, s, Pull(PayloadDataKind, s0.a.selected), s0.a.recvd, env),
                    AfterWindow(c, s.a.core, c.images(s.a.core), s0.a.selected, s0.a.recvd, env), env,
                    PayloadDataComplete(c, s0, env))
  {
    assert s0.a.core == s.a.core;
    PlanOfWhole(c, s, s0.a, s0.h.written, env);
    hide Follows, AskHeader, HeldHeader, HashOf, FlagsOf, PayloadOf, PayloadDataComplete, CountedWith, Ready, Tallied,
      AfterWindow, WithWriter;
    if c.hash(s0.f.hashed) != s0.f.payloadHash || !env.finishOk {
      WrongFollows(c, s, s0, env);
    } else {
      RightFollows(c, s, s0, env);
    }
  }

  // ----- Completed pulls -----------------------------------------------------------------------

  lemma SbHeaderFollows(c: Config, s: State, data: seq<byte>, env: Env)
    requires c.Valid() && Pulled(c, s, SbHeaderKind, data) && s.f.state.Active?
    ensures |data| == SB_HEADER_LEN
    ensures Follows(c, Tallied(c, s, Pull(SbHeaderKind, s.a.selected), 0, env),
                    AfterSbHeader(c, s.a.core, c.images(s.a.core)), env, SbHeaderComplete(c, s, data, env))
  {
    var sb := ParseSbHeader(data);
    assert sb == SbHeaderOf(ImageOf(c, s.a)) && !s.a.hasHeader;
    WithHeaderRight(c, s, sb);
    var s1 := WithHeader(s, sb);
    assert Ready(s, s1) && s1.a.selected == -1;
    MarkFollows(c, s, s.(a := s.a.(sb := sb)), env);
    hide Pulled, Idle, Follows, ParseSbHeader, Slice, SbHeaderOf, AskHeader, AskMetadata, RequestData, OrFailure,
      AssetMetadataComplete, Remove;
    if sb.metadataLength > 0 {
      MetadataAsked(c, s, s1, SbMetadataKind, sb.metadataLength, env);
    } else {
      MetadataCompleteFollows(c, s, s1, env);
    }
  }

  lemma SbMetadataFollows(c: Config, s: State, data: seq<byte>, env: Env)
    requires c.Valid() && Pulled(c, s, SbMetadataKind, data) && s.f.state.Active?
    ensures Follows(c, Tallied(c, s, Pull(SbMetadataKind, s.a.selected), 0, env),
                    AfterSbMetadata(s.a.core, c.images(s.a.core)), env, SbMetadataComplete(c, s, data, env))
  {
    var s1 := s.(a := s.a.(hasMetadata := true));
    var image := c.images(s.a.core);
    assert s.a.sb == SbHeaderOf(image) && Ready(s, s1) by {
      hide Slice, SbHeaderOf;
    }
    assert data == Slice(image, SbHeaderOf(image).metadataOffset, SbHeaderOf(image).metadataLength) by {
      hide Slice, SbHeaderOf, Idle;
    }
    MarkFollows(c, s, s1, env);
    hide Pulled, Follows, Slice, SbHeaderOf, AskHeader, AssetMetadataComplete, ParseTlvs;
    MetadataCompleteFollows(c, s, s1, env);
  }

  lemma PayloadHeaderFollows(c: Config, s: State, data: seq<byte>, env: Env)
    requires c.Valid() && Pulled(c, s, PayloadHeaderKind, data) && s.f.state.Active?
    ensures |data| == PAYLOAD_HEADER_LEN && s.a.selected >= 0
    ensures Follows(c, HeaderWriter(c, s, c.images(s.a.core), s.a.selected, env),
                    AfterPayloadHeader(c, s.a.core, c.images(s.a.core), s.a.selected, s.f.staged, s.f.busy, env),
                    env, PayloadHeaderComplete(c, s, data, env))
  {
    PayloadHeaderParsed(c, s, data);
    var hdr := ParsePayloadHeader(data);
    WithPayloadHeaderRight(c, s, hdr);
    var s1 := WithPayloadHeader(s, hdr);
    SbHeld(c, s);
    assert Ready(s, s1) && HeldHeader(c, s1.a) && s1.a.recvd == 0 by {
      hide Base, ParsePayloadHeader, PayloadHeaderOf, SbHeaderOf;
    }
    MarkFollows(c, s, s1, env);
    PayloadReadyFollows(c, s, s1, env);
    hide Pulled, Idle, Follows, ParsePayloadHeader, PayloadHeaderOf, SbHeaderOf, PayloadReady, Remove, AskHeader,
      AskMetadata, StartPayload;
  }

  lemma SbHeld(c: Config, s: State)
    requires Idle(c, s) && s.a.selected >= 0
    ensures s.a.sb == SbHeaderOf(c.images(s.a.core))
  {
    hide LogRight, Delivery, Tally, PastRight, SbHeaderOf, PayloadHeaderOf;
  }

  lemma MetadataRead(c: Config, s: State, data: seq<byte>)
    requires Pulled(c, s, PayloadMetadataKind, data) && s.f.state.Active?
    ensures HeldHeader(c, s.a) && s.a.recvd == 0 && data == MetadataOf(c.images(s.a.core), s.a.selected)
    ensures Ready(s, s)
  {
    assert s.a.hasPayloadHeader && s.a.recvd == 0 && Idle(c, s) && Ready(s, s) by {
      hide Slice, Base, Region, WindowLen, WindowBase;
    }
    PayloadHeld(c, s);
    hide Slice, Idle, SbHeaderOf, PayloadHeaderOf, Ready;
  }

  /** The TLVs fail the asset, or leave all but hash and flags. */
  lemma TlvsRead(s: State, tlvs: seq<Tlv>)
    requires Ready(s, s)
    ensures var s1 := WithPayloadMetadata(s, tlvs);
            && s1.a == s.a.(hasMetadata := true, payload := s.a.payload.(hasMetadata := true))
            && s1.f.busy == s.f.busy
            && if AnyBad(tlvs) then
                 && s1.f.state.Failed? && s1.f.staged == s.f.staged && s1.h == s.h && s1.allowed == s.allowed
               else Ready(s, s1)
  {
    hide HashFrom, FlagsFrom, AnyBad;
  }

  lemma PayloadMetadataFollows(c: Config, s: State, data: seq<byte>, env: Env)
    requires c.Valid() && Pulled(c, s, PayloadMetadataKind, data) && s.f.state.Active?
    ensures s.a.selected >= 0
    ensures Follows(c, Tallied(c, s, Pull(PayloadMetadataKind, s.a.selected), 0, env),
                    AfterPayloadMetadata(c, c.images(s.a.core), s.a.selected, s.f.busy, env), env,
                    PayloadMetadataPullComplete(c, s, data, env))
  {
    MetadataRead(c, s, data);
    var m := ParseTlvs(data);
    var s1 := WithPayloadMetadata(s, m.tlvs);
    TlvsRead(s, m.tlvs);
    hide ParseTlvs, HashFrom, FlagsFrom, AnyBad, MetadataOf, WithPayloadMetadata, Pulled, PayloadHeaderOf, SbHeaderOf;
    if AnyBad(m.tlvs) {
      BadMetadata(c, s, s1, env);
    } else {
      hide Follows, StartPayload;
      MarkFollows(c, s, s1, env);
      StartFollows(c, s, s1, env);
    }
  }

  lemma BadMetadata(c: Config, s: State, s1: State, env: Env)
    requires s1.f.state.Failed? && s1.f.staged == s.f.staged && s1.h == s.h && s1.allowed == s.allowed
    requires s1.a.core == s.a.core && s1.f.busy == s.f.busy
    ensures Follows(c, s, Fail, env, s1) && PayloadMetadataComplete(c, s1, env) == s1
  {
  }

  lemma PayloadHeld(c: Config, s: State)
    requires Idle(c, s) && s.a.hasPayloadHeader
    ensures HeldHeader(c, s.a) && s.a.recvd <= s.a.payload.hdr.length
  {
    hide LogRight, Delivery, Tally, PastRight, SbHeaderOf, PayloadHeaderOf;
  }

  lemma DataHandedOn(s: State, data: seq<byte>, env: Env)
    requires s.f.state.Active?
    ensures var s1 := PayloadData(s, data, env);
            && s1.a == s.a && s1.h.log == s.h.log && s1.h.pull == s.h.pull && s1.h.verified == s.h.verified
            && s1.f.staged == s.f.staged && s1.allowed == s.allowed
            && s1.f.busy == s.f.busy && s1.f.state == if env.writeOk then Active else Failed
  {
  }

  /** What an active asset keeps when a window is handed on. */
  lemma AdvancedIs(s: State, data: seq<byte>, env: Env)
    requires s.f.state.Active? && |data| < TWO_32 && Sum32(s.a.recvd, |data|) == s.a.recvd + |data|
    ensures var s1 := Advanced(s, data, env);
            && s1.a == s.a.(recvd := s.a.recvd + |data|) && s1.h.log == s.h.log && s1.h.pull == s.h.pull
            && s1.h.verified == s.h.verified && s1.f.staged == s.f.staged && s1.allowed == s.allowed
            && s1.f.busy == s.f.busy && s1.f.state == if env.writeOk then Active else Failed
  {
    DataHandedOn(s, data, env);
    hide PayloadData, Sum32;
  }

  lemma WindowFacts(c: Config, s: State, data: seq<byte>, env: Env)
    requires c.Valid() && Idle(c, s) && Fed(c, s) && IsWindow(c, s, data) && s.f.state.Active? && |data| < TWO_32
    ensures HeldHeader(c, s.a) && s.a.recvd + |data| <= s.a.payload.hdr.length && |data| > 0
    ensures Sum32(s.a.recvd, |data|) == s.a.recvd + |data|
    ensures env.writeOk ==> Ready(s, Advanced(s, data, env))
    ensures env.writeOk && s.a.recvd + |data| == s.a.payload.hdr.length ==>
              AllFed(c, Advanced(s, data, env), c.images(s.a.core))
  {
    AdvancedRight(c, s, data, env);
    RecvdAdvanced(c, s.a, |data|);
    AdvancedIs(s, data, env);
    PayloadHeld(c, s);
    var s1 := Advanced(s, data, env);
    hide Advanced, Base, WindowLen, HashOf, FlagsOf, PayloadOf, PayloadHeaderOf, SbHeaderOf, Slice, Complete;
    if s1.a.recvd == s.a.payload.hdr.length {
      WholeDelivered(c, s1);
    }
  }

  lemma WindowFollows(c: Config, s: State, data: seq<byte>, pull: Pull, upto: nat, env: Env)
    requires c.Valid() && Idle(c, s) && Fed(c, s) && IsWindow(c, s, data) && s.f.state.Active? && |data| < TWO_32
    requires pull == Pull(PayloadDataKind, s.a.selected) && upto == s.a.recvd + |data|
    ensures pull.index >= 0
    ensures Follows(c, Tallied(c, s, pull, upto, env),
                    AfterWindow(c, s.a.core, c.images(s.a.core), pull.index, upto, env), env,
                    WindowComplete(c, s, data, env))
  {
    WindowFacts(c, s, data, env);
    WindowCompleteIs(c, s, data, env);
    var s1 := Advanced(s, data, env);
    AdvancedIs(s, data, env);
    hide Idle, Fed, IsWindow, Advanced, WindowComplete, PayloadRequestData, PayloadHeaderOf, SbHeaderOf,
      AllFed, AskWindow, HashOf, FlagsOf, PayloadOf, Ready, Follows;
    if !env.writeOk {
      FailedWindow(c, s, s1, env);
    } else if s1.a.recvd == s.a.payload.hdr.length {
      hide PayloadDataComplete, Tallied, AfterWindow;
      DataCompleteFollows(c, s, s1, env);
    } else {
      hide PayloadDataComplete;
      WindowAsked(c, s, s1, env);
    }
  }

  /** A window that could not be written fails the asset, though the next one is asked for. */
  lemma FailedWindow(c: Config, s: State, s1: State, env: Env)
    requires s1.f.state.Failed? && s1.f.staged == s.f.staged && s1.h.verified == s.h.verified
    requires s1.a.core == s.a.core && s1.allowed == s.allowed && s1.f.busy == s.f.busy
    ensures Follows(c, s, Fail, env, PayloadDataComplete(c, s1, env))
    ensures Follows(c, s, Fail, env, PayloadRequestData(c, s1, env).0)
  {
    NextWindowState(c, s1, env);
    hide PayloadRequestData;
  }

  lemma NextWindowState(c: Config, s: State, env: Env)
    ensures var s1 := PayloadRequestData(c, s, env).0;
            s1.f == s.f && s1.a.core == s.a.core && s1.allowed == s.allowed && s1.h.verified == s.h.verified
  {
    var left := Diff32(s.a.payload.hdr.length, s.a.recvd);
    RequestKeeps(c, s, PayloadDataKind, s.a.recvd, Min(left, c.window), env);
  }

  // ----- Responses ----------------------------------------------------------------------------

  /** After a chunk that does not complete its window the next chunk is asked for, as soon as it may be. */
  predicate NextChunk(c: Config, s: State, n: nat, env: Env, s1: State)
    requires n <= s.a.req.bytesRemaining
  {
    var e := Entry(s.h.pull, s.a.req.relativeOffset + s.a.req.bytesResponded + n, s1.a.req.currentOffset,
                   Min(s.a.req.bytesRemaining - n, MostBytes(c)));
    && s1.f == s.f && s1.h.pull == s.h.pull && s1.allowed == s.allowed && s1.h.verified == s.h.verified
    && s1.a == s.a.(req := s1.a.req, scratch := s1.a.scratch)
    && s1.a.req.relativeOffset == s.a.req.relativeOffset && s1.a.req.bytesRequested == s.a.req.bytesRequested
    && s1.a.req.bytesResponded == s.a.req.bytesResponded + n
    && s1.a.req.bytesRemaining == s.a.req.bytesRemaining - n
    && s1.a.req.outstanding == (s.allowed && env.txOk)
    && s1.h.log == if s.allowed && env.txOk then s.h.log + [e] else s.h.log
  }

  lemma ChunkTaken(c: Config, s: State, offset: u32, bytes: seq<byte>, env: Env)
    requires Live(c, s) && s.h.pull.Pull? && 0 < |bytes| < s.a.req.bytesRemaining
    requires Awaited(c, s.a, s.h.pull.kind, bytes) && Passes(s.a, offset, bytes)
    ensures |bytes| < TWO_32
    ensures var s1 := Received(s, bytes);
            && DataResponse(c, s, offset, bytes, env) == Continue(c, s1, env).0
            && s1.f == s.f && s1.allowed == s.allowed && s1.h == s.h.(overrun := s1.h.overrun)
            && s1.a == s.a.(req := s1.a.req, scratch := s1.a.scratch)
            && s1.a.req.relativeOffset == s.a.req.relativeOffset && s1.a.req.bytesRequested == s.a.req.bytesRequested
            && s1.a.req.bytesResponded == s.a.req.bytesResponded + |bytes| && !s1.a.req.outstanding
            && s1.a.req.bytesRemaining == s.a.req.bytesRemaining - |bytes|
  {
    LiveParts(c, s);
    AcceptFields(c, s.a, s.h.pull, s.f.busy, bytes);
    PullFields(c, s);
    hide Live, Base, Slice, PullRight, Awaited, Expected, Region, WindowLen, WindowBase, Accept, PullComplete, Continue;
  }

  lemma ChunkFollows(c: Config, s: State, offset: u32, bytes: seq<byte>, env: Env)
    requires c.Valid() && Live(c, s) && s.h.pull.Pull? && 0 < |bytes| < s.a.req.bytesRemaining
    requires Awaited(c, s.a, s.h.pull.kind, bytes) && Passes(s.a, offset, bytes)
    ensures NextChunk(c, s, |bytes|, env, DataResponse(c, s, offset, bytes, env))
  {
    ChunkTaken(c, s, offset, bytes, env);
    hide Live, Awaited, Passes, DataResponse, Received;
  }

  /** The window of `pull` up to `upto` is in the scratch buffer. */
  predicate Arrived(c: Config, s: State, pull: Pull, upto: nat) {
    && s.f.state.Active? && pull == Pull(s.a.req.kind, s.a.selected)
    && s.a.req.bytesResponded <= |s.a.scratch| && upto == s.a.recvd + s.a.req.bytesResponded
    && Pulled(c, s, s.a.req.kind, s.a.scratch[..s.a.req.bytesResponded])
  }

  /** The window that arrived is followed by what the plan says. */
  predicate Answered(c: Config, s: State, pull: Pull, upto: nat, env: Env)
    requires pull.Pull?
  {
    Follows(c, Tallied(c, s, pull, upto, env),
            After(c, s.a.core, pull, upto, s.f.staged, s.f.busy, env), env, PullComplete(c, s, env))
  }

  lemma SbHeaderArrived(c: Config, s: State, pull: Pull, upto: nat, env: Env)
    requires c.Valid() && Arrived(c, s, pull, upto) && pull.Pull? && pull.kind == SbHeaderKind
    ensures Answered(c, s, pull, upto, env)
  {
    var data := s.a.scratch[..s.a.req.bytesResponded];
    hide Pulled, Follows, AfterSbHeader, AfterSbMetadata, AfterPayloadHeader, AfterPayloadMetadata, AfterWindow,
      SbHeaderComplete, SbMetadataComplete, PayloadHeaderComplete, PayloadMetadataPullComplete, WindowComplete,
      PullComplete, SbHeaderOf, PayloadHeaderOf, HashRight, PayloadOf;
    SbHeaderFollows(c, s, data, env);
    PullCompleteIs(c, s, env);
  }

  lemma SbMetadataArrived(c: Config, s: State, pull: Pull, upto: nat, env: Env)
    requires c.Valid() && Arrived(c, s, pull, upto) && pull.Pull? && pull.kind == SbMetadataKind
    ensures Answered(c, s, pull, upto, env)
  {
    var data := s.a.scratch[..s.a.req.bytesResponded];
    hide Pulled, Follows, AfterSbHeader, AfterSbMetadata, AfterPayloadHeader, AfterPayloadMetadata, AfterWindow,
      SbHeaderComplete, SbMetadataComplete, PayloadHeaderComplete, PayloadMetadataPullComplete, WindowComplete,
      PullComplete, SbHeaderOf, PayloadHeaderOf, HashRight, PayloadOf;
    SbMetadataFollows(c, s, data, env);
    PullCompleteIs(c, s, env);
  }

  lemma PayloadHeaderArrived(c: Config, s: State, pull: Pull, upto: nat, env: Env)
    requires c.Valid() && Arrived(c, s, pull, upto) && pull.Pull? && pull.kind == PayloadHeaderKind
    ensures Answered(c, s, pull, upto, env)
  {
    var data := s.a.scratch[..s.a.req.bytesResponded];
    hide Pulled, Follows, AfterSbHeader, AfterSbMetadata, AfterPayloadHeader, AfterPayloadMetadata, AfterWindow,
      SbHeaderComplete, SbMetadataComplete, PayloadHeaderComplete, PayloadMetadataPullComplete, WindowComplete,
      PullComplete, SbHeaderOf, PayloadHeaderOf, HashRight, PayloadOf;
    PayloadHeaderFollows(c, s, data, env);
    PullCompleteIs(c, s, env);
  }

  lemma PayloadMetadataArrived(c: Config, s: State, pull: Pull, upto: nat, env: Env)
    requires c.Valid() && Arrived(c, s, pull, upto) && pull.Pull? && pull.kind == PayloadMetadataKind
    ensures Answered(c, s, pull, upto, env)
  {
    var data := s.a.scratch[..s.a.req.bytesResponded];
    hide Pulled, Follows, AfterSbHeader, AfterSbMetadata, AfterPayloadHeader, AfterPayloadMetadata, AfterWindow,
      SbHeaderComplete, SbMetadataComplete, PayloadHeaderComplete, PayloadMetadataPullComplete, WindowComplete,
      PullComplete, SbHeaderOf, PayloadHeaderOf, HashRight, PayloadOf;
    PayloadMetadataFollows(c, s, data, env);
    PullCompleteIs(c, s, env);
  }

  lemma ArrivedWindow(c: Config, s: State, pull: Pull, upto: nat, env: Env) returns (data: seq<byte>)
    requires c.Valid() && Arrived(c, s, pull, upto) && pull.Pull? && pull.kind == PayloadDataKind
    ensures |data| < TWO_32 && Idle(c, s) && Fed(c, s) && IsWindow(c, s, data) && s.f.state.Active?
    ensures upto == s.a.recvd + |data| && pull == Pull(PayloadDataKind, s.a.selected)
    ensures PullComplete(c, s, env) == WindowComplete(c, s, data, env)
  {
    data := s.a.scratch[..s.a.req.bytesResponded];
    hide Pulled, WindowComplete, PullComplete, Idle, Fed, IsWindow;
    WindowPulled(c, s, data);
    PullCompleteIs(c, s, env);
  }

  lemma PayloadDataArrived(c: Config, s: State, pull: Pull, upto: nat, env: Env)
    requires c.Valid() && Arrived(c, s, pull, upto) && pull.Pull? && pull.kind == PayloadDataKind
    ensures Answered(c, s, pull, upto, env)
  {
    hide *;
    var data := ArrivedWindow(c, s, pull, upto, env);
    WindowFollows(c, s, data, pull, upto, env);
    AnsweredByWindow(c, s, pull, upto, env, WindowComplete(c, s, data, env));
  }

  lemma AnsweredByWindow(c: Config, s: State, pull: Pull, upto: nat, env: Env, s1: State)
    requires pull.Pull? && pull.kind == PayloadDataKind && pull.index >= 0 && PullComplete(c, s, env) == s1
    requires Follows(c, Tallied(c, s, pull, upto, env),
                     AfterWindow(c, s.a.core, c.images(s.a.core), pull.index, upto, env), env, s1)
    ensures Answered(c, s, pull, upto, env)
  {
    hide Follows, Tallied, AfterWindow, PullComplete;
  }

  lemma PullFollows(c: Config, s: State, pull: Pull, upto: nat, env: Env)
    requires c.Valid() && Arrived(c, s, pull, upto) && pull.Pull?
    ensures Answered(c, s, pull, upto, env)
  {
    hide *;
    match pull.kind
    case SbHeaderKind => SbHeaderArrived(c, s, pull, upto, env);
    case SbMetadataKind => SbMetadataArrived(c, s, pull, upto, env);
    case PayloadHeaderKind => PayloadHeaderArrived(c, s, pull, upto, env);
    case PayloadMetadataKind => PayloadMetadataArrived(c, s, pull, upto, env);
    case PayloadDataKind => PayloadDataArrived(c, s, pull, upto, env);
  }

  /** The end of the window in progress. */
  function Upto(s: State): nat {
    s.a.recvd + s.a.req.bytesRequested
  }

  /** A response that completes the window in progress is followed by what the plan says of the image. */
  predicate PlanFollowed(c: Config, s: State, env: Env, s1: State)
    requires s.h.pull.Pull?
  {
    Follows(c, Tallied(c, s, s.h.pull, Upto(s), env),
            After(c, s.a.core, s.h.pull, Upto(s), s.f.staged, s.f.busy, env), env, s1)
  }

  /**
   What every answer leads to, in every state in which an asset is active: an honest
   response that is taken is followed by the next chunk of the window, or by what the
   plan says of the image; any other response changes nothing.
   */
  lemma ResponseFollowsPlan(c: Config, s: State, i: nat, bytes: seq<byte>, env: Env)
    requires c.Valid() && Live(c, s) && s.f.state.Active? && s.connected && Honest(c, s, i, bytes)
    ensures var s1 := Step(c, s, Response(i, bytes, env));
            if !Passes(s.a, s.h.log[i].offset, bytes) then s1 == s
            else if |bytes| < s.a.req.bytesRemaining then NextChunk(c, s, |bytes|, env, s1)
            else s.h.pull.Pull? && PlanFollowed(c, s, env, s1)
  {
    var offset := s.h.log[i].offset;
    assert s.a.attached && Step(c, s, Response(i, bytes, env)) == DataResponse(c, s, offset, bytes, env) by {
      hide DataResponse, Base, PullRight, HashOf, FlagsOf;
    }
    if Passes(s.a, offset, bytes) {
      ResponseFits(c, s, i, bytes);
      ResponseBytes(c, s, i, bytes);
      hide Live, Honest, Passes, DataResponse, Awaited, Step, PlanFollowed, NextChunk, PullComplete;
      if |bytes| < s.a.req.bytesRemaining {
        ChunkFollows(c, s, offset, bytes, env);
      } else {
        CompletesIs(c, s, offset, bytes, env);
        WindowAnswered(c, s, bytes, env);
      }
    }
  }

  lemma WindowAnswered(c: Config, s: State, bytes: seq<byte>, env: Env)
    requires c.Valid() && Live(c, s) && s.f.state.Active? && s.a.attached
    requires s.h.pull.Pull? && 0 < |bytes| == s.a.req.bytesRemaining && Awaited(c, s.a, s.h.pull.kind, bytes)
    ensures |bytes| < TWO_32 && PlanFollowed(c, s, env, PullComplete(c, Full(s, bytes), env))
  {
    FullArrived(c, s, bytes);
    SameStartFull(s, bytes);
    hide *;
    var s0 := Full(s, bytes);
    PullFollows(c, s0, s.h.pull, Upto(s), env);
    PlanFrom(c, s, s0, Upto(s), env);
  }

  lemma FullArrived(c: Config, s: State, bytes: seq<byte>)
    requires c.Valid() && Live(c, s) && s.f.state.Active? && s.a.attached && s.h.pull.Pull?
    requires 0 < |bytes| == s.a.req.bytesRemaining && Awaited(c, s.a, s.h.pull.kind, bytes)
    ensures |bytes| < TWO_32
    ensures Full(s, bytes).a.core == s.a.core && Arrived(c, Full(s, bytes), s.h.pull, Upto(s))
  {
    FullRight(c, s, bytes);
    PullFields(c, s);
    FullKeeps(s, bytes);
    SameStartFull(s, bytes);
    hide Live, Full, Pulled, Awaited, Expected, WindowLen, WindowBase;
  }

  lemma SameStartFull(s: State, bytes: seq<byte>)
    requires |bytes| < TWO_32
    ensures SameStart(s, Full(s, bytes)) && Full(s, bytes).f == s.f
  {
    hide Overwrite, Sum32, Diff32;
  }

  lemma PlanFrom(c: Config, s: State, s0: State, upto: nat, env: Env)
    requires s.h.pull.Pull? && SameStart(s, s0) && s0.f == s.f && upto == Upto(s)
    requires Answered(c, s0, s.h.pull, upto, env)
    ensures PlanFollowed(c, s, env, PullComplete(c, s0, env))
  {
    TalliedSame(c, s, s0, s.h.pull, upto, env);
    hide Tallied, After, Follows, Upto, PullComplete;
    FollowsFrom(c, Tallied(c, s, s.h.pull, upto, env), Tallied(c, s0, s.h.pull, upto, env),
                After(c, s.a.core, s.h.pull, upto, s.f.staged, s.f.busy, env), env, PullComplete(c, s0, env));
  }

  /** What the plan compares the next state with. */
  predicate SameStart(s: State, s0: State) {
    && s0.a.core == s.a.core && s0.h.log == s.h.log && s0.allowed == s.allowed
    && s0.f.staged == s.f.staged && s0.h.verified == s.h.verified && s0.f.busy == s.f.busy
  }

  lemma WritersSame(s: State, s0: State, v: Verified, busy: bool)
    requires SameStart(s, s0)
    ensures SameStart(WithWriter(s, busy), WithWriter(s0, busy))
    ensures SameStart(CountedWith(s, v), CountedWith(s0, v)) && SameStart(Uncounted(s), Uncounted(s0))
    ensures s.f.busy == s0.f.busy && s.a.core == s0.a.core
  {
  }

  lemma HeaderWriterSame(c: Config, s: State, s0: State, image: seq<byte>, index: nat, env: Env)
    requires SameStart(s, s0)
    ensures SameStart(HeaderWriter(c, s, image, index, env), HeaderWriter(c, s0, image, index, env))
  {
    var v := Verified(0, []);
    WritersSame(s, s0, v, false);
    WritersSame(s, s0, v, WriterStarts(s.f.busy, env));
    hide PayloadHeaderOf, WithWriter, WriterStarts, SameStart, Sum32;
  }

  lemma HeadersSame(c: Config, s: State, s0: State, pull: Pull, upto: nat, env: Env)
    requires pull.Pull? && (pull.kind.SbHeaderKind? || pull.kind.SbMetadataKind?) && SameStart(s, s0)
    ensures SameStart(Tallied(c, s, pull, upto, env), Tallied(c, s0, pull, upto, env))
  {
    WritersSame(s, s0, Verified(0, []), false);
    hide SbHeaderOf, PayloadHeaderOf, PayloadOf, HashRight, AfterSbHeader, AfterSbMetadata, MetadataOf, ParseTlvs,
      AnyBad, HeaderWriter, WithWriter, CountedWith, Uncounted, WriterStarts, SameStart;
  }

  lemma PayloadHeadersSame(c: Config, s: State, s0: State, pull: Pull, upto: nat, env: Env)
    requires pull.Pull? && (pull.kind.PayloadHeaderKind? || pull.kind.PayloadMetadataKind?) && SameStart(s, s0)
    ensures SameStart(Tallied(c, s, pull, upto, env), Tallied(c, s0, pull, upto, env))
  {
    WritersSame(s, s0, Verified(0, []), WriterStarts(s.f.busy, env));
    if pull.index >= 0 {
      HeaderWriterSame(c, s, s0, c.images(s.a.core), pull.index, env);
    }
    hide SbHeaderOf, PayloadHeaderOf, PayloadOf, HashRight, AfterSbHeader, AfterSbMetadata, MetadataOf, ParseTlvs,
      AnyBad, HeaderWriter, WithWriter, CountedWith, Uncounted, WriterStarts, SameStart;
  }

  lemma WindowsSame(c: Config, s: State, s0: State, pull: Pull, upto: nat, env: Env)
    requires pull.Pull? && pull.kind.PayloadDataKind? && SameStart(s, s0)
    ensures SameStart(Tallied(c, s, pull, upto, env), Tallied(c, s0, pull, upto, env))
  {
    if pull.index >= 0 {
      WritersSame(s, s0, Verified(pull.index, PayloadOf(c.images(s.a.core), pull.index)), false);
    }
    hide SbHeaderOf, PayloadHeaderOf, PayloadOf, HashRight, AfterSbHeader, AfterSbMetadata, MetadataOf, ParseTlvs,
      AnyBad, HeaderWriter, WithWriter, CountedWith, Uncounted, WriterStarts, SameStart;
  }

  lemma TalliedSame(c: Config, s: State, s0: State, pull: Pull, upto: nat, env: Env)
    requires pull.Pull? && SameStart(s, s0)
    ensures SameStart(Tallied(c, s, pull, upto, env), Tallied(c, s0, pull, upto, env))
  {
    hide *;
    match pull.kind
    case SbHeaderKind => HeadersSame(c, s, s0, pull, upto, env);
    case SbMetadataKind => HeadersSame(c, s, s0, pull, upto, env);
    case PayloadHeaderKind => PayloadHeadersSame(c, s, s0, pull, upto, env);
    case PayloadMetadataKind => PayloadHeadersSame(c, s, s0, pull, upto, env);
    case PayloadDataKind => WindowsSame(c, s, s0, pull, upto, env);
  }

  lemma FollowsFrom(c: Config, s: State, s0: State, next: Next, env: Env, s1: State)
    requires SameStart(s, s0) && Follows(c, s0, next, env, s1)
    ensures Follows(c, s, next, env, s1)
  {
    hide FirstChunk;
  }
}
