/**
 The firmware transfer of an accessory: the pull of a SuperBinary in windows and
 chunks, and on top of it the state of the asset with hash and writer. Each step
 is a function from state to state; an `Env` answers for the calls whose outcome
 the code cannot control.
 */
module Uarp {
  import opened Bytes
  import opened UarpImage

  const MAX_BYTES_REQUESTED: nat := 0xFFFF
  const APPLY_FLAGS_NEEDS_RESTART: nat := 0x0003
  const APPLY_FLAGS_FAST_RESET: nat := 0xFF

  // ----- Data ------------------------------------------------------------------

  /** What an offer says of an asset; equal offers are offers of the same image. */
  datatype Core = Core(flags: nat, tag: seq<byte>, version: seq<byte>, totalLength: u32, numPayloads: u16)

  /**
   The build options, the images that the controllers offer, SHA-256, and the
   payloads the application accepts.
   */
  datatype Config = Config(
    window: u16, maxRx: u16, images: Core -> seq<byte>, hash: seq<byte> -> seq<byte>, wanted: PayloadHeader -> bool)
  {
    /** The ranges of the build options; offsets and payload counts fit their fields. */
    ghost predicate Valid() {
      && 256 <= window && 0 < maxRx <= window
      && (forall core :: |images(core)| < TWO_32)
    }
  }

  /** A payload index; -1 is invalid. */
  type Index = x: int | -1 <= x < TWO_16

  datatype Kind = SbHeaderKind | SbMetadataKind | PayloadHeaderKind | PayloadMetadataKind | PayloadDataKind

  /** `struct uarpDataRequestObj`; the received bytes are at the front of the scratch buffer. */
  datatype Request = Request(
    kind: Kind, outstanding: bool, relativeOffset: u32, absoluteOffset: u32, currentOffset: u32,
    bytesRequested: u32, bytesResponded: u32, bytesRemaining: u32)

  /** `struct uarpPayloadObj`. */
  datatype Payload = Payload(hdr: PayloadHeader, needsMetadata: bool, hasMetadata: bool) {
    predicate ShouldRequestMetadata() {
      needsMetadata && !hasMetadata
    }
  }

  /** `struct uarpPlatformAsset`; `attached` says that its controller is known. */
  datatype Asset = Asset(
    core: Core, attached: bool, sb: SbHeader,
    hasHeader: bool, hasPayloadHeader: bool, needsMetadata: bool, hasMetadata: bool,
    selected: Index, payload: Payload, recvd: u32, req: Request, scratch: seq<byte>)
  {
    predicate ShouldRequestMetadata() {
      needsMetadata && !hasMetadata
    }
  }

  datatype AssetState = NoAsset | Active | Orphaned | Staged | Applied | Failed

  /** The accessory's own state; the hash context is the bytes it has been fed. */
  datatype Accessory = Accessory(
    state: AssetState, staged: nat, payloadHash: seq<byte>, applyFlags: nat, busy: bool, hashed: seq<byte>)

  /** The pull in progress: what is requested, and for which payload index. */
  datatype Pull = NoPull | Pull(kind: Kind, index: int)

  /** A request message: the region offset `at` it asks for, and its offset and length. */
  datatype Entry = Entry(pull: Pull, at: nat, offset: u32, len: nat)

  /** A payload that was counted: the bytes handed to the writer. */
  datatype Verified = Verified(index: int, written: seq<byte>)

  /** A payload that another one followed: the bytes delivered for it, and how often it was complete. */
  datatype Done = Done(index: int, delivered: seq<byte>, completions: nat)

  /**
   What happened so far: the pull in progress and the last one completed, the request
   messages for the asset, the bytes delivered for the payload and how often it was
   complete, the payloads before it, the bytes handed to the writer since its start,
   the payloads counted, and whether a response ever left the scratch buffer.
   */
  datatype History = History(
    pull: Pull, last: Pull, log: seq<Entry>, delivered: seq<byte>, completions: nat, past: seq<Done>,
    written: seq<byte>, verified: seq<Verified>, overrun: bool)

  datatype State = State(connected: bool, allowed: bool, a: Asset, f: Accessory, h: History)

  /** The outcome of sending a request, sending a notification, and of the writer's calls. */
  datatype Env = Env(txOk: bool, notifyOk: bool, startOk: bool, writeOk: bool, finishOk: bool)

  function Min(a: nat, b: nat): nat {
    if a <= b then a else b
  }

  // ----- Requests ----------------------------------------------------------------

  /** The region a request lies in: where it starts and how long it is. */
  function Region(a: Asset, kind: Kind): (u32, u32) {
    match kind
    case SbHeaderKind => (0, SB_HEADER_LEN)
    case SbMetadataKind => (a.sb.metadataOffset, a.sb.metadataLength)
    case PayloadHeaderKind => (a.sb.payloadHeadersOffset, a.sb.payloadHeadersLength)
    case PayloadMetadataKind => (a.payload.hdr.metadataOffset, a.payload.hdr.metadataLength)
    case PayloadDataKind => (a.payload.hdr.offset, a.payload.hdr.length)
  }

  /** `uarpPlatformAssetRequestDataContinue`: asks for the next chunk. */
  function Continue(c: Config, s: State, env: Env): (State, bool) {
    var req := s.a.req;
    if req.bytesRemaining == 0 || !s.allowed then (s, true)
    else if !env.txOk then (s, false)
    else
      var n := Min(Min(req.bytesRemaining, c.maxRx), MAX_BYTES_REQUESTED);
      var e := Entry(s.h.pull, req.relativeOffset + req.bytesResponded, req.currentOffset, n);
      (s.(a := s.a.(req := req.(outstanding := true)), h := s.h.(log := s.h.log + [e])), true)
  }

  /** The request of a new pull before it is validated. */
  function Begun(req: Request, kind: Kind, rel: u32, needed: u32): Request {
    req.(kind := kind, outstanding := false, relativeOffset := rel, bytesRequested := needed, bytesResponded := 0)
  }

  /** `uarpPlatformAssetRequestData`: starts a pull. */
  function RequestData(c: Config, s: State, kind: Kind, rel: u32, needed: u32, env: Env): (State, bool) {
    if c.window < needed || s.a.req.outstanding then (s, false)
    else
      var req := Begun(s.a.req, kind, rel, needed);
      var (start, max) := Region(s.a, kind);
      if max == 0 || needed > max || Sum32(rel, needed) > max then
        (s.(a := s.a.(req := req), h := s.h.(pull := NoPull)), false)
      else
        var abs := Sum32(start, rel);
        var req1 := req.(absoluteOffset := abs, currentOffset := abs, bytesRemaining := needed);
        Continue(c, s.(a := s.a.(req := req1), h := s.h.(pull := Pull(kind, s.a.selected))), env)
  }

  /** `uarpPlatformAccessoryPayloadRequestData`: pulls the next window. */
  function PayloadRequestData(c: Config, s: State, env: Env): (State, bool) {
    var left := Diff32(s.a.payload.hdr.length, s.a.recvd);
    RequestData(c, s, PayloadDataKind, s.a.recvd, Min(left, c.window), env)
  }

  /** The payloads before the next one. */
  function WithDone(s: State): seq<Done> {
    if s.a.selected == -1 then [] else s.h.past + [Done(s.a.selected, s.h.delivered, s.h.completions)]
  }

  /** `uarpPlatformAssetSetPayloadIndex`. */
  function SetPayloadIndex(c: Config, s: State, index: nat, env: Env): (State, bool) {
    if index >= s.a.core.numPayloads then (s, false)
    else
      var a := s.a.(recvd := 0, selected := index, hasPayloadHeader := false,
                    payload := s.a.payload.(needsMetadata := false, hasMetadata := false));
      var h := s.h.(delivered := [], completions := 0, past := WithDone(s));
      RequestData(c, s.(a := a, h := h), PayloadHeaderKind, index * PAYLOAD_HEADER_LEN, PAYLOAD_HEADER_LEN, env)
  }

  // ----- The accessory's callbacks --------------------------------------------------

  function InState(s: State, state: AssetState): State {
    s.(f := s.f.(state := state))
  }

  /** `remove_asset`. */
  function Remove(s: State): State {
    s.(f := s.f.(state := NoAsset, busy := false), h := s.h.(pull := NoPull))
  }

  /** `report_failure`. */
  function ReportFailure(s: State): State {
    match s.f.state
    case Active => InState(s, Failed)
    case Staged => InState(s, Failed)
    case Orphaned => Remove(s)
    case _ => s
  }

  function OrFailure(r: (State, bool)): State {
    if r.1 then r.0 else ReportFailure(r.0)
  }

  /** `asset_fully_staged_mark`. */
  function FullyStagedMark(s: State, env: Env): State {
    if env.notifyOk then InState(s, Staged) else ReportFailure(InState(s, Staged))
  }

  /** `asset_meta_data_complete`. */
  function AssetMetadataComplete(c: Config, s: State, env: Env): State {
    OrFailure(SetPayloadIndex(c, s.(f := s.f.(staged := 0), h := s.h.(verified := [])), 0, env))
  }

  /** `asset_ready`. */
  function AssetReady(c: Config, s: State, env: Env): State {
    if s.a.sb.metadataLength > 0 then
      OrFailure(RequestData(c, s, SbMetadataKind, 0, s.a.sb.metadataLength, env))
    else AssetMetadataComplete(c, s, env)
  }

  /** `asset_payload_index_set_next`. */
  function SetNextIndex(c: Config, s: State, env: Env): State {
    OrFailure(SetPayloadIndex(c, s, s.a.selected + 1, env))
  }

  /** `payload_meta_data_complete`. */
  function PayloadMetadataComplete(c: Config, s: State, env: Env): State {
    if !s.f.state.Active? then s
    else if s.f.busy && !env.finishOk then ReportFailure(s.(f := s.f.(busy := false)))
    else if !env.startOk then ReportFailure(s.(f := s.f.(busy := false)))
    else OrFailure(PayloadRequestData(c, s.(f := s.f.(busy := true), h := s.h.(written := [])), env))
  }

  /** `payload_ready`. */
  function PayloadReady(c: Config, s: State, env: Env): State {
    if c.wanted(s.a.payload.hdr) then
      var s1 := s.(f := s.f.(applyFlags := APPLY_FLAGS_NEEDS_RESTART, hashed := [], payloadHash := NoHash()));
      if s.a.payload.hdr.metadataLength > 0 then
        OrFailure(RequestData(c, s1, PayloadMetadataKind, 0, s.a.payload.hdr.metadataLength, env))
      else PayloadMetadataComplete(c, s1, env)
    else if s.a.selected + 1 < s.a.core.numPayloads then SetNextIndex(c, s, env)
    else if s.f.staged > 0 then FullyStagedMark(s, env)
    else ReportFailure(s)
  }

  /** `payload_data_complete`. */
  function PayloadDataComplete(c: Config, s: State, env: Env): State {
    if !s.f.state.Active? then s
    else if c.hash(s.f.hashed) != s.f.payloadHash then ReportFailure(s)
    else if !env.finishOk then ReportFailure(s.(f := s.f.(busy := false)))
    else
      var s1 := s.(f := s.f.(busy := false, staged := s.f.staged + 1),
                   h := s.h.(verified := s.h.verified + [Verified(s.a.selected, s.h.written)]));
      if s.f.applyFlags == APPLY_FLAGS_FAST_RESET then InState(s1, Applied)
      else if s.a.selected + 1 < s.a.core.numPayloads then SetNextIndex(c, s1, env)
      else FullyStagedMark(s1, env)
  }

  // ----- Completed pulls ----------------------------------------------------------

  function SbHeaderComplete(c: Config, s: State, data: seq<byte>, env: Env): State
    requires |data| == SB_HEADER_LEN
  {
    var sb := ParseSbHeader(data);
    var s1 := s.(a := s.a.(sb := sb));
    if || sb.formatVersion != SB_FORMAT_VERSION
       || sb.headerLength != SB_HEADER_LEN
       || Sum32(sb.metadataOffset, sb.metadataLength) > s.a.core.totalLength
       || Sum32(sb.payloadHeadersOffset, sb.payloadHeadersLength) > s.a.core.totalLength
    then Remove(s1)
    else
      var needed := s.a.needsMetadata || sb.metadataLength > 0;
      AssetReady(c, s1.(a := s1.a.(hasHeader := true, needsMetadata := needed)), env)
  }

  function SbMetadataComplete(c: Config, s: State, data: seq<byte>, env: Env): State {
    var s1 := s.(a := s.a.(hasMetadata := true));
    if ParseTlvs(data).corrupt then s1 else AssetMetadataComplete(c, s1, env)
  }

  function PayloadHeaderComplete(c: Config, s: State, data: seq<byte>, env: Env): State
    requires |data| == PAYLOAD_HEADER_LEN
  {
    var hdr := ParsePayloadHeader(data);
    var s1 := s.(a := s.a.(hasPayloadHeader := true,
                           payload := s.a.payload.(
                             hdr := hdr, needsMetadata := s.a.payload.needsMetadata || hdr.metadataLength > 0)));
    if || Sum32(hdr.metadataOffset, hdr.metadataLength) > s.a.core.totalLength
       || Sum32(hdr.offset, hdr.length) > s.a.core.totalLength
    then Remove(s1)
    else PayloadReady(c, s1, env)
  }

  /** The TLV callbacks of the payload's metadata. */
  function ReadTlvs(s: State, tlvs: seq<Tlv>): State {
    var s1 := s.(f := s.f.(payloadHash := HashFrom(tlvs, s.f.payloadHash),
                           applyFlags := FlagsFrom(tlvs, s.f.applyFlags)));
    if AnyBad(tlvs) then ReportFailure(s1) else s1
  }

  function PayloadMetadataPullComplete(c: Config, s: State, data: seq<byte>, env: Env): State {
    var m := ParseTlvs(data);
    var s1 := s.(a := s.a.(hasMetadata := true, payload := s.a.payload.(hasMetadata := true)));
    var s2 := ReadTlvs(s1, m.tlvs);
    if m.corrupt then s2 else PayloadMetadataComplete(c, s2, env)
  }

  /** `payload_data`. */
  function PayloadData(s: State, data: seq<byte>, env: Env): State {
    var s1 := s.(f := s.f.(hashed := s.f.hashed + data),
                 h := s.h.(delivered := s.h.delivered + data,
                           written := if env.writeOk then s.h.written + data else s.h.written));
    if env.writeOk then s1 else ReportFailure(s1)
  }

  /** `uarpPlatformUpdatePayloadPayload`: a window is complete. */
  function WindowComplete(c: Config, s: State, data: seq<byte>, env: Env): State
    requires |data| < TWO_32
  {
    var s1 := PayloadData(s, data, env);
    var s2 := s1.(a := s1.a.(recvd := Sum32(s.a.recvd, |data|)));
    if s2.a.recvd == s.a.payload.hdr.length then
      PayloadDataComplete(c, s2.(h := s2.h.(completions := s2.h.completions + 1)), env)
    else PayloadRequestData(c, s2, env).0
  }

  function PullComplete(c: Config, s: State, env: Env): State {
    var n := s.a.req.bytesResponded;
    if n > |s.a.scratch| then s
    else
      var data := s.a.scratch[..n];
      match s.a.req.kind
      case SbHeaderKind => if n == SB_HEADER_LEN then SbHeaderComplete(c, s, data, env) else s
      case SbMetadataKind => SbMetadataComplete(c, s, data, env)
      case PayloadHeaderKind => if n == PAYLOAD_HEADER_LEN then PayloadHeaderComplete(c, s, data, env) else s
      case PayloadMetadataKind => PayloadMetadataPullComplete(c, s, data, env)
      case PayloadDataKind => WindowComplete(c, s, data, env)
  }

  /** `memcpy` into the scratch buffer; what does not fit is not modelled, see Received. */
  function Overwrite(scratch: seq<byte>, at: nat, bytes: seq<byte>): (r: seq<byte>)
    ensures |r| == |scratch|
  {
    if at + |bytes| <= |scratch| then scratch[..at] + bytes + scratch[at + |bytes|..] else scratch
  }

  /** The request and the scratch buffer after accepting a response. */
  function Accept(a: Asset, bytes: seq<byte>): Asset
    requires |bytes| < TWO_32
  {
    var responded := Sum32(a.req.bytesResponded, |bytes|);
    a.(scratch := Overwrite(a.scratch, a.req.bytesResponded, bytes),
       req := a.req.(outstanding := false, bytesResponded := responded,
                     bytesRemaining := Diff32(a.req.bytesRequested, responded),
                     currentOffset := Sum32(a.req.absoluteOffset, responded)))
  }

  /** The checks of a response. */
  predicate Passes(a: Asset, offset: u32, bytes: seq<byte>) {
    a.req.currentOffset == offset && a.req.bytesRequested >= |bytes|
  }

  /** The response goes behind the received bytes, whether or not it fits the scratch buffer. */
  function Received(s: State, bytes: seq<byte>): State
    requires |bytes| < TWO_32
  {
    s.(a := Accept(s.a, bytes),
       h := s.h.(overrun := s.h.overrun || s.a.req.bytesResponded + |bytes| > |s.a.scratch|))
  }

  /** No pull is in progress any more. */
  function Finished(s: State): State {
    s.(h := s.h.(pull := NoPull, last := s.h.pull))
  }

  /** `uarpPlatformAssetDataResponse`. */
  function DataResponse(c: Config, s: State, offset: u32, bytes: seq<byte>, env: Env): State {
    if !Passes(s.a, offset, bytes) then s
    else
      var s1 := Received(s, bytes);
      if s1.a.req.bytesResponded == s1.a.req.bytesRequested then PullComplete(c, Finished(s1), env)
      else Continue(c, s1, env).0
  }

  // ----- Offers --------------------------------------------------------------------

  const NEW_REQUEST: Request := Request(SbHeaderKind, false, 0, 0, 0, 0, 0, 0)
  const NEW_SB_HEADER: SbHeader := SbHeader(0, 0, 0, [], 0, 0, 0, 0)
  const NEW_PAYLOAD: Payload := Payload(PayloadHeader(0, [], [], 0, 0, 0, 0), false, false)

  /** An offered asset, zeroed but for its core and index. */
  function NewAsset(c: Config, core: Core): Asset {
    Asset(core, true, NEW_SB_HEADER, false, false, false, false, -1, NEW_PAYLOAD, 0, NEW_REQUEST, Zeros(c.window))
  }

  /** `uarpPlatformAccessoryAssetAccept`: where an asset, new or merged, goes on. */
  function AssetAccept(c: Config, s: State, env: Env): (State, bool) {
    var a := s.a;
    if !a.hasHeader && !a.hasPayloadHeader then RequestData(c, s, SbHeaderKind, 0, SB_HEADER_LEN, env)
    else if a.ShouldRequestMetadata() then
      if a.sb.metadataLength > 0 then RequestData(c, s, SbMetadataKind, 0, a.sb.metadataLength, env) else (s, false)
    else if a.selected == -1 then (AssetMetadataComplete(c, s, env), true)
    else if a.payload.ShouldRequestMetadata() then (PayloadReady(c, s, env), true)
    else PayloadRequestData(c, s, env)
  }

  /** Accepts the asset; it is released again if its first request fails. */
  function TakeOn(c: Config, s: State, env: Env): State {
    var (s1, ok) := AssetAccept(c, InState(s, Active), env);
    if ok then s1 else s1.(f := s1.f.(state := NoAsset), h := s1.h.(pull := NoPull))
  }

  /** Nothing has been requested or delivered for a new asset. */
  function NewHistory(h: History): History {
    History(NoPull, NoPull, [], [], 0, [], h.written, [], h.overrun)
  }

  /** A new asset takes the place of the old one. */
  function Adopt(c: Config, s: State, core: Core, env: Env): State {
    TakeOn(c, s.(a := NewAsset(c, core), h := NewHistory(s.h)), env)
  }

  /** `uarpPlatformAccessorySuperBinaryMerge`. */
  function Merge(s: State): State {
    s.(a := s.a.(attached := true, req := s.a.req.(outstanding := false)))
  }

  /** `super_binary_offered`. */
  function Offered(c: Config, s: State, core: Core, acceptable: bool, env: Env): State {
    if !acceptable then s
    else
      match s.f.state
      case NoAsset => Adopt(c, s, core, env)
      case Orphaned => if s.a.core == core then TakeOn(c, Merge(s), env) else Adopt(c, s, core, env)
      case _ => s
  }

  // ----- Events ----------------------------------------------------------------------

  /** `Response` answers the request message number `i` for the asset. */
  datatype Event =
    | Connect
    | Disconnect
    | Offer(core: Core, acceptable: bool, env: Env)
    | Response(i: nat, bytes: seq<byte>, env: Env)
    | Pause
    | Resume(env: Env)
    | Rescind
    | Apply

  predicate HasAsset(s: State) {
    !s.f.state.NoAsset?
  }

  /** `asset_orphaned`, for an asset whose controller is gone. */
  function Orphan(s: State): State {
    var s1 := s.(a := s.a.(attached := false));
    match s.f.state
    case Active => InState(s1, Orphaned)
    case Staged => Remove(s1)
    case Failed => Remove(s1)
    case _ => s1
  }

  function Step(c: Config, s: State, e: Event): State {
    match e
    case Connect => if s.connected then s else s.(connected := true, allowed := true)
    case Disconnect =>
      if !s.connected then s
      else if HasAsset(s) && s.a.attached then Orphan(s.(connected := false))
      else s.(connected := false)
    case Offer(core, acceptable, env) => if s.connected then Offered(c, s, core, acceptable, env) else s
    case Response(i, bytes, env) =>
      if s.connected && HasAsset(s) && s.a.attached && i < |s.h.log| then
        DataResponse(c, s, s.h.log[i].offset, bytes, env)
      else s
    case Pause => if s.connected then s.(allowed := false) else s
    case Resume(env) =>
      if !s.connected || s.allowed then s
      else
        var s1 := s.(allowed := true);
        if HasAsset(s1) && s1.a.attached then Continue(c, s1, env).0 else s1
    case Rescind => if s.connected && HasAsset(s) && s.a.attached then Remove(s) else s
    case Apply => if s.connected && s.f.state.Staged? then InState(s, Applied) else s
  }

  /** The accessory after initialization. */
  function Init(c: Config): State {
    State(false, false, NewAsset(c, Core(0, [], [], 0, 0)),
          Accessory(NoAsset, 0, NoHash(), 0, false, []), History(NoPull, NoPull, [], [], 0, [], [], [], false))
  }

  function Run(c: Config, events: seq<Event>): State {
    if events == [] then Init(c) else Step(c, Run(c, events[..|events| - 1]), events[|events| - 1])
  }
}
