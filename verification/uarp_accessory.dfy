/** The accessory with its asset as the code keeps them: structures updated in place. */
module UarpAccessory {
  import opened Bytes
  import opened UarpImage
  import opened Uarp
  import opened UarpInvariant
  import opened UarpSteps
  import opened UarpResponses
  import opened UarpEvents
  import opened UarpTheorems

  class UarpDevice {
    const c: Config

    // the controller's link
    var connected: bool
    var allowed: bool

    // struct uarpPlatformAsset
    var core: Core
    var attached: bool
    var sb: SbHeader
    var hasHeader: bool
    var hasPayloadHeader: bool
    var needsMetadata: bool
    var hasMetadata: bool
    var selected: Index
    var payload: Payload
    var recvd: u32
    var req: Request
    var scratch: array<byte>

    // struct fmna_uarp_accessory
    var state: AssetState
    var staged: nat
    var payloadHash: seq<byte>
    var applyFlags: nat
    var busy: bool
    var hashed: seq<byte>

    ghost var h: History

    ghost function S(): State
      reads this, scratch
    {
      State(connected, allowed,
            Asset(core, attached, sb, hasHeader, hasPayloadHeader, needsMetadata, hasMetadata, selected, payload,
                  recvd, req, scratch[..]),
            Accessory(state, staged, payloadHash, applyFlags, busy, hashed), h)
    }

    ghost predicate Valid()
      reads this, scratch
    {
      c.Valid() && scratch.Length == c.window && Inv(c, S())
    }

    constructor (c: Config)
      requires c.Valid()
      ensures Valid() && this.c == c && S() == Init(c) && fresh(scratch)
    {
      this.c := c;
      connected, allowed := false, false;
      core, attached, sb := Core(0, [], [], 0, 0), true, NEW_SB_HEADER;
      hasHeader, hasPayloadHeader, needsMetadata, hasMetadata := false, false, false, false;
      selected, payload, recvd, req := -1, NEW_PAYLOAD, 0, NEW_REQUEST;
      scratch := new byte[c.window](_ => 0);
      state, staged, payloadHash, applyFlags, busy, hashed := NoAsset, 0, NoHash(), 0, false, [];
      h := History(NoPull, NoPull, [], [], 0, [], [], [], false);
      new;
      assert scratch[..] == Zeros(c.window);
    }

    // ----- Requests -----------------------------------------------------------------

    /** `uarpPlatformAssetRequestDataContinue`. */
    method RequestDataContinue(env: Env) returns (ok: bool)
      modifies this
      ensures scratch == old(scratch) && (S(), ok) == Continue(c, old(S()), env)
    {
      if req.bytesRemaining == 0 {
        return true;
      }
      var n: nat := req.bytesRemaining;
      if n > c.maxRx {
        n := c.maxRx;
      }
      if !allowed {
        return true;
      }
      if n > MAX_BYTES_REQUESTED {
        n := MAX_BYTES_REQUESTED;
      }
      if !env.txOk {
        return false;
      }
      h := h.(log := h.log + [Entry(h.pull, req.relativeOffset + req.bytesResponded, req.currentOffset, n)]);
      req := req.(outstanding := true);
      return true;
    }

    /** Where requests of a kind may lie. */
    method RegionOfKind(kind: Kind) returns (start: u32, max: u32)
      ensures (start, max) == Region(S().a, kind)
    {
      match kind {
        case SbHeaderKind => start, max := 0, SB_HEADER_LEN;
        case SbMetadataKind => start, max := sb.metadataOffset, sb.metadataLength;
        case PayloadHeaderKind => start, max := sb.payloadHeadersOffset, sb.payloadHeadersLength;
        case PayloadMetadataKind => start, max := payload.hdr.metadataOffset, payload.hdr.metadataLength;
        case PayloadDataKind => start, max := payload.hdr.offset, payload.hdr.length;
      }
    }

    /** The request that failed its checks is kept, but no pull is in progress. */
    method RejectRequest(request: Request)
      modifies `req, `h
      ensures S() == old(S()).(a := old(S()).a.(req := request), h := old(h).(pull := NoPull))
    {
      req := request;
      h := h.(pull := NoPull);
    }

    /** The request that passed its checks. */
    method BeginRequest(request: Request)
      modifies `req, `h
      ensures S() == old(S()).(a := old(S()).a.(req := request), h := old(h).(pull := Pull(request.kind, selected)))
    {
      req := request;
      h := h.(pull := Pull(request.kind, selected));
    }

    /** `uarpPlatformAssetRequestData`. */
    method AssetRequestData(kind: Kind, rel: u32, needed: u32, env: Env) returns (ok: bool)
      modifies this
      ensures scratch == old(scratch) && (S(), ok) == RequestData(c, old(S()), kind, rel, needed, env)
    {
      hide Continue, Region;
      if c.window < needed {
        return false;
      }
      if req.outstanding {
        return false;
      }
      var request := req.(kind := kind, outstanding := false, relativeOffset := rel, bytesRequested := needed,
                          bytesResponded := 0);
      var start, max := RegionOfKind(kind);
      if max == 0 || needed > max || Sum32(rel, needed) > max {
        RejectRequest(request);
        return false;
      }
      BeginRequest(request.(absoluteOffset := Sum32(start, rel), currentOffset := Sum32(start, rel),
                            bytesRemaining := needed));
      ok := RequestDataContinue(env);
    }

    /** `uarpPlatformAccessoryPayloadRequestData`. */
    method RequestPayload(env: Env) returns (ok: bool)
      modifies this
      ensures scratch == old(scratch) && (S(), ok) == PayloadRequestData(c, old(S()), env)
    {
      hide RequestData;
      var length := Diff32(payload.hdr.length, recvd);
      if length > c.window {
        length := c.window;
      }
      ok := AssetRequestData(PayloadDataKind, recvd, length, env);
    }

    /** The payload before the next one is noted. */
    ghost method NoteDone()
      modifies `h
      ensures h == old(h).(delivered := [], completions := 0, past := WithDone(old(S())))
    {
      h := h.(delivered := [], completions := 0, past := WithDone(S()));
    }

    /** The fields of a newly selected payload. */
    method ResetFields(index: u16)
      modifies `recvd, `selected, `hasPayloadHeader, `payload
      ensures recvd == 0 && selected == index && !hasPayloadHeader
      ensures payload == old(payload).(needsMetadata := false, hasMetadata := false)
    {
      recvd := 0;
      selected := index;
      hasPayloadHeader := false;
      payload := payload.(needsMetadata := false, hasMetadata := false);
    }

    /** Another payload is selected; its header is not held yet. */
    method ResetPayload(index: u16)
      modifies this
      ensures scratch == old(scratch) && S() == Selected(old(S()), index)
    {
      hide WithDone;
      NoteDone();
      ResetFields(index);
    }

    /** `uarpPlatformAssetSetPayloadIndex`. */
    method SelectPayload(index: nat, env: Env) returns (ok: bool)
      modifies this
      ensures scratch == old(scratch) && (S(), ok) == SetPayloadIndex(c, old(S()), index, env)
    {
      hide RequestData;
      if index >= core.numPayloads {
        return false;
      }
      SetPayloadIndexIs(c, S(), index, env);
      hide SetPayloadIndex;
      ResetPayload(index);
      hide Selected;
      ok := AssetRequestData(PayloadHeaderKind, index * PAYLOAD_HEADER_LEN, PAYLOAD_HEADER_LEN, env);
    }

    // ----- Callbacks ------------------------------------------------------------------

    /** `remove_asset`. */
    method RemoveAsset()
      modifies this
      ensures scratch == old(scratch) && S() == Remove(old(S()))
    {
      state := NoAsset;
      busy := false;
      h := h.(pull := NoPull);
    }

    /** `report_failure`. */
    method Fail()
      modifies this
      ensures scratch == old(scratch) && S() == ReportFailure(old(S()))
    {
      match state {
        case Active => state := Failed;
        case Staged => state := Failed;
        case Orphaned => RemoveAsset();
        case _ =>
      }
    }

    /** `asset_fully_staged_mark`. */
    method MarkFullyStaged(env: Env)
      modifies this
      ensures scratch == old(scratch) && S() == FullyStagedMark(old(S()), env)
    {
      state := Staged;
      if !env.notifyOk {
        Fail();
      }
    }

    /** `asset_meta_data_complete`. */
    method OnAssetMetadataComplete(env: Env)
      modifies this
      ensures scratch == old(scratch) && S() == AssetMetadataComplete(c, old(S()), env)
    {
      hide SetPayloadIndex, ReportFailure;
      staged := 0;
      h := h.(verified := []);
      var ok := SelectPayload(0, env);
      if !ok {
        Fail();
      }
    }

    /** `asset_ready`. */
    method OnAssetReady(env: Env)
      modifies this
      ensures scratch == old(scratch) && S() == AssetReady(c, old(S()), env)
    {
      hide RequestData, AssetMetadataComplete, ReportFailure;
      if sb.metadataLength > 0 {
        var ok := AssetRequestData(SbMetadataKind, 0, sb.metadataLength, env);
        if !ok {
          Fail();
        }
      } else {
        OnAssetMetadataComplete(env);
      }
    }

    /** `asset_payload_index_set_next`. */
    method SelectNextPayload(env: Env)
      modifies this
      ensures scratch == old(scratch) && S() == SetNextIndex(c, old(S()), env)
    {
      hide SetPayloadIndex, ReportFailure;
      var ok := SelectPayload(selected + 1, env);
      if !ok {
        Fail();
      }
    }

    /** `payload_meta_data_complete`. */
    method OnPayloadMetadataComplete(env: Env)
      modifies this
      ensures scratch == old(scratch) && S() == PayloadMetadataComplete(c, old(S()), env)
    {
      hide PayloadRequestData, ReportFailure;
      if state != Active {
        return;
      }
      if busy {
        busy := false;
        if !env.finishOk {
          Fail();
          return;
        }
      }
      if !env.startOk {
        Fail();
        return;
      }
      busy := true;
      h := h.(written := []);
      var ok := RequestPayload(env);
      if !ok {
        Fail();
      }
    }

    /** `payload_ready`. */
    method OnPayloadReady(env: Env)
      modifies this
      ensures scratch == old(scratch) && S() == PayloadReady(c, old(S()), env)
    {
      hide RequestData, PayloadMetadataComplete, SetNextIndex, FullyStagedMark, ReportFailure;
      if c.wanted(payload.hdr) {
        applyFlags := APPLY_FLAGS_NEEDS_RESTART;
        hashed := [];
        payloadHash := NoHash();
        if payload.hdr.metadataLength > 0 {
          var ok := AssetRequestData(PayloadMetadataKind, 0, payload.hdr.metadataLength, env);
          if !ok {
            Fail();
          }
        } else {
          OnPayloadMetadataComplete(env);
        }
      } else if selected + 1 < core.numPayloads {
        SelectNextPayload(env);
      } else if staged > 0 {
        MarkFullyStaged(env);
      } else {
        Fail();
      }
    }

    /** The payload is counted. */
    method Count()
      requires !busy
      modifies `staged, `h
      ensures S() == CountedOne(old(S()))
    {
      staged := staged + 1;
      h := h.(verified := h.verified + [Verified(selected, h.written)]);
    }

    /** `payload_data_complete`. */
    method OnPayloadDataComplete(env: Env)
      modifies this
      ensures scratch == old(scratch) && S() == PayloadDataComplete(c, old(S()), env)
    {
      hide SetNextIndex, FullyStagedMark, ReportFailure;
      if state != Active {
        return;
      }
      if c.hash(hashed) != payloadHash {
        Fail();
        return;
      }
      busy := false;
      if !env.finishOk {
        Fail();
        return;
      }
      Count();
      if applyFlags == APPLY_FLAGS_FAST_RESET {
        state := Applied;
      } else if selected + 1 < core.numPayloads {
        SelectNextPayload(env);
      } else {
        MarkFullyStaged(env);
      }
    }

    /** `payload_data`: feeds hash and writer. */
    method OnPayloadData(data: seq<byte>, env: Env)
      modifies this
      ensures scratch == old(scratch) && S() == PayloadData(old(S()), data, env)
      ensures payload == old(payload) && recvd == old(recvd)
    {
      hashed := hashed + data;
      h := h.(delivered := h.delivered + data, written := if env.writeOk then h.written + data else h.written);
      if !env.writeOk {
        Fail();
      }
    }

    // ----- Completed pulls -----------------------------------------------------------

    /** `payload_meta_data_tlv`. */
    method OnPayloadTlv(t: Tlv)
      modifies this
      ensures scratch == old(scratch) && S() == ReadTlvs(old(S()), [t])
    {
      OneTlv(S(), t);
      if t.kind == TLV_TYPE_SHA2 {
        if |t.value| == HASH_LEN {
          payloadHash := t.value;
        } else {
          Fail();
        }
      } else if t.kind == TLV_TYPE_APPLY_FLAGS {
        if |t.value| == 1 {
          applyFlags := t.value[0];
        } else {
          Fail();
        }
      }
    }

    /** `uarpPlatformUpdateMetaData`: the TLVs one by one; those of the asset are only logged. */
    method UpdateMetadata(data: seq<byte>, forPayload: bool) returns (corrupt: bool)
      modifies this
      ensures scratch == old(scratch) && corrupt == ParseTlvs(data).corrupt
      ensures S() == if forPayload then ReadTlvs(old(S()), ParseTlvs(data).tlvs) else old(S())
    {
      hide ParseTlvs, ReadTlvs, Be32;
      var pos: nat := 0;
      assert data[0..] == data;
      while |data| - pos >= TLV_HEADER_LEN
        invariant pos <= |data| && scratch == old(scratch)
        invariant ParseTlvs(data).corrupt == ParseTlvs(data[pos..]).corrupt
        invariant forPayload ==> ReadTlvs(S(), ParseTlvs(data[pos..]).tlvs) == ReadTlvs(old(S()), ParseTlvs(data).tlvs)
        invariant !forPayload ==> S() == old(S())
      {
        NextTlv(data, pos);
        var kind := Be32(data[pos..pos + 4]);
        var length := Be32(data[pos + 4..pos + 8]);
        pos := pos + TLV_HEADER_LEN;
        if |data| - pos < length {
          NoTlvs(S());
          return true;
        }
        var t := Tlv(kind, data[pos..pos + length]);
        pos := pos + length;
        if forPayload {
          ReadTlvsCons(S(), t, ParseTlvs(data[pos..]).tlvs);
          OnPayloadTlv(t);
        }
      }
      NoTlvs(S());
      LastTlv(data[pos..]);
      return false;
    }

    /** `uarpPlatformSuperBinaryHeaderDataRequestComplete`. */
    method OnSbHeader(data: seq<byte>, env: Env)
      requires |data| == SB_HEADER_LEN
      modifies this
      ensures scratch == old(scratch) && S() == SbHeaderComplete(c, old(S()), data, env)
    {
      hide AssetReady, ParseSbHeader, Remove;
      sb := ParseSbHeader(data);
      var corrupt := false;
      if sb.formatVersion != SB_FORMAT_VERSION {
        corrupt := true;
      } else if sb.headerLength != SB_HEADER_LEN {
        corrupt := true;
      } else if Sum32(sb.metadataOffset, sb.metadataLength) > core.totalLength {
        corrupt := true;
      } else if Sum32(sb.payloadHeadersOffset, sb.payloadHeadersLength) > core.totalLength {
        corrupt := true;
      }
      if corrupt {
        RemoveAsset();
      } else {
        if sb.metadataLength > 0 {
          needsMetadata := true;
        }
        hasHeader := true;
        OnAssetReady(env);
      }
    }

    /** `uarpPlatformUpdateSuperBinaryMetaData`. */
    method OnSbMetadata(data: seq<byte>, env: Env)
      modifies this
      ensures scratch == old(scratch) && S() == SbMetadataComplete(c, old(S()), data, env)
    {
      hide AssetMetadataComplete, ReadTlvs, ParseTlvs;
      hasMetadata := true;
      var corrupt := UpdateMetadata(data, false);
      if !corrupt {
        OnAssetMetadataComplete(env);
      }
    }

    /** `uarpPlatformAssetPayloadHeaderDataRequestComplete`. */
    method OnPayloadHeader(data: seq<byte>, env: Env)
      requires |data| == PAYLOAD_HEADER_LEN
      modifies this
      ensures scratch == old(scratch) && S() == PayloadHeaderComplete(c, old(S()), data, env)
    {
      hide PayloadReady, ParsePayloadHeader, Remove;
      payload := payload.(hdr := ParsePayloadHeader(data));
      hasPayloadHeader := true;
      if payload.hdr.metadataLength > 0 {
        payload := payload.(needsMetadata := true);
      }
      if Sum32(payload.hdr.metadataOffset, payload.hdr.metadataLength) > core.totalLength {
        RemoveAsset();
      } else if Sum32(payload.hdr.offset, payload.hdr.length) > core.totalLength {
        RemoveAsset();
      } else {
        OnPayloadReady(env);
      }
    }

    /** `uarpPlatformUpdatePayloadMetaData`. */
    method OnPayloadMetadata(data: seq<byte>, env: Env)
      modifies this
      ensures scratch == old(scratch) && S() == PayloadMetadataPullComplete(c, old(S()), data, env)
    {
      hide PayloadMetadataComplete, ReadTlvs, ParseTlvs;
      payload := payload.(hasMetadata := true);
      hasMetadata := true;
      var corrupt := UpdateMetadata(data, true);
      if !corrupt {
        OnPayloadMetadataComplete(env);
      }
    }

    /** `uarpPlatformUpdatePayloadPayload`. */
    method OnWindow(data: seq<byte>, env: Env)
      requires |data| < TWO_32
      modifies this
      ensures scratch == old(scratch) && S() == WindowComplete(c, old(S()), data, env)
    {
      hide PayloadData, PayloadDataComplete, PayloadRequestData;
      OnPayloadData(data, env);
      recvd := Sum32(recvd, |data|);
      if recvd == payload.hdr.length {
        h := h.(completions := h.completions + 1);
        OnPayloadDataComplete(env);
      } else {
        var _ := RequestPayload(env);
      }
    }

    /** `uarpPlatformDataRequestComplete` and the hijacked completions. */
    method OnPullComplete(env: Env)
      requires req.bytesResponded <= scratch.Length
      requires req.kind.SbHeaderKind? ==> req.bytesResponded == SB_HEADER_LEN
      requires req.kind.PayloadHeaderKind? ==> req.bytesResponded == PAYLOAD_HEADER_LEN
      modifies this
      ensures scratch == old(scratch) && S() == PullComplete(c, old(S()), env)
    {
      hide SbHeaderComplete, SbMetadataComplete, PayloadHeaderComplete, PayloadMetadataPullComplete, WindowComplete;
      var data := scratch[..req.bytesResponded];
      match req.kind {
        case SbHeaderKind => OnSbHeader(data, env);
        case SbMetadataKind => OnSbMetadata(data, env);
        case PayloadHeaderKind => OnPayloadHeader(data, env);
        case PayloadMetadataKind => OnPayloadMetadata(data, env);
        case PayloadDataKind => OnWindow(data, env);
      }
    }

    /** `memcpy` into the scratch buffer behind what has been received. */
    method CopyResponse(bytes: seq<byte>)
      requires req.bytesResponded + |bytes| <= scratch.Length
      modifies scratch
      ensures scratch[..] == Overwrite(old(scratch[..]), req.bytesResponded, bytes)
    {
      var at := req.bytesResponded;
      forall i | 0 <= i < |bytes| {
        scratch[at + i] := bytes[i];
      }
      assert scratch[..at] == old(scratch[..at]);
      assert scratch[at..at + |bytes|] == bytes;
      assert scratch[at + |bytes|..] == old(scratch[at + |bytes|..]);
      assert scratch[..] == scratch[..at] + scratch[at..at + |bytes|] + scratch[at + |bytes|..];
    }

    /** `uarpPlatformAssetDataResponse`, for an asset that is found. */
    method OnResponse(offset: u32, bytes: seq<byte>, env: Env)
      requires Passes(S().a, offset, bytes) ==> ResponseSafe(S(), bytes)
      modifies this, scratch
      ensures scratch == old(scratch) && S() == DataResponse(c, old(S()), offset, bytes, env)
    {
      hide PullComplete, Overwrite;
      if req.currentOffset != offset {
        return;
      }
      if req.bytesRequested < |bytes| {
        return;
      }
      CopyResponse(bytes);
      req := req.(bytesResponded := Sum32(req.bytesResponded, |bytes|), outstanding := false);
      req := req.(bytesRemaining := Diff32(req.bytesRequested, req.bytesResponded));
      req := req.(currentOffset := Sum32(req.absoluteOffset, req.bytesResponded));
      if req.bytesResponded == req.bytesRequested {
        h := h.(pull := NoPull, last := h.pull);
        OnPullComplete(env);
      } else if allowed {
        var _ := RequestDataContinue(env);
      }
    }

    // ----- Offers --------------------------------------------------------------------

    /** `uarpPlatformAccessoryAssetAccept`. */
    method AcceptAsset(env: Env) returns (ok: bool)
      modifies this
      ensures scratch == old(scratch) && (S(), ok) == AssetAccept(c, old(S()), env)
    {
      hide RequestData, AssetMetadataComplete, PayloadReady, PayloadRequestData;
      ok := true;
      if !hasHeader && !hasPayloadHeader {
        ok := AssetRequestData(SbHeaderKind, 0, SB_HEADER_LEN, env);
      } else if needsMetadata && !hasMetadata {
        if sb.metadataLength > 0 {
          ok := AssetRequestData(SbMetadataKind, 0, sb.metadataLength, env);
        } else {
          ok := false;
        }
      } else if selected == -1 {
        OnAssetMetadataComplete(env);
      } else if payload.ShouldRequestMetadata() {
        OnPayloadReady(env);
      } else {
        ok := RequestPayload(env);
      }
    }

    /** The asset is taken on, or released if its first request fails. */
    method TakeOnAsset(env: Env)
      modifies this
      ensures scratch == old(scratch) && S() == TakeOn(c, old(S()), env)
    {
      hide AssetAccept;
      state := Active;
      var ok := AcceptAsset(env);
      if !ok {
        state := NoAsset;
        h := h.(pull := NoPull);
      }
    }

    /** The fields of a zeroed asset but for its payload and request. */
    method ClearHeader(offered: Core)
      modifies `core, `attached, `sb, `hasHeader, `hasPayloadHeader, `needsMetadata, `hasMetadata
      ensures core == offered && attached && sb == NEW_SB_HEADER
      ensures !hasHeader && !hasPayloadHeader && !needsMetadata && !hasMetadata
    {
      core, attached, sb := offered, true, NEW_SB_HEADER;
      hasHeader, hasPayloadHeader, needsMetadata, hasMetadata := false, false, false, false;
    }

    /** The payload and the request of a zeroed asset, with a scratch buffer of its own. */
    method ClearPayload()
      modifies `selected, `payload, `recvd, `req, `scratch
      ensures selected == -1 && payload == NEW_PAYLOAD && recvd == 0 && req == NEW_REQUEST
      ensures fresh(scratch) && scratch.Length == c.window && scratch[..] == Zeros(c.window)
    {
      selected, payload, recvd, req := -1, NEW_PAYLOAD, 0, NEW_REQUEST;
      scratch := new byte[c.window](_ => 0);
    }

    /** The structure of an offered asset. */
    method NewAssetStruct(offered: Core)
      modifies this
      ensures fresh(scratch) && scratch.Length == c.window
      ensures S() == old(S()).(a := NewAsset(c, offered), h := NewHistory(old(h)))
    {
      hide Zeros, NewHistory;
      ClearHeader(offered);
      ClearPayload();
      h := NewHistory(h);
    }

    /** `super_binary_offered`. */
    method OnOffer(offered: Core, acceptable: bool, env: Env)
      requires scratch.Length == c.window
      modifies this
      ensures scratch == old(scratch) || fresh(scratch)
      ensures scratch.Length == c.window && S() == Offered(c, old(S()), offered, acceptable, env)
    {
      hide TakeOn, NewAsset, NewHistory;
      if !acceptable {
        return;
      }
      if state == NoAsset {
        NewAssetStruct(offered);
        TakeOnAsset(env);
      } else if state == Orphaned {
        if core == offered {
          req := req.(outstanding := false);
          attached := true;
        } else {
          NewAssetStruct(offered);
        }
        TakeOnAsset(env);
      }
    }

    // ----- Events ----------------------------------------------------------------------

    method Connected()
      requires Valid()
      modifies this
      ensures Valid() && scratch == old(scratch) && S() == Step(c, old(S()), Connect)
    {
      hide Inv;
      ghost var s := S();
      if !connected {
        connected := true;
        allowed := true;
      }
      StepKeepsInv(c, s, Connect);
    }

    method Disconnected()
      requires Valid() && Fair(c, S(), Disconnect)
      modifies this
      ensures Valid() && scratch == old(scratch) && S() == Step(c, old(S()), Disconnect)
    {
      hide Inv, Remove, Resumable;
      ghost var s := S();
      if connected {
        connected := false;
        if state != NoAsset && attached {
          attached := false;
          match state {
            case Active => state := Orphaned;
            case Staged => RemoveAsset();
            case Failed => RemoveAsset();
            case _ =>
          }
        }
      }
      StepKeepsInv(c, s, Disconnect);
    }

    method OfferReceived(offered: Core, acceptable: bool, env: Env)
      requires Valid()
      modifies this
      ensures scratch == old(scratch) || fresh(scratch)
      ensures Valid() && S() == Step(c, old(S()), Offer(offered, acceptable, env))
    {
      hide Offered, Live;
      ghost var s := S();
      if connected {
        OnOffer(offered, acceptable, env);
      }
      StepKeepsInv(c, s, Offer(offered, acceptable, env));
    }

    /** A response to request message `i`. */
    method ResponseReceived(ghost i: nat, offset: u32, bytes: seq<byte>, env: Env)
      requires Valid() && Fair(c, S(), Response(i, bytes, env))
      requires i < |h.log| && offset == h.log[i].offset
      modifies this, scratch
      ensures Valid() && scratch == old(scratch) && S() == Step(c, old(S()), Response(i, bytes, env))
    {
      hide DataResponse, Live, Honest;
      ghost var s := S();
      if connected && state != NoAsset && attached {
        if Passes(s.a, offset, bytes) {
          HonestSafe(c, s, i, bytes);
        }
        OnResponse(offset, bytes, env);
      }
      StepKeepsInv(c, s, Response(i, bytes, env));
    }

    method PauseReceived()
      requires Valid()
      modifies this
      ensures Valid() && scratch == old(scratch) && S() == Step(c, old(S()), Pause)
    {
      hide Inv;
      ghost var s := S();
      if connected && allowed {
        allowed := false;
      }
      StepKeepsInv(c, s, Pause);
    }

    method ResumeReceived(env: Env)
      requires Valid()
      modifies this
      ensures Valid() && scratch == old(scratch) && S() == Step(c, old(S()), Resume(env))
    {
      hide Continue, Inv;
      ghost var s := S();
      if connected && !allowed {
        allowed := true;
        if state != NoAsset && attached {
          var _ := RequestDataContinue(env);
        }
      }
      StepKeepsInv(c, s, Resume(env));
    }

    method RescindReceived()
      requires Valid()
      modifies this
      ensures Valid() && scratch == old(scratch) && S() == Step(c, old(S()), Rescind)
    {
      hide Remove, Inv;
      ghost var s := S();
      if connected && state != NoAsset && attached {
        RemoveAsset();
      }
      StepKeepsInv(c, s, Rescind);
    }

    method ApplyReceived()
      requires Valid()
      modifies this
      ensures Valid() && scratch == old(scratch) && S() == Step(c, old(S()), Apply)
    {
      hide Inv;
      ghost var s := S();
      if connected && state == Staged {
        state := Applied;
      }
      StepKeepsInv(c, s, Apply);
    }
  }

  // ----- About the TLVs ----------------------------------------------------------------

  lemma OneTlv(s: State, t: Tlv)
    ensures HashFrom([t], s.f.payloadHash) == HashTlv(t, s.f.payloadHash)
    ensures FlagsFrom([t], s.f.applyFlags) == FlagsTlv(t, s.f.applyFlags)
    ensures AnyBad([t]) == IsBad(t)
  {
    assert [t][1..] == [];
    assert IsBad(t) ==> IsBad([t][0]);
  }

  lemma LastTlv(m: seq<byte>)
    requires |m| < TLV_HEADER_LEN
    ensures ParseTlvs(m) == Metadata([], false)
  {
  }

  lemma NoTlvs(s: State)
    ensures ReadTlvs(s, []) == s
  {
  }

  /** Reading TLVs one by one. */
  lemma ReadTlvsCons(s: State, t: Tlv, rest: seq<Tlv>)
    ensures ReadTlvs(s, [t] + rest) == ReadTlvs(ReadTlvs(s, [t]), rest)
  {
    OneTlv(s, t);
    assert ([t] + rest)[1..] == rest;
    assert AnyBad([t] + rest) <==> IsBad(t) || AnyBad(rest) by {
      if IsBad(t) {
        assert IsBad(([t] + rest)[0]);
      }
      if AnyBad(rest) {
        var i :| 0 <= i < |rest| && IsBad(rest[i]);
        assert ([t] + rest)[i + 1] == rest[i];
      }
    }
  }

  /** The TLV at `pos`, and what follows it. */
  lemma NextTlv(data: seq<byte>, pos: nat)
    requires pos + TLV_HEADER_LEN <= |data|
    ensures var n := Be32(data[pos + 4..pos + 8]);
            var at := pos + TLV_HEADER_LEN;
            ParseTlvs(data[pos..]) ==
            if |data| - at < n then Metadata([], true)
            else Metadata([Tlv(Be32(data[pos..pos + 4]), data[at..at + n])] + ParseTlvs(data[at + n..]).tlvs,
                          ParseTlvs(data[at + n..]).corrupt)
  {
    var m := data[pos..];
    var n := Be32(data[pos + 4..pos + 8]);
    var at := pos + TLV_HEADER_LEN;
    assert m[0..4] == data[pos..pos + 4] && m[4..8] == data[pos + 4..pos + 8];
    hide Be32;
    if |data| - at >= n {
      assert m[TLV_HEADER_LEN..TLV_HEADER_LEN + n] == data[at..at + n];
      assert m[TLV_HEADER_LEN + n..] == data[at + n..];
    }
  }

  // ----- About responses ---------------------------------------------------------------

  /** A response fits the scratch buffer, and completes a header at its length. */
  predicate ResponseSafe(s: State, bytes: seq<byte>) {
    && s.a.req.bytesResponded + |bytes| <= s.a.req.bytesRequested <= |s.a.scratch|
    && (s.a.req.kind.SbHeaderKind? ==> s.a.req.bytesRequested == SB_HEADER_LEN)
    && (s.a.req.kind.PayloadHeaderKind? ==> s.a.req.bytesRequested == PAYLOAD_HEADER_LEN)
  }

  lemma HonestSafe(c: Config, s: State, i: nat, bytes: seq<byte>)
    requires Live(c, s) && Honest(c, s, i, bytes) && Passes(s.a, s.h.log[i].offset, bytes)
    ensures ResponseSafe(s, bytes)
  {
    ResponseFits(c, s, i, bytes);
    PullFields(c, s);
    hide Base, Phase, Slice, Expected, WindowBase, Region;
  }
}
