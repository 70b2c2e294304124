/**
 Concrete runs from initialization, for every hash function with digests of 32 bytes: a
 SuperBinary of 420 bytes whose payload of 256 bytes is followed by two payload
 headers, the second one not wanted, and by the metadata of the payload with its hash.
 */
module UarpExamples {
  import opened Bytes
  import opened UarpImage
  import opened Uarp
  import opened UarpInvariant
  import opened UarpSteps
  import opened UarpResponses
  import opened UarpEvents
  import opened UarpOrder
  import opened UarpLayout
  import opened UarpPlan
  import opened UarpCompletes
  import opened UarpTheorems
  import opened UarpResume

  // ----- The image -------------------------------------------------------------------

  const IMAGE_LEN: nat := 420
  const PAYLOAD_AT: nat := 44
  const PAYLOAD_LEN: nat := 256
  const HEADERS_AT: nat := 300
  const METADATA_AT: nat := 380
  const METADATA_LEN: nat := 40

  /** The bytes of payload 0. */
  function PayloadBytes(): (s: seq<byte>) {
    Zeros(PAYLOAD_LEN)
  }

  /** A hash function; that the digest of the payload has 32 bytes is all the runs need. */
  type Hash = h: seq<byte> -> seq<byte> | |h(PayloadBytes())| == HASH_LEN witness _ => NoHash()

  /**
   The bytes that are the same for every hash and not 0: version, header length, header
   region; metadata and bytes of payload 0; type and length of the TLV of its metadata.
   */
  function FixedByte(i: nat): byte {
    if i == 3 then 2
    else if i == 7 then 44
    else if i == 38 then 1
    else if i == 39 then 44
    else if i == 43 then 80
    else if i == 326 then 1
    else if i == 327 then 124
    else if i == 331 then 40
    else if i == 335 then 44
    else if i == 338 then 1
    else if i == 380 then 0xF4
    else if i == 381 then 0xCE
    else if i == 382 then 0x36
    else if i == 383 then 0xFE
    else if i == 387 then 32
    else 0
  }

  /** The metadata is one TLV with the hash of the payload. */
  function ByteOf(h: Hash, i: nat): byte {
    if 388 <= i < 388 + |h(PayloadBytes())| then h(PayloadBytes())[i - 388] else FixedByte(i)
  }

  function Image(h: Hash): (s: seq<byte>)
    ensures |s| == IMAGE_LEN
    ensures forall i :: 0 <= i < IMAGE_LEN ==> s[i] == ByteOf(h, i)
  {
    seq<byte>(IMAGE_LEN, i requires 0 <= i < IMAGE_LEN => ByteOf(h, i))
  }

  function Build(h: Hash): (c: Config)
    ensures c.Valid()
  {
    Config(256, 256, _ => Image(h), h, (hdr: PayloadHeader) => hdr.length == PAYLOAD_LEN)
  }

  function Part(h: Hash, at: nat, n: nat): (s: seq<byte>)
    requires at + n <= IMAGE_LEN
    ensures |s| == n && forall i :: 0 <= i < n ==> s[i] == ByteOf(h, at + i)
  {
    Image(h)[at..at + n]
  }

  const SB: SbHeader := SbHeader(2, 44, 0, Zeros(16), 0, 0, HEADERS_AT, 80)
  const HEADER_0: PayloadHeader :=
    PayloadHeader(0, Zeros(4), Zeros(16), METADATA_AT, METADATA_LEN, PAYLOAD_AT, PAYLOAD_LEN)
  const HEADER_1: PayloadHeader := PayloadHeader(0, Zeros(4), Zeros(16), 0, 0, 0, 0)

  lemma Word(h: Hash, at: nat, n: nat, i: nat)
    requires at + n <= IMAGE_LEN && i + 4 <= n
    ensures var b0: int, b1: int := ByteOf(h, at + i), ByteOf(h, at + i + 1);
            var b2: int, b3: int := ByteOf(h, at + i + 2), ByteOf(h, at + i + 3);
            Be32(Part(h, at, n)[i..i + 4]) == ((b0 * 256 + b1) * 256 + b2) * 256 + b3
  {
    hide ByteOf, Part;
    var s := Part(h, at, n);
    var w := s[i..i + 4];
    assert w[0] == s[i] && w[1] == s[i + 1] && w[2] == s[i + 2] && w[3] == s[i + 3];
  }

  lemma NoBytes(h: Hash, at: nat, n: nat, lo: nat, hi: nat)
    requires at + n <= IMAGE_LEN && lo <= hi <= n
    requires forall i :: at + lo <= i < at + hi ==> ByteOf(h, i) == 0
    ensures Part(h, at, n)[lo..hi] == Zeros(hi - lo)
  {
    hide ByteOf, Part;
    var s, z := Part(h, at, n)[lo..hi], Zeros(hi - lo);
    forall i | 0 <= i < hi - lo ensures s[i] == z[i] {
      assert s[i] == Part(h, at, n)[lo + i] == ByteOf(h, at + (lo + i));
    }
  }

  lemma SbHeaderParsed(h: Hash)
    ensures ParseSbHeader(Part(h, 0, 44)) == SB
  {
    Word(h, 0, 44, 0);
    Word(h, 0, 44, 4);
    Word(h, 0, 44, 8);
    NoBytes(h, 0, 44, 12, 28);
    Word(h, 0, 44, 28);
    Word(h, 0, 44, 32);
    Word(h, 0, 44, 36);
    Word(h, 0, 44, 40);
    hide Be32, Part, Zeros;
  }

  lemma HeaderParsed(h: Hash, at: nat)
    requires at == HEADERS_AT || at == HEADERS_AT + 40
    ensures ParsePayloadHeader(Part(h, at, 40)) == if at == HEADERS_AT then HEADER_0 else HEADER_1
  {
    Word(h, at, 40, 0);
    NoBytes(h, at, 40, 4, 8);
    NoBytes(h, at, 40, 8, 24);
    Word(h, at, 40, 24);
    Word(h, at, 40, 28);
    Word(h, at, 40, 32);
    Word(h, at, 40, 36);
    hide Be32, Part, Zeros;
  }

  /** The payload is zeros, and its metadata names their hash. */
  lemma PayloadIs(h: Hash)
    ensures Part(h, PAYLOAD_AT, PAYLOAD_LEN) == PayloadBytes()
  {
    NoBytes(h, PAYLOAD_AT, PAYLOAD_LEN, 0, PAYLOAD_LEN);
    hide Part, Zeros, ByteOf;
  }

  lemma DigestIs(h: Hash)
    ensures Part(h, METADATA_AT, METADATA_LEN)[8..] == h(PayloadBytes())
  {
    hide Part, PayloadBytes;
    var s, d := Part(h, METADATA_AT, METADATA_LEN)[8..], h(PayloadBytes());
    forall i | 0 <= i < HASH_LEN ensures s[i] == d[i] {
      assert s[i] == Part(h, METADATA_AT, METADATA_LEN)[8 + i] == ByteOf(h, METADATA_AT + (8 + i));
    }
  }

  lemma MetadataIs(h: Hash)
    ensures ParseTlvs(Part(h, METADATA_AT, METADATA_LEN)) == Metadata([Tlv(TLV_TYPE_SHA2, h(PayloadBytes()))], false)
  {
    Word(h, METADATA_AT, METADATA_LEN, 0);
    Word(h, METADATA_AT, METADATA_LEN, 4);
    DigestIs(h);
    hide Be32, Part, PayloadBytes;
    var m := Part(h, METADATA_AT, METADATA_LEN);
    assert m[40..] == [] && m[8..40] == m[8..];
  }

  // ----- The runs --------------------------------------------------------------------

  /** What happens after the payload header has been received. */
  datatype Variant = HeaderNotSent | LinkLost | HeaderRepeated

  const NOT_SENT: Env := Env(false, true, true, true, true)

  function Asset0(v: Variant): Core {
    Core(0, [], [], IMAGE_LEN, if v.HeaderRepeated? then 1 else 2)
  }

  function EventAt(h: Hash, v: Variant, k: nat): Event {
    if k == 0 then Connect
    else if k == 1 then Offer(Asset0(v), true, ALL_OK)
    else if k == 2 then Response(0, Part(h, 0, 44), ALL_OK)
    else if k == 3 then Response(1, Part(h, HEADERS_AT, 40), ALL_OK)
    else if k == 4 then Response(2, Part(h, METADATA_AT, METADATA_LEN), ALL_OK)
    else if k == 5 then Response(3, Part(h, PAYLOAD_AT, PAYLOAD_LEN), if v.HeaderNotSent? then NOT_SENT else ALL_OK)
    else
      match v
      case HeaderNotSent =>
        if k == 6 then Pause
        else if k == 7 then Resume(ALL_OK)
        else Response(4, Part(h, HEADERS_AT + 40, 40), ALL_OK)
      case LinkLost => if k == 6 then Disconnect else Connect
      case HeaderRepeated => Response(1, Part(h, HEADERS_AT, 40), ALL_OK)
  }

  function Upto(h: Hash, v: Variant, k: nat): (events: seq<Event>)
    ensures |events| == k
  {
    if k == 0 then [] else Upto(h, v, k - 1) + [EventAt(h, v, k - 1)]
  }

  /** The request messages that the accessory sends, in order. */
  function Message(i: nat): Entry {
    if i == 0 then Entry(Pull(SbHeaderKind, -1), 0, 0, 44)
    else if i == 1 then Entry(Pull(PayloadHeaderKind, 0), 0, HEADERS_AT, 40)
    else if i == 2 then Entry(Pull(PayloadMetadataKind, 0), 0, METADATA_AT, METADATA_LEN)
    else if i == 3 then Entry(Pull(PayloadDataKind, 0), 0, PAYLOAD_AT, PAYLOAD_LEN)
    else Entry(Pull(PayloadHeaderKind, 1), 40, HEADERS_AT + 40, 40)
  }

  function Messages(n: nat): (log: seq<Entry>)
    ensures |log| == n && forall i :: 0 <= i < n ==> log[i] == Message(i)
  {
    if n == 0 then [] else Messages(n - 1) + [Message(n - 1)]
  }

  lemma RunNext(h: Hash, v: Variant, k: nat)
    ensures Run(Build(h), Upto(h, v, k + 1)) == Step(Build(h), Run(Build(h), Upto(h, v, k)), EventAt(h, v, k))
    ensures Upto(h, v, k + 1)[..k] == Upto(h, v, k) && Upto(h, v, k + 1)[k] == EventAt(h, v, k)
  {
    hide Step, Build, EventAt;
    assert Upto(h, v, k + 1)[..k] == Upto(h, v, k);
  }

  lemma FairNext(h: Hash, v: Variant, k: nat)
    requires FairRun(Build(h), Upto(h, v, k)) && Fair(Build(h), Run(Build(h), Upto(h, v, k)), EventAt(h, v, k))
    ensures FairRun(Build(h), Upto(h, v, k + 1))
  {
    RunNext(h, v, k);
    hide Fair, Run, Step, Build, EventAt, FairRun;
    FairExtends(Build(h), Upto(h, v, k + 1));
  }

  // ----- One response after the other ------------------------------------------------

  /** The accessory awaits the whole answer to message `i`, the last one it sent. */
  predicate Awaiting(s: State, i: nat) {
    var m := Message(i);
    && s.connected && s.allowed && HasAsset(s) && s.a.attached && |s.a.scratch| == 256
    && s.h.log == Messages(i + 1) && s.h.pull == m.pull && s.a.selected == m.pull.index
    && s.a.req == Request(m.pull.kind, true, m.at, m.offset, m.offset, m.len, 0, m.len)
  }

  /** The state when the answer is complete. */
  predicate Answered(h: Hash, s: State, i: nat, s0: State) {
    var m := Message(i);
    && s0.connected && s0.allowed && s0.f == s.f
    && s0.a == s.a.(req := s0.a.req, scratch := s0.a.scratch)
    && s0.h == s.h.(pull := NoPull, last := m.pull)
    && |s0.a.scratch| == 256 && s0.a.scratch[..m.len] == Part(h, m.offset, m.len)
    && s0.a.req == Request(m.pull.kind, false, m.at, m.offset, m.offset + m.len, m.len, m.len, 0)
  }

  /** The whole answer to message `i`. */
  function WholeAnswer(h: Hash, i: nat, env: Env): Event {
    Response(i, Part(h, Message(i).offset, Message(i).len), env)
  }

  lemma AnswerIsHonest(h: Hash, s: State, i: nat, env: Env)
    requires Awaiting(s, i)
    ensures Fair(Build(h), s, WholeAnswer(h, i, env))
  {
    assert s.h.log[i] == Message(i);
    hide Image, Messages;
  }

  lemma AnswerFills(h: Hash, s: State, i: nat) returns (s0: State)
    requires Awaiting(s, i)
    ensures Answered(h, s, i, s0)
    ensures var bytes := Part(h, Message(i).offset, Message(i).len);
            && |bytes| < TWO_32 && s0 == Full(s, bytes)
            && Received(s, bytes).a.req.bytesResponded == Received(s, bytes).a.req.bytesRequested
  {
    var bytes := Part(h, Message(i).offset, Message(i).len);
    ScratchFront(s.a.scratch, 0, bytes);
    assert s.a.scratch[..0] + bytes == bytes;
    s0 := Full(s, bytes);
    hide Overwrite, Image, Messages, Part;
  }

  /** The whole answer to the last message is honest and completes its pull. */
  lemma Answer(h: Hash, s: State, i: nat, env: Env) returns (s0: State)
    requires Awaiting(s, i)
    ensures Answered(h, s, i, s0)
    ensures var e := WholeAnswer(h, i, env);
            Fair(Build(h), s, e) && Step(Build(h), s, e) == PullComplete(Build(h), s0, env)
  {
    AnswerIsHonest(h, s, i, env);
    s0 := AnswerFills(h, s, i);
    assert s.h.log[i] == Message(i);
    hide PullComplete, Answered, Accept, Fair, Build, Part, Messages;
  }

  /** A request of `n` bytes at `rel` in its region, all in one message. */
  lemma Asked(h: Hash, s: State, kind: Kind, rel: u32, n: u32, i: nat)
    requires s.allowed && !s.a.req.outstanding && s.h.log == Messages(i) && 0 < n <= 256
    requires Validated(s.a, kind, rel, n) && rel + n <= Region(s.a, kind).1
    requires Message(i) == Entry(Pull(kind, s.a.selected), rel, Sum32(Region(s.a, kind).0, rel), n)
    ensures var (s1, ok) := RequestData(Build(h), s, kind, rel, n, ALL_OK);
            && ok && s1 == s.(a := s1.a, h := s1.h)
            && s1.a == s.a.(req := Request(kind, true, rel, Message(i).offset, Message(i).offset, n, 0, n))
            && s1.h == s.h.(pull := Pull(kind, s.a.selected), log := Messages(i + 1))
  {
    RequestDataIs(Build(h), s, kind, rel, n, ALL_OK);
    assert s.h.log + [Message(i)] == Messages(i + 1);
    hide RequestData, Validated, Region, Messages, Message, Image;
  }

  /** The asset was offered; the SuperBinary header is awaited. */
  predicate Stage1(v: Variant, s: State) {
    && Awaiting(s, 0) && s.f.state.Active? && s.a.core == Asset0(v) && !s.h.overrun
    && !s.a.hasHeader && !s.a.needsMetadata && s.a.payload == NEW_PAYLOAD && !s.f.busy
  }

  /** The SuperBinary header was received; the header of payload 0 is awaited. */
  predicate Stage2(v: Variant, s: State) {
    && Awaiting(s, 1) && s.f.state.Active? && s.a.core == Asset0(v) && !s.h.overrun
    && s.a.hasHeader && s.a.sb == SB && !s.a.needsMetadata && !s.f.busy && s.f.staged == 0
    && !s.a.payload.needsMetadata && s.a.recvd == 0
  }

  /** The header of payload 0 was received; its metadata is awaited. */
  predicate Stage3(v: Variant, s: State) {
    && Awaiting(s, 2) && s.f.state.Active? && s.a.core == Asset0(v) && !s.h.overrun
    && s.a.hasHeader && s.a.sb == SB && !s.a.needsMetadata && !s.f.busy && s.f.staged == 0
    && s.a.payload.hdr == HEADER_0 && s.a.recvd == 0
    && s.f.hashed == [] && s.f.payloadHash == NoHash() && s.f.applyFlags == APPLY_FLAGS_NEEDS_RESTART
  }

  /** The metadata of payload 0 was received; its bytes are awaited. */
  predicate Stage4(h: Hash, v: Variant, s: State) {
    && Awaiting(s, 3) && s.f.state.Active? && s.a.core == Asset0(v) && !s.h.overrun
    && s.a.hasHeader && s.a.sb == SB && !s.a.needsMetadata && s.f.busy && s.f.staged == 0
    && s.a.payload.hdr == HEADER_0 && s.a.recvd == 0
    && s.f.hashed == [] && s.f.payloadHash == h(PayloadBytes()) && s.f.applyFlags == APPLY_FLAGS_NEEDS_RESTART
  }

  /** The state when an asset is offered for the first time, and before. */
  predicate Fresh(h: Hash, s: State) {
    && s.allowed && s.connected && s.f == Init(Build(h)).f && s.h == Init(Build(h)).h
  }

  /** The state in which the header of a new asset is requested. */
  function Taken(c: Config, s: State, core: Core): State {
    InState(s.(a := NewAsset(c, core), h := NewHistory(s.h)), Active)
  }

  lemma AdoptIs(c: Config, s: State, core: Core, env: Env)
    requires s.connected && s.f.state.NoAsset?
    ensures var (s1, ok) := RequestData(c, Taken(c, s, core), SbHeaderKind, 0, SB_HEADER_LEN, env);
            ok ==> Step(c, s, Offer(core, true, env)) == s1
  {
    hide RequestData, Zeros;
  }

  /** The new asset before its first request. */
  predicate Stage0(v: Variant, s: State) {
    && s.connected && s.allowed && s.f.state.Active? && !s.f.busy
    && s.a.core == Asset0(v) && s.a.attached && s.a.selected == -1 && !s.a.req.outstanding
    && !s.a.hasHeader && !s.a.needsMetadata && s.a.payload == NEW_PAYLOAD && |s.a.scratch| == 256
    && s.h.log == Messages(0) && !s.h.overrun
  }

  lemma TakenFields(h: Hash, v: Variant, s: State)
    requires Fresh(h, s)
    ensures Stage0(v, Taken(Build(h), s, Asset0(v))) && s.connected && s.f.state.NoAsset?
  {
    hide Image, Asset0, NoHash;
  }

  lemma HeaderAsked(h: Hash, v: Variant, s: State)
    requires Stage0(v, s)
    ensures var (s1, ok) := RequestData(Build(h), s, SbHeaderKind, 0, SB_HEADER_LEN, ALL_OK);
            ok && Stage1(v, s1)
  {
    Asked(h, s, SbHeaderKind, 0, SB_HEADER_LEN, 0);
    hide RequestData, Messages, Image;
  }

  lemma OfferHandled(h: Hash, v: Variant, s: State)
    requires Fresh(h, s)
    ensures Stage1(v, Step(Build(h), s, Offer(Asset0(v), true, ALL_OK)))
  {
    hide *;
    TakenFields(h, v, s);
    HeaderAsked(h, v, Taken(Build(h), s, Asset0(v)));
    AdoptIs(Build(h), s, Asset0(v), ALL_OK);
  }

  lemma Begins(h: Hash, v: Variant)
    ensures FairRun(Build(h), Upto(h, v, 1)) && Fresh(h, Run(Build(h), Upto(h, v, 1)))
  {
    assert FairRun(Build(h), Upto(h, v, 0));
    assert Run(Build(h), Upto(h, v, 0)) == Init(Build(h));
    FairNext(h, v, 0);
    RunNext(h, v, 0);
    hide Run, Upto, FairRun, Build, NewAsset;
  }

  lemma Offered1(h: Hash, v: Variant)
    ensures FairRun(Build(h), Upto(h, v, 2)) && Stage1(v, Run(Build(h), Upto(h, v, 2)))
  {
    Begins(h, v);
    hide Run, Upto, FairRun, Build, Stage1, Fresh, Step;
    FairNext(h, v, 1);
    RunNext(h, v, 1);
    OfferHandled(h, v, Run(Build(h), Upto(h, v, 1)));
  }

  lemma HeaderReceived(h: Hash, v: Variant)
    ensures FairRun(Build(h), Upto(h, v, 3)) && Stage2(v, Run(Build(h), Upto(h, v, 3)))
  {
    var c := Build(h);
    Offered1(h, v);
    hide Run, Upto, FairRun, Fair, Step, PullComplete;
    var s := Run(c, Upto(h, v, 2));
    var s0 := Answer(h, s, 0, ALL_OK);
    FairNext(h, v, 2);
    RunNext(h, v, 2);
    HeaderHandled(h, v, s, s0);
  }

  /** Payload 0 is selected, and its header is about to be requested. */
  predicate Stage1To2(v: Variant, s: State) {
    && s.connected && s.allowed && s.f.state.Active? && !s.f.busy && s.f.staged == 0
    && s.a.core == Asset0(v) && s.a.attached && s.a.selected == 0 && !s.a.req.outstanding
    && s.a.hasHeader && s.a.sb == SB && !s.a.needsMetadata && !s.a.payload.needsMetadata && s.a.recvd == 0
    && |s.a.scratch| == 256 && s.h.log == Messages(1) && !s.h.overrun
  }

  /** The state in which the header of payload 0 is requested. */
  function FirstSelected(s: State): State {
    Selected(s.(f := s.f.(staged := 0), h := s.h.(verified := [])), 0)
  }

  lemma FirstPayload(h: Hash, v: Variant, s: State, s0: State)
    requires Stage1(v, s) && Answered(h, s, 0, s0)
    ensures Stage1To2(v, FirstSelected(WithHeader(s0, SB)))
  {
    hide Image, Part, Messages;
  }

  lemma PayloadHeaderAsked(h: Hash, v: Variant, s: State)
    requires Stage1To2(v, s)
    ensures var (s1, ok) := RequestData(Build(h), s, PayloadHeaderKind, 0, PAYLOAD_HEADER_LEN, ALL_OK);
            ok && Stage2(v, s1)
  {
    Asked(h, s, PayloadHeaderKind, 0, PAYLOAD_HEADER_LEN, 1);
    hide RequestData, Messages, Image;
  }

  lemma HeaderHandled(h: Hash, v: Variant, s: State, s0: State)
    requires Stage1(v, s) && Answered(h, s, 0, s0)
    ensures Stage2(v, PullComplete(Build(h), s0, ALL_OK))
  {
    var s1 := WithHeader(s0, SB);
    assert s1.a.sb == SB && s1.a.core.numPayloads > 0;
    hide *;
    HeaderHeldNow(h, v, s, s0);
    FirstPayload(h, v, s, s0);
    AssetReadyIs(Build(h), s1, ALL_OK);
    PayloadHeaderAsked(h, v, FirstSelected(s1));
  }

  lemma HeaderHeldNow(h: Hash, v: Variant, s: State, s0: State)
    requires Stage1(v, s) && Answered(h, s, 0, s0)
    ensures PullComplete(Build(h), s0, ALL_OK) == AssetReady(Build(h), WithHeader(s0, SB), ALL_OK)
  {
    SbHeaderParsed(h);
    PullCompleteIs(Build(h), s0, ALL_OK);
    hide ParseSbHeader, Part, Image, PullComplete, Messages, AssetReady;
  }

  /** An asset without metadata goes on to its first payload. */
  lemma AssetReadyIs(c: Config, s: State, env: Env)
    requires s.a.sb.metadataLength == 0 && s.a.core.numPayloads > 0
    ensures AssetReady(c, s, env) ==
            var (s1, ok) := RequestData(c, FirstSelected(s), PayloadHeaderKind, 0, PAYLOAD_HEADER_LEN, env);
            if ok then s1 else ReportFailure(s1)
  {
    var s1 := s.(f := s.f.(staged := 0), h := s.h.(verified := []));
    SetPayloadIndexIs(c, s1, 0, env);
    hide RequestData, SetPayloadIndex, Selected, ReportFailure;
  }

  /** The metadata of payload 0 is about to be requested. */
  predicate Stage2To3(v: Variant, s: State) {
    && s.connected && s.allowed && s.f.state.Active? && !s.f.busy && s.f.staged == 0
    && s.a.core == Asset0(v) && s.a.attached && s.a.selected == 0 && !s.a.req.outstanding
    && s.a.hasHeader && s.a.sb == SB && !s.a.needsMetadata && s.a.payload.hdr == HEADER_0 && s.a.recvd == 0
    && s.f.hashed == [] && s.f.payloadHash == NoHash() && s.f.applyFlags == APPLY_FLAGS_NEEDS_RESTART
    && |s.a.scratch| == 256 && s.h.log == Messages(2) && !s.h.overrun
  }

  /** The state in which a wanted payload asks for its metadata. */
  function HashReset(s: State): State {
    s.(f := s.f.(applyFlags := APPLY_FLAGS_NEEDS_RESTART, hashed := [], payloadHash := NoHash()))
  }

  lemma PayloadStarted(h: Hash, v: Variant, s: State, s0: State)
    requires Stage2(v, s) && Answered(h, s, 1, s0)
    ensures var s1 := WithPayloadHeader(s0, HEADER_0);
            Stage2To3(v, HashReset(s1)) && s1.a.payload.hdr == HEADER_0 && Build(h).wanted(HEADER_0)
  {
    hide Image, Part, Messages, NoHash;
  }

  lemma MetadataAskedFor(h: Hash, v: Variant, s: State)
    requires Stage2To3(v, s)
    ensures var (s1, ok) := RequestData(Build(h), s, PayloadMetadataKind, 0, METADATA_LEN, ALL_OK);
            ok && Stage3(v, s1)
  {
    Asked(h, s, PayloadMetadataKind, 0, METADATA_LEN, 2);
    hide RequestData, Messages, Image, NoHash;
  }

  lemma PayloadHeaderHandled(h: Hash, v: Variant, s: State, s0: State)
    requires Stage2(v, s) && Answered(h, s, 1, s0)
    ensures Stage3(v, PullComplete(Build(h), s0, ALL_OK))
  {
    var s1 := WithPayloadHeader(s0, HEADER_0);
    PayloadStarted(h, v, s, s0);
    assert HEADER_0.metadataLength == METADATA_LEN > 0;
    hide *;
    PayloadHeaderHeld(h, v, s, s0);
    ReadyIs(Build(h), s1, ALL_OK);
    MetadataAskedFor(h, v, HashReset(s1));
  }

  lemma PayloadHeaderHeld(h: Hash, v: Variant, s: State, s0: State)
    requires Stage2(v, s) && Answered(h, s, 1, s0)
    ensures PullComplete(Build(h), s0, ALL_OK) == PayloadReady(Build(h), WithPayloadHeader(s0, HEADER_0), ALL_OK)
  {
    HeaderParsed(h, HEADERS_AT);
    PullCompleteIs(Build(h), s0, ALL_OK);
    hide ParsePayloadHeader, Part, Image, PullComplete, Messages, PayloadReady;
  }

  /** A wanted payload with metadata goes on to its metadata. */
  lemma ReadyIs(c: Config, s: State, env: Env)
    requires c.wanted(s.a.payload.hdr) && s.a.payload.hdr.metadataLength > 0
    ensures var n := s.a.payload.hdr.metadataLength;
            var (s1, ok) := RequestData(c, HashReset(s), PayloadMetadataKind, 0, n, env);
            PayloadReady(c, s, env) == if ok then s1 else ReportFailure(s1)
  {
    hide RequestData, NoHash, ReportFailure;
  }

  lemma PayloadHeaderReceived(h: Hash, v: Variant)
    ensures FairRun(Build(h), Upto(h, v, 4)) && Stage3(v, Run(Build(h), Upto(h, v, 4)))
  {
    var c := Build(h);
    HeaderReceived(h, v);
    hide Run, Upto, FairRun, Fair, Step, PullComplete;
    var s := Run(c, Upto(h, v, 3));
    var s0 := Answer(h, s, 1, ALL_OK);
    FairNext(h, v, 3);
    RunNext(h, v, 3);
    PayloadHeaderHandled(h, v, s, s0);
  }

  /** The bytes of payload 0 are about to be requested. */
  predicate Stage3To4(h: Hash, v: Variant, s: State) {
    && s.connected && s.allowed && s.f.state.Active? && s.f.busy && s.f.staged == 0
    && s.a.core == Asset0(v) && s.a.attached && s.a.selected == 0 && !s.a.req.outstanding
    && s.a.hasHeader && s.a.sb == SB && !s.a.needsMetadata && s.a.payload.hdr == HEADER_0 && s.a.recvd == 0
    && s.f.hashed == [] && s.f.payloadHash == h(PayloadBytes()) && s.f.applyFlags == APPLY_FLAGS_NEEDS_RESTART
    && |s.a.scratch| == 256 && s.h.log == Messages(3) && !s.h.overrun
  }

  /** The state in which the writer was started. */
  function WriterStarted(s: State): State {
    s.(f := s.f.(busy := true), h := s.h.(written := []))
  }

  /** The asset once the metadata of payload 0 is held. */
  function WithDigest(h: Hash, s: State): State {
    s.(a := s.a.(hasMetadata := true, payload := s.a.payload.(hasMetadata := true)),
       f := s.f.(payloadHash := h(PayloadBytes())))
  }

  lemma MetadataHeld(h: Hash, v: Variant, s: State, s0: State)
    requires Stage3(v, s) && Answered(h, s, 2, s0)
    ensures PullComplete(Build(h), s0, ALL_OK) == PayloadMetadataComplete(Build(h), WithDigest(h, s0), ALL_OK)
  {
    MetadataIs(h);
    PullCompleteIs(Build(h), s0, ALL_OK);
    OneHash(h(PayloadBytes()));
    hide ParseTlvs, HashFrom, FlagsFrom, AnyBad, Part, Image, PullComplete, Messages, PayloadMetadataComplete;
    hide PayloadBytes, NoHash;
  }

  /** The effect of a single TLV with a hash. */
  lemma OneHash(d: seq<byte>)
    requires |d| == HASH_LEN
    ensures forall hash :: HashFrom([Tlv(TLV_TYPE_SHA2, d)], hash) == d
    ensures forall flags :: FlagsFrom([Tlv(TLV_TYPE_SHA2, d)], flags) == flags
    ensures !AnyBad([Tlv(TLV_TYPE_SHA2, d)])
  {
    assert [Tlv(TLV_TYPE_SHA2, d)][1..] == [];
  }

  lemma WriterReady(h: Hash, v: Variant, s: State, s0: State)
    requires Stage3(v, s) && Answered(h, s, 2, s0)
    ensures Stage3To4(h, v, WriterStarted(WithDigest(h, s0)))
    ensures s0.f.state.Active? && !s0.f.busy && s0.a.recvd == 0 && s0.a.payload.hdr == HEADER_0
  {
    hide Image, Part, Messages, NoHash, PayloadBytes;
  }

  /** The writer is started, and the first window is requested. */
  lemma StartIs(c: Config, s: State, env: Env)
    requires s.f.state.Active? && !s.f.busy && env.startOk && s.a.recvd == 0
    ensures var n := Min(s.a.payload.hdr.length, c.window);
            var (s1, ok) := RequestData(c, WriterStarted(s), PayloadDataKind, 0, n, env);
            PayloadMetadataComplete(c, s, env) == if ok then s1 else ReportFailure(s1)
  {
    hide RequestData, ReportFailure;
  }

  lemma PayloadAsked(h: Hash, v: Variant, s: State)
    requires Stage3To4(h, v, s)
    ensures var (s1, ok) := RequestData(Build(h), s, PayloadDataKind, 0, PAYLOAD_LEN, ALL_OK);
            ok && Stage4(h, v, s1)
  {
    Asked(h, s, PayloadDataKind, 0, PAYLOAD_LEN, 3);
    hide RequestData, Messages, Image, PayloadBytes;
  }

  lemma MetadataHandled(h: Hash, v: Variant, s: State, s0: State)
    requires Stage3(v, s) && Answered(h, s, 2, s0)
    ensures Stage4(h, v, PullComplete(Build(h), s0, ALL_OK))
  {
    var s1 := WithDigest(h, s0);
    WriterReady(h, v, s, s0);
    assert Min(HEADER_0.length, Build(h).window) == PAYLOAD_LEN && ALL_OK.startOk;
    assert s1.f.state.Active? && !s1.f.busy && s1.a.recvd == 0 && s1.a.payload.hdr == HEADER_0;
    hide *;
    MetadataHeld(h, v, s, s0);
    StartIs(Build(h), s1, ALL_OK);
    PayloadAsked(h, v, WriterStarted(s1));
  }

  lemma MetadataReceived(h: Hash, v: Variant)
    ensures FairRun(Build(h), Upto(h, v, 5)) && Stage4(h, v, Run(Build(h), Upto(h, v, 5)))
  {
    var c := Build(h);
    PayloadHeaderReceived(h, v);
    hide Run, Upto, FairRun, Fair, Step, PullComplete;
    var s := Run(c, Upto(h, v, 4));
    var s0 := Answer(h, s, 2, ALL_OK);
    FairNext(h, v, 4);
    RunNext(h, v, 4);
    MetadataHandled(h, v, s, s0);
  }

  // ----- The payload is complete -----------------------------------------------------

  /** The payload was delivered and counted. */
  predicate Done0(s0: State, s: State) {
    && s.connected == s0.connected && s.allowed == s0.allowed && s.f.staged == 1 && !s.f.busy
    && s.a.core == s0.a.core && s.a.attached == s0.a.attached && s.a.sb == s0.a.sb && s.a.scratch == s0.a.scratch
    && s.a.hasHeader && !s.a.needsMetadata && s.a.payload.hdr == HEADER_0 && s.h.overrun == s0.h.overrun
  }

  /** The counted state, from which the next header is requested. */
  lemma PayloadHandled(h: Hash, v: Variant, s: State, s0: State, env: Env) returns (s1: State)
    requires Stage4(h, v, s) && Answered(h, s, 3, s0) && env.finishOk && env.writeOk && env.notifyOk
    ensures Done0(s0, s1) && s1.a.selected == 0 && s1.h.log == s0.h.log && s1.f.state.Active?
    ensures s1.a.req == s0.a.req && s1.h.pull.NoPull? && s1.h.last == s0.h.last
    ensures PullComplete(Build(h), s0, env) ==
            if v.HeaderRepeated? then InState(s1, Staged) else SetNextIndex(Build(h), s1, env)
  {
    var c := Build(h);
    PullCompleteIs(c, s0, env);
    var data := s0.a.scratch[..PAYLOAD_LEN];
    WindowCompleteIs(c, s0, data, env);
    PayloadIs(h);
    assert [] + data == PayloadBytes();
    s1 := CountedOne(Advanced(s0, data, env));
    hide PullComplete, WindowComplete, SetNextIndex, Messages, Image, Part, NoHash, PayloadBytes;
  }

  /** The asset is staged after its only payload; nothing is pulled. */
  predicate StagedAlone(s: State) {
    && s.connected && s.f.state.Staged? && s.a.attached && s.a.core == Asset0(HeaderRepeated) && |s.a.scratch| == 256
    && s.h.pull.NoPull? && s.h.log == Messages(4) && !s.h.overrun
    && s.a.req.currentOffset == PAYLOAD_AT + PAYLOAD_LEN
       && s.a.req.bytesRequested == s.a.req.bytesResponded == PAYLOAD_LEN
  }

  lemma OnlyPayload(h: Hash)
    ensures FairRun(Build(h), Upto(h, HeaderRepeated, 6)) && StagedAlone(Run(Build(h), Upto(h, HeaderRepeated, 6)))
  {
    var c, v := Build(h), HeaderRepeated;
    MetadataReceived(h, v);
    hide Run, Upto, FairRun, Fair, Step, PullComplete;
    var s := Run(c, Upto(h, v, 5));
    var s0 := Answer(h, s, 3, ALL_OK);
    FairNext(h, v, 5);
    RunNext(h, v, 5);
    var s1 := PayloadHandled(h, v, s, s0, ALL_OK);
  }

  /**
   A late response leaves the scratch buffer. The SuperBinary is staged; its payload
   lies directly before the payload header, whose response arrives a second time. All
   responses are truthful, but the SuperBinary is not laid out.
   */
  lemma RepeatedHeaderOverruns(h: Hash)
    ensures var c, events := Build(h), Upto(h, HeaderRepeated, 7);
            && TruthfulRun(c, events)
            && Run(c, events[..6]).f.state.Staged? && !Run(c, events[..6]).h.overrun
            && Run(c, events).h.overrun
            && !LaidOut(c, Asset0(HeaderRepeated))
  {
    var c, v := Build(h), HeaderRepeated;
    OnlyPayload(h);
    RunNext(h, v, 6);
    var s := Run(c, Upto(h, v, 6));
    hide Run, Upto, FairRun;
    Repeated(h, s);
    FairIsTruthful(h, v, 6);
    assert TruthfulRun(c, Upto(h, v, 7)) by {
      TruthfulExtends(h, v, 6);
    }
    hide TruthfulRun, LaidOut;
    NotLaidOut(h);
  }

  lemma Repeated(h: Hash, s: State)
    requires StagedAlone(s)
    ensures var e := EventAt(h, HeaderRepeated, 6);
            TruthfulEvent(Build(h), s, e) && Step(Build(h), s, e).h.overrun
  {
    var c := Build(h);
    var bytes := Part(h, HEADERS_AT, 40);
    assert s.h.log[1] == Message(1);
    var s1 := Received(s, bytes);
    ContinueOverrun(c, s1, ALL_OK);
    hide PullComplete, Continue, Image, Overwrite;
  }

  lemma FairIsTruthful(h: Hash, v: Variant, k: nat)
    requires FairRun(Build(h), Upto(h, v, k))
    ensures TruthfulRun(Build(h), Upto(h, v, k))
  {
    hide Run, Truthful, Upto, Build;
    var c, events := Build(h), Upto(h, v, k);
    forall j | 0 <= j < |events| ensures TruthfulEvent(c, Run(c, events[..j]), events[j]) {
      assert Fair(c, Run(c, events[..j]), events[j]);
    }
  }

  lemma TruthfulExtends(h: Hash, v: Variant, k: nat)
    requires TruthfulRun(Build(h), Upto(h, v, k))
             && TruthfulEvent(Build(h), Run(Build(h), Upto(h, v, k)), EventAt(h, v, k))
    ensures TruthfulRun(Build(h), Upto(h, v, k + 1))
  {
    RunNext(h, v, k);
    hide Run, TruthfulEvent, EventAt, Build, Step, Upto;
    var c, events, past := Build(h), Upto(h, v, k + 1), Upto(h, v, k);
    forall j | 0 <= j < |events| ensures TruthfulEvent(c, Run(c, events[..j]), events[j]) {
      if j < k {
        assert past[..j] == events[..j] && past[j] == events[j];
      }
    }
  }

  /** The payload header begins where the payload ends, and is pulled before it. */
  lemma NotLaidOut(h: Hash)
    ensures !LaidOut(Build(h), Asset0(HeaderRepeated))
  {
    var c, core := Build(h), Asset0(HeaderRepeated);
    var p, q := Pull(PayloadHeaderKind, 0), Pull(PayloadDataKind, 0);
    Regions(h);
    hide Image, SbHeaderOf, PayloadHeaderOf;
    assert IsPart(c, core, p) && IsPart(c, core, q) && Rank(p) < Rank(q);
    assert From(c.images(core), p) == To(c.images(core), q);
  }

  lemma Regions(h: Hash)
    ensures SbHeaderOf(Image(h)) == SB && PayloadHeaderOf(Image(h), 0) == HEADER_0
  {
    SbHeaderParsed(h);
    HeaderParsed(h, HEADERS_AT);
    PartIs(h, 0, 44);
    PartIs(h, HEADERS_AT, 40);
    hide Slice, ParseSbHeader, ParsePayloadHeader, Image, Part, Zeros;
  }

  lemma PartIs(h: Hash, at: nat, n: nat)
    requires at + n <= IMAGE_LEN
    ensures Slice(Image(h), at, n) == Part(h, at, n)
  {
    SliceInside(Image(h), at, n);
    hide Slice, Image, ByteOf;
  }

  // ----- A header request that cannot be sent -----------------------------------------

  /** The asset failed after its first payload, with the pull of the next header pending. */
  predicate FailedPending(s: State) {
    && s.connected && s.allowed && s.f.state.Failed? && s.f.staged == 1 && s.a.attached
    && s.a.core == Asset0(HeaderNotSent) && |s.a.scratch| == 256 && s.a.selected == 1
    && s.h.pull == Message(4).pull && s.h.log == Messages(4)
    && s.a.req == Request(PayloadHeaderKind, false, 40, HEADERS_AT + 40, HEADERS_AT + 40, 40, 0, 40)
  }

  lemma NextHeaderFails(h: Hash, s0: State, s: State)
    requires s0.connected && s0.allowed && s0.a.attached && |s0.a.scratch| == 256 && s0.a.core == Asset0(HeaderNotSent)
    requires Done0(s0, s) && s.a.selected == 0 && s.f.state.Active? && s.h.log == Messages(4) && s.a.sb == SB
    requires !s.a.req.outstanding
    ensures FailedPending(SetNextIndex(Build(h), s, NOT_SENT))
  {
    var c := Build(h);
    SetNextIndexIs(c, s, NOT_SENT);
    SetPayloadIndexIs(c, s, 1, NOT_SENT);
    RequestDataIs(c, Selected(s, 1), PayloadHeaderKind, 40, 40, NOT_SENT);
    hide SetNextIndex, SetPayloadIndex, RequestData, Image, Messages, WithDone;
  }

  lemma FailedFirst(h: Hash)
    ensures FairRun(Build(h), Upto(h, HeaderNotSent, 6)) && FailedPending(Run(Build(h), Upto(h, HeaderNotSent, 6)))
  {
    var c, v := Build(h), HeaderNotSent;
    MetadataReceived(h, v);
    hide Run, Upto, FairRun, Fair, Step, PullComplete;
    var s := Run(c, Upto(h, v, 5));
    var s0 := Answer(h, s, 3, NOT_SENT);
    FairNext(h, v, 5);
    RunNext(h, v, 5);
    var s1 := PayloadHandled(h, v, s, s0, NOT_SENT);
    hide SetNextIndex, Messages;
    NextHeaderFails(h, s0, s1);
  }

  /** Pause and resume send the pending request. */
  lemma PendingSent(h: Hash, s: State)
    requires FailedPending(s)
    ensures var s1 := Step(Build(h), Step(Build(h), s, Pause), Resume(ALL_OK));
            && Awaiting(s1, 4) && s1.f == s.f && s1.a.core == s.a.core
    ensures HasAsset(Step(Build(h), s, Pause))
  {
    assert Messages(5) == Messages(4) + [Message(4)];
    PausedAndResumed(Build(h), s, ALL_OK);
    hide Messages, Image;
    assert Step(Build(h), s, Pause).f == s.f;
    hide Step;
  }

  /** The last header, not wanted, stages the failed asset. */
  lemma LastHeaderHandled(h: Hash, s: State, s0: State)
    requires Awaiting(s, 4) && Answered(h, s, 4, s0)
    requires s.f.state.Failed? && s.f.staged == 1 && s.a.core == Asset0(HeaderNotSent)
    ensures PullComplete(Build(h), s0, ALL_OK).f.state.Staged?
  {
    var s1 := WithPayloadHeader(s0, HEADER_1);
    LastHeaderHeld(h, s, s0);
    PayloadReadyStaysFailed(Build(h), s1, ALL_OK);
    hide Part, Image, PullComplete, Messages, PayloadReady;
  }

  lemma LastHeaderHeld(h: Hash, s: State, s0: State)
    requires Answered(h, s, 4, s0) && s.a.core == Asset0(HeaderNotSent)
    ensures PullComplete(Build(h), s0, ALL_OK) == PayloadReady(Build(h), WithPayloadHeader(s0, HEADER_1), ALL_OK)
  {
    HeaderParsed(h, HEADERS_AT + 40);
    PullCompleteIs(Build(h), s0, ALL_OK);
    hide ParsePayloadHeader, Part, Image, PullComplete, Messages, PayloadReady;
  }

  lemma PauseIsFair(h: Hash, v: Variant, k: nat)
    requires FairRun(Build(h), Upto(h, v, k)) && (EventAt(h, v, k).Pause? || EventAt(h, v, k).Resume?)
    ensures FairRun(Build(h), Upto(h, v, k + 1))
    ensures Run(Build(h), Upto(h, v, k + 1)) == Step(Build(h), Run(Build(h), Upto(h, v, k)), EventAt(h, v, k))
  {
    hide Run, Upto, FairRun, Build, EventAt;
    RunNext(h, v, k);
    FairNext(h, v, k);
  }

  /**
   A fair run from initialization in which the asset fails and is staged afterwards,
   without having been removed in between.
   */
  lemma FailsAndIsStaged(h: Hash)
    ensures var c, events := Build(h), Upto(h, HeaderNotSent, 9);
            && FairRun(c, events)
            && Run(c, events[..6]).f.state.Failed?
            && HasAsset(Run(c, events[..7])) && HasAsset(Run(c, events[..8]))
            && Run(c, events).f.state.Staged?
  {
    var c, v := Build(h), HeaderNotSent;
    FailedFirst(h);
    UptoPrefix(h, v, 6, 9);
    UptoPrefix(h, v, 7, 9);
    UptoPrefix(h, v, 8, 9);
    PauseIsFair(h, v, 6);
    PauseIsFair(h, v, 7);
    hide Run, Upto, FairRun, Fair, Build, PullComplete, Step;
    PendingSent(h, Run(c, Upto(h, v, 6)));
    var s := Run(c, Upto(h, v, 8));
    var s0 := Answer(h, s, 4, ALL_OK);
    FairNext(h, v, 8);
    RunNext(h, v, 8);
    LastHeaderHandled(h, s, s0);
  }

  lemma {:induction false} UptoPrefix(h: Hash, v: Variant, k: nat, n: nat)
    requires k <= n
    ensures Upto(h, v, n)[..k] == Upto(h, v, k)
  {
    hide EventAt;
    if k < n {
      UptoPrefix(h, v, k, n - 1);
      assert Upto(h, v, n)[..n - 1] == Upto(h, v, n - 1);
      assert Upto(h, v, n)[..k] == Upto(h, v, n)[..n - 1][..k];
    } else {
      assert Upto(h, v, n)[..n] == Upto(h, v, n);
    }
  }

  // ----- A link lost while a payload header is pulled ----------------------------------

  lemma NextHeaderAsked(h: Hash, s0: State, s: State)
    requires s0.connected && s0.allowed && s0.a.attached && |s0.a.scratch| == 256 && s0.a.core == Asset0(LinkLost)
    requires Done0(s0, s) && s.a.selected == 0 && s.f.state.Active? && s.h.log == Messages(4) && s.a.sb == SB
    requires !s.a.req.outstanding
    ensures var s1 := SetNextIndex(Build(h), s, ALL_OK);
            && Awaiting(s1, 4) && s1.f.state.Active? && Done0(s0, s1) && s1.a.core == Asset0(LinkLost)
            && !s1.a.hasPayloadHeader && !s1.a.payload.needsMetadata && s1.a.recvd == 0
  {
    var c := Build(h);
    SetNextIndexIs(c, s, ALL_OK);
    SetPayloadIndexIs(c, s, 1, ALL_OK);
    Asked(h, Selected(s, 1), PayloadHeaderKind, 40, 40, 4);
    hide SetNextIndex, SetPayloadIndex, RequestData, Image, Messages, WithDone;
  }

  /** The header of payload 1 is awaited. */
  predicate AwaitsNext(s: State) {
    && Awaiting(s, 4) && s.f.state.Active? && s.a.core == Asset0(LinkLost)
    && s.a.hasHeader && !s.a.needsMetadata && s.a.payload.hdr == HEADER_0
    && !s.a.hasPayloadHeader && !s.a.payload.needsMetadata && s.a.recvd == 0
  }

  lemma NextHeaderAwaited(h: Hash)
    ensures FairRun(Build(h), Upto(h, LinkLost, 6)) && AwaitsNext(Run(Build(h), Upto(h, LinkLost, 6)))
  {
    var c, v := Build(h), LinkLost;
    MetadataReceived(h, v);
    hide Run, Upto, FairRun, Fair, Step, PullComplete;
    var s := Run(c, Upto(h, v, 5));
    var s0 := Answer(h, s, 3, ALL_OK);
    FairNext(h, v, 5);
    RunNext(h, v, 5);
    var s1 := PayloadHandled(h, v, s, s0, ALL_OK);
    hide SetNextIndex, Messages;
    NextHeaderAsked(h, s0, s1);
  }

  /**
   A run from initialization that is fair up to the loss of the link, after which an
   equal offer asks for payload bytes where the payload before lies: the state meets
   the hypotheses of OrphanedHeaderPull, and cannot be resumed.
   */
  lemma LosesHeaderPull(h: Hash)
    ensures var c, events := Build(h), Upto(h, LinkLost, 8);
            var s := Run(c, events);
            var s1 := Step(c, s, Offer(s.a.core, true, ALL_OK));
            && FairRun(c, events[..6])
            && Lost(c, s) && s.connected && !CanResume(s, ALL_OK)
            && !Inv(c, s1) && s1.h.pull == Pull(PayloadDataKind, 1) && !s1.a.hasPayloadHeader
            && |s1.h.log| == 6 && s1.h.log[5].offset == PAYLOAD_AT
  {
    hide *;
    NextHeaderAwaited(h);
    Reconnected(h);
    UptoPrefix(h, LinkLost, 6, 8);
    LostAnywhere(Build(h), Upto(h, LinkLost, 6));
    ResumedWrong(h, Run(Build(h), Upto(h, LinkLost, 6)), Run(Build(h), Upto(h, LinkLost, 8)));
  }

  lemma Reconnected(h: Hash)
    ensures Run(Build(h), Upto(h, LinkLost, 8)) ==
            Step(Build(h), Step(Build(h), Run(Build(h), Upto(h, LinkLost, 6)), Disconnect), Connect)
    ensures AwaitsNext(Run(Build(h), Upto(h, LinkLost, 6))) ==> Run(Build(h), Upto(h, LinkLost, 6)).f.state.Active?
  {
    RunNext(h, LinkLost, 6);
    RunNext(h, LinkLost, 7);
    assert EventAt(h, LinkLost, 6) == Disconnect && EventAt(h, LinkLost, 7) == Connect;
    hide Run, Upto, EventAt, Step, Build;
  }

  lemma ResumedWrong(h: Hash, s0: State, s: State)
    requires AwaitsNext(s0) && s == Step(Build(h), Step(Build(h), s0, Disconnect), Connect) && Lost(Build(h), s)
    ensures var s1 := Step(Build(h), s, Offer(s.a.core, true, ALL_OK));
            && s.connected && !CanResume(s, ALL_OK)
            && !Inv(Build(h), s1) && s1.h.pull == Pull(PayloadDataKind, 1) && !s1.a.hasPayloadHeader
            && |s1.h.log| == 6 && s1.h.log[5].offset == PAYLOAD_AT
  {
    OrphanOf(h, s0);
    hide Step, Lost, Build, CanResume, Inv, Messages, Asset0;
    OrphanedHeaderPull(Build(h), s, ALL_OK);
    ResumesRightIff(Build(h), s, ALL_OK);
  }

  lemma OrphanOf(h: Hash, s: State)
    requires AwaitsNext(s)
    ensures var s1 := Step(Build(h), Step(Build(h), s, Disconnect), Connect);
            && s1.f.state.Orphaned? && s1.connected && s1.allowed && s1.a == s.a.(attached := false) && s1.h == s.h
            && !CanResume(s1, ALL_OK)
  {
    hide Image, Messages;
  }

  // ----- A good image -------------------------------------------------------------------

  lemma SecondHeader(h: Hash)
    ensures PayloadHeaderOf(Image(h), 1) == HEADER_1
  {
    Regions(h);
    HeaderParsed(h, HEADERS_AT + 40);
    PartIs(h, HEADERS_AT + 40, 40);
    hide Slice, ParseSbHeader, ParsePayloadHeader, Image, Part, Zeros, SbHeaderOf;
  }

  lemma PayloadInPlace(h: Hash)
    ensures PayloadOf(Image(h), 0) == PayloadBytes()
    ensures ParseTlvs(MetadataOf(Image(h), 0)) == Metadata([Tlv(TLV_TYPE_SHA2, h(PayloadBytes()))], false)
  {
    Regions(h);
    MetadataIs(h);
    PartIs(h, METADATA_AT, METADATA_LEN);
    PartIs(h, PAYLOAD_AT, PAYLOAD_LEN);
    hide ParseTlvs, SbHeaderOf, PayloadHeaderOf, Slice, Image;
    var s := Part(h, PAYLOAD_AT, PAYLOAD_LEN);
    forall i | 0 <= i < PAYLOAD_LEN ensures s[i] == PayloadBytes()[i] {
      assert s[i] == ByteOf(h, PAYLOAD_AT + i);
    }
  }

  lemma FirstIsGood(h: Hash, v: Variant)
    ensures GoodPayload(Build(h), Asset0(v), Image(h), 0)
    ensures IsWanted(Build(h), Asset0(v), 0)
  {
    assert Build(h).hash == h && Build(h).images(Asset0(v)) == Image(h);
    assert HEADER_0.length == PAYLOAD_LEN && Build(h).wanted(HEADER_0);
    Regions(h);
    PayloadInPlace(h);
    OneHash(h(PayloadBytes()));
    hide ParseTlvs, SbHeaderOf, PayloadHeaderOf, PayloadOf, MetadataOf, Slice, Image, HashFrom, FlagsFrom, AnyBad,
      PayloadBytes, Build;
  }

  lemma SecondIsGood(h: Hash, v: Variant)
    ensures GoodPayload(Build(h), Asset0(v), Image(h), 1)
  {
    assert !Build(h).wanted(HEADER_1);
    SecondHeader(h);
    hide ParseTlvs, SbHeaderOf, PayloadHeaderOf, HashRight, FlagsOf, MetadataOf, Image, AnyBad, Build;
  }

  lemma HeaderIsGood(h: Hash, v: Variant)
    ensures GoodHeader(Build(h), Asset0(v), Image(h))
  {
    Regions(h);
    assert ParseTlvs(Slice(Image(h), 0, 0)) == Metadata([], false);
    hide ParseTlvs, SbHeaderOf, PayloadHeaderOf, Slice, ByteOf;
  }

  lemma GoodOfTwo(c: Config, core: Core)
    requires core.numPayloads <= 2 && GoodHeader(c, core, c.images(core))
    requires GoodPayload(c, core, c.images(core), 0) && GoodPayload(c, core, c.images(core), 1)
    ensures GoodImage(c, core)
  {
    hide GoodHeader, GoodPayload;
  }

  /** The image of the runs is a good one: UarpCompletes.GoodImageIsStaged applies to it. */
  lemma ImageIsGood(h: Hash, v: Variant)
    ensures GoodImage(Build(h), Asset0(v)) && IsWanted(Build(h), Asset0(v), 0)
  {
    assert Build(h).images(Asset0(v)) == Image(h) && Asset0(v).numPayloads <= 2;
    hide *;
    HeaderIsGood(h, v);
    FirstIsGood(h, v);
    SecondIsGood(h, v);
    GoodOfTwo(Build(h), Asset0(v));
  }
}
