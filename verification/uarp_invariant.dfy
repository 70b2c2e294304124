/**
 What every step of the transfer keeps, for a controller that answers honestly.
 */
module UarpInvariant {
  import opened Bytes
  import opened UarpImage
  import opened Uarp

  function ImageOf(c: Config, a: Asset): seq<byte> {
    c.images(a.core)
  }

  /** The apply flags that the metadata of payload `index` names; without any, those of a restart. */
  function FlagsOf(image: seq<byte>, index: nat): nat {
    FlagsFrom(ParseTlvs(MetadataOf(image, index)).tlvs, APPLY_FLAGS_NEEDS_RESTART)
  }

  /** Where the window of a pull begins in its region. */
  function WindowBase(a: Asset, kind: Kind): nat {
    match kind
    case PayloadHeaderKind => if a.selected >= 0 then a.selected * PAYLOAD_HEADER_LEN else 0
    case PayloadDataKind => a.recvd
    case _ => 0
  }

  function WindowLen(c: Config, a: Asset, kind: Kind): nat {
    match kind
    case SbHeaderKind => SB_HEADER_LEN
    case SbMetadataKind => a.sb.metadataLength
    case PayloadHeaderKind => PAYLOAD_HEADER_LEN
    case PayloadMetadataKind => a.payload.hdr.metadataLength
    case PayloadDataKind => Min(Diff32(a.payload.hdr.length, a.recvd), c.window)
  }

  // ----- The parts of the invariant ------------------------------------------------

  /** The headers that are held are those of the image. */
  predicate Headers(c: Config, a: Asset) {
    var image := ImageOf(c, a);
    && |a.scratch| == c.window
    && (a.hasHeader ==> a.sb == SbHeaderOf(image) && (a.needsMetadata <==> a.sb.metadataLength > 0))
    && (!a.hasHeader ==> a.selected == -1 && !a.needsMetadata && !a.hasMetadata && !a.hasPayloadHeader)
    && (a.hasPayloadHeader ==>
          && a.selected >= 0
          && a.payload.hdr == PayloadHeaderOf(image, a.selected)
          && (a.payload.needsMetadata <==> a.payload.hdr.metadataLength > 0)
          && a.recvd <= a.payload.hdr.length)
    && (!a.hasPayloadHeader ==> a.recvd == 0 && !a.payload.needsMetadata && !a.payload.hasMetadata)
    && (a.selected >= 0 ==> !a.ShouldRequestMetadata() && a.selected < a.core.numPayloads)
  }

  /** The order in which the parts of a SuperBinary are pulled. */
  function Rank(pull: Pull): int {
    match pull
    case NoPull => -1
    case Pull(SbHeaderKind, _) => 0
    case Pull(SbMetadataKind, _) => 1
    case Pull(PayloadHeaderKind, index) => 3 * index + 2
    case Pull(PayloadMetadataKind, index) => 3 * index + 3
    case Pull(PayloadDataKind, index) => 3 * index + 4
  }

  /** How far the asset has come in that order, by what it holds. */
  function Place(a: Asset): int {
    if !a.hasHeader then 0
    else if a.selected == -1 then 1
    else if !a.hasPayloadHeader then 3 * a.selected + 2
    else if a.payload.ShouldRequestMetadata() then 3 * a.selected + 3
    else 3 * a.selected + 4
  }

  /** A pull of this kind is what the asset needs next. */
  predicate Expected(c: Config, a: Asset, kind: Kind) {
    match kind
    case SbHeaderKind => !a.hasHeader
    case SbMetadataKind => a.hasHeader && a.selected == -1 && a.ShouldRequestMetadata()
    case PayloadHeaderKind => a.hasHeader && a.selected >= 0 && !a.hasPayloadHeader
    case PayloadMetadataKind =>
      a.hasPayloadHeader && a.payload.ShouldRequestMetadata() && a.recvd == 0 && c.wanted(a.payload.hdr)
    case PayloadDataKind =>
      a.hasPayloadHeader && !a.payload.ShouldRequestMetadata() && a.recvd < a.payload.hdr.length
          && c.wanted(a.payload.hdr)
  }

  /** The request's fields agree with the pull in progress, and so does the scratch buffer. */
  predicate PullRight(c: Config, a: Asset, pull: Pull, busy: bool) {
    match pull
    case NoPull => a.req.bytesRemaining == 0 && !a.req.outstanding
    case Pull(kind, index) =>
      var req := a.req;
      var (start, size) := Region(a, kind);
      && index == a.selected && kind == req.kind
      && req.relativeOffset == WindowBase(a, kind)
      && req.bytesRequested == WindowLen(c, a, kind) <= c.window
      && req.bytesResponded < req.bytesRequested
      && req.bytesRemaining == req.bytesRequested - req.bytesResponded
      && req.relativeOffset + req.bytesRequested <= size
      && req.absoluteOffset == Sum32(start, req.relativeOffset)
      && req.currentOffset == Sum32(start, req.relativeOffset + req.bytesResponded)
      && |a.scratch| == c.window
      && a.scratch[..req.bytesResponded] == Slice(ImageOf(c, a), start + req.relativeOffset, req.bytesResponded)
      && Expected(c, a, kind)
      && (kind.PayloadDataKind? ==> busy)
  }

  /** Where the region of a pull starts in the image. */
  function StartOf(image: seq<byte>, pull: Pull): u32
    requires pull.Pull?
  {
    match pull.kind
    case SbHeaderKind => 0
    case SbMetadataKind => SbHeaderOf(image).metadataOffset
    case PayloadHeaderKind => SbHeaderOf(image).payloadHeadersOffset
    case PayloadMetadataKind => if pull.index >= 0 then PayloadHeaderOf(image, pull.index).metadataOffset else 0
    case PayloadDataKind => if pull.index >= 0 then PayloadHeaderOf(image, pull.index).offset else 0
  }

  /** The bounds of a pull within its region; a payload counts as one pull here. */
  function BoundsOf(image: seq<byte>, pull: Pull): (nat, nat)
    requires pull.Pull?
  {
    match pull.kind
    case SbHeaderKind => (0, SB_HEADER_LEN)
    case SbMetadataKind => (0, SbHeaderOf(image).metadataLength)
    case PayloadHeaderKind =>
      if pull.index >= 0 then
        (pull.index * PAYLOAD_HEADER_LEN, pull.index * PAYLOAD_HEADER_LEN + PAYLOAD_HEADER_LEN)
      else (0, PAYLOAD_HEADER_LEN)
    case PayloadMetadataKind => (0, if pull.index >= 0 then PayloadHeaderOf(image, pull.index).metadataLength else 0)
    case PayloadDataKind => (0, if pull.index >= 0 then PayloadHeaderOf(image, pull.index).length else 0)
  }

  /** A request for the payload being pulled lies in a window before, or in the present one. */
  predicate InOneWindow(c: Config, a: Asset, at: nat, n: nat) {
    || at + n <= a.recvd
    || (a.recvd <= at && at + n <= a.recvd + WindowLen(c, a, PayloadDataKind))
  }

  /** A request message lies in its region and, for the payload being pulled, in one window. */
  predicate EntryRight(c: Config, a: Asset, e: Entry) {
    && e.pull.Pull? && 0 < e.len && e.at < TWO_32
    && e.offset == Sum32(StartOf(ImageOf(c, a), e.pull), e.at)
    && BoundsOf(ImageOf(c, a), e.pull).0 <= e.at
    && e.at + e.len <= BoundsOf(ImageOf(c, a), e.pull).1
    && (e.pull.kind.PayloadDataKind? ==>
          && e.pull.index <= a.selected
          && (e.pull.index == a.selected ==> a.hasPayloadHeader && InOneWindow(c, a, e.at, e.len)))
  }

  predicate LogRight(c: Config, a: Asset, log: seq<Entry>) {
    forall i :: 0 <= i < |log| ==> EntryRight(c, a, log[i])
  }

  /** Received were whole windows, or all of the payload. */
  predicate WholeWindows(c: Config, recvd: nat, length: nat) {
    recvd == 0 || recvd == length || (c.window > 0 && recvd % c.window == 0)
  }

  /** The next multiple of `w` behind `n`. */
  function NextMultiple(n: nat, w: nat): nat
    requires w > 0
  {
    (n / w + 1) * w
  }

  /** Where the window of a request message ends; a payload is pulled in windows of `c.window` bytes. */
  function WindowEnd(c: Config, image: seq<byte>, e: Entry): nat
    requires e.pull.Pull?
  {
    var end := BoundsOf(image, e.pull).1;
    if e.pull.kind.PayloadDataKind? && c.window > 0 then Min(end, NextMultiple(e.at, c.window)) else end
  }

  /** The most that one request message may ask for: what the link and the field of the message carry. */
  function MostBytes(c: Config): nat {
    Min(c.maxRx, 0xFFFF)
  }

  /** A request message asks for as much as one can, or for the rest of its window. */
  predicate ChunkRight(c: Config, image: seq<byte>, e: Entry) {
    && e.pull.Pull?
    && 0 < e.len <= MostBytes(c)
    && e.at + e.len <= WindowEnd(c, image, e)
    && (e.len == MostBytes(c) || e.at + e.len == WindowEnd(c, image, e))
  }

  predicate ChunksRight(c: Config, image: seq<byte>, log: seq<Entry>) {
    forall i :: 0 <= i < |log| ==> ChunkRight(c, image, log[i])
  }

  /** The bytes delivered are the payload up to `recvd`; it is complete once, at full length. */
  predicate Delivery(c: Config, a: Asset, delivered: seq<byte>, completions: nat) {
    if a.hasPayloadHeader then
      && delivered == Slice(ImageOf(c, a), a.payload.hdr.offset, a.recvd)
      && completions == if 0 < a.recvd == a.payload.hdr.length then 1 else 0
    else delivered == [] && completions == 0
  }

  /** All of a wanted payload was delivered and reported complete once; of another one, nothing. */
  predicate DoneRight(c: Config, image: seq<byte>, d: Done, index: nat) {
    && d.index == index
    && if c.wanted(PayloadHeaderOf(image, index)) then d.delivered == PayloadOf(image, index) && d.completions == 1
       else d.delivered == [] && d.completions == 0
  }

  /** The payloads before the present one, every one of them. */
  predicate PastRight(c: Config, image: seq<byte>, past: seq<Done>, selected: int) {
    && |past| == (if selected >= 0 then selected else 0)
    && forall i :: 0 <= i < |past| ==> DoneRight(c, image, past[i], i)
  }

  /** All bytes of the payload were written, and they have the hash its metadata names. */
  predicate VerifiedRight(c: Config, image: seq<byte>, v: Verified) {
    && v.index >= 0
    && v.written == PayloadOf(image, v.index)
    && c.hash(v.written) == HashOf(image, v.index)
  }

  /** The counted payloads, each counted once. */
  predicate Tally(c: Config, image: seq<byte>, selected: int, staged: nat, verified: seq<Verified>, completions: nat) {
    && staged == |verified|
    && (forall i :: 0 <= i < |verified| ==> VerifiedRight(c, image, verified[i]))
    && (forall i, j :: 0 <= i < j < |verified| ==> verified[i].index < verified[j].index)
    && (forall i :: 0 <= i < |verified| ==> verified[i].index < selected + completions)
  }

  predicate Base(c: Config, s: State) {
    && Headers(c, s.a)
    && LogRight(c, s.a, s.h.log)
    && ChunksRight(c, ImageOf(c, s.a), s.h.log) && WholeWindows(c, s.a.recvd, s.a.payload.hdr.length)
    && Delivery(c, s.a, s.h.delivered, s.h.completions)
    && (s.a.selected >= 0 ==> Tally(c, ImageOf(c, s.a), s.a.selected, s.f.staged, s.h.verified, s.h.completions))
    && PastRight(c, ImageOf(c, s.a), s.h.past, s.a.selected)
    && Rank(s.h.last) <= Place(s.a)
    && (s.a.attached ==> s.connected)
  }

  /** After a disconnect the asset can be resumed where it was. */
  predicate Resumable(s: State) {
    s.a.selected == -1 || (s.h.pull.Pull? && !s.h.pull.kind.PayloadHeaderKind?)
  }

  /** Metadata was read, and then no payload bytes were asked for: it was corrupt. */
  predicate Stuck(c: Config, s: State) {
    && s.a.hasPayloadHeader && s.a.payload.hasMetadata && s.a.recvd == 0 && c.wanted(s.a.payload.hdr)
    && s.a.selected >= 0
    && s.f.hashed == [] && s.f.payloadHash == HashOf(ImageOf(c, s.a), s.a.selected)
    && s.f.applyFlags == FlagsOf(ImageOf(c, s.a), s.a.selected)
  }

  predicate Healthy(c: Config, s: State) {
    match s.h.pull
    case NoPull => s.a.selected == -1 || Stuck(c, s)
    case Pull(kind, _) =>
      && (kind.PayloadMetadataKind? ==> s.f.hashed == [] && s.f.payloadHash == NoHash()
                                             && s.f.applyFlags == APPLY_FLAGS_NEEDS_RESTART)
      && (kind.PayloadDataKind? ==>
            && s.f.hashed == s.h.delivered == s.h.written
            && s.a.selected >= 0
            && s.f.payloadHash == HashOf(ImageOf(c, s.a), s.a.selected)
            && s.f.applyFlags == FlagsOf(ImageOf(c, s.a), s.a.selected))
  }

  predicate Phase(c: Config, s: State) {
    match s.f.state
    case Active => s.a.attached && Healthy(c, s)
    case Orphaned => !s.a.attached && Resumable(s) && Healthy(c, s)
    case Staged => s.h.pull.NoPull? && s.a.selected >= 0 && s.f.staged > 0
    case Applied => s.h.pull.NoPull? && s.a.selected >= 0 && s.f.staged > 0
    case Failed => s.a.attached
    case NoAsset => false
  }

  predicate Live(c: Config, s: State) {
    Base(c, s) && PullRight(c, s.a, s.h.pull, s.f.busy) && Phase(c, s)
  }

  predicate Inv(c: Config, s: State) {
    HasAsset(s) ==> Live(c, s)
  }

  // ----- Requests -----------------------------------------------------------------

  predicate Quiet(s: State) {
    s.h.pull == NoPull && s.a.req.bytesRemaining == 0 && !s.a.req.outstanding
  }

  /** The states in which data arrives. */
  predicate Working(s: State) {
    (s.f.state.Active? || s.f.state.Failed?) && s.a.attached
  }

  /** Between two pulls. */
  predicate Idle(c: Config, s: State) {
    Base(c, s) && Quiet(s) && Working(s)
  }

  /** Only the request, the scratch buffer, the pull, the link and the accessory's state differ. */
  predicate SameBase(s: State, s1: State) {
    && s1.a == s.a.(req := s1.a.req, scratch := s1.a.scratch, attached := s1.a.attached)
       && |s1.a.scratch| == |s.a.scratch|
    && s1.h == s.h.(pull := s1.h.pull, last := s1.h.last, written := s1.h.written, overrun := s1.h.overrun)
    && (s1.h.last == s.h.last || Rank(s1.h.last) <= Place(s.a))
    && s1.f.staged == s.f.staged
    && ((s1.a.attached == s.a.attached && s1.connected == s.connected) || (s1.a.attached ==> s1.connected))
  }

  lemma BaseFrame(c: Config, s: State, s1: State)
    requires Base(c, s) && SameBase(s, s1)
    ensures Base(c, s1)
  {
    hide SbHeaderOf, PayloadHeaderOf, PayloadOf, HashOf, FlagsOf, Tally, PastRight, StartOf, BoundsOf, Slice;
    forall i | 0 <= i < |s1.h.log| ensures EntryRight(c, s1.a, s1.h.log[i]) {
      assert EntryRight(c, s.a, s.h.log[i]);
    }
  }

  /** The region of a pull is that of the image. */
  lemma RegionRight(c: Config, a: Asset, pull: Pull)
    requires Headers(c, a) && pull.Pull? && pull.index == a.selected && Expected(c, a, pull.kind)
    ensures Region(a, pull.kind).0 == StartOf(ImageOf(c, a), pull)
    ensures !pull.kind.PayloadHeaderKind? ==> Region(a, pull.kind).1 == BoundsOf(ImageOf(c, a), pull).1
    ensures !pull.kind.PayloadDataKind? ==>
              BoundsOf(ImageOf(c, a), pull) ==
                  (WindowBase(a, pull.kind), WindowBase(a, pull.kind) + WindowLen(c, a, pull.kind))
  {
    hide SbHeaderOf, PayloadHeaderOf;
  }

  /** A chunk of the pull in progress lies in its window. */
  lemma EntrySent(c: Config, a: Asset, pull: Pull, busy: bool, n: nat)
    requires Headers(c, a) && PullRight(c, a, pull, busy) && pull.Pull? && 0 < n <= a.req.bytesRemaining
    ensures EntryRight(c, a, Entry(pull, a.req.relativeOffset + a.req.bytesResponded, a.req.currentOffset, n))
  {
    hide SbHeaderOf, PayloadHeaderOf, Slice;
    RegionRight(c, a, pull);
    hide StartOf, Headers;
  }

  /** The end of a window, from an offset in it. */
  lemma WindowOf(recvd: nat, w: nat, n: nat)
    requires 0 < w && recvd % w == 0 && n < w
    ensures NextMultiple(recvd + n, w) == recvd + w
  {
    var q := recvd / w;
    assert recvd == q * w;
    assert recvd + n == (recvd + n) / w * w + (recvd + n) % w;
    DivModUnique((recvd + n) / w, (recvd + n) % w, q, n, w);
    assert (q + 1) * w == q * w + w;
  }

  /** The window of the pull in progress ends where its last chunk does. */
  lemma PullWindowEnd(c: Config, a: Asset, pull: Pull, busy: bool, e: Entry)
    requires c.Valid() && Headers(c, a) && PullRight(c, a, pull, busy) && pull.Pull?
    requires WholeWindows(c, a.recvd, a.payload.hdr.length)
    requires e.pull == pull && e.at == a.req.relativeOffset + a.req.bytesResponded
    ensures WindowEnd(c, ImageOf(c, a), e) == a.req.relativeOffset + a.req.bytesRequested
  {
    hide SbHeaderOf, PayloadHeaderOf, Slice;
    RegionRight(c, a, pull);
    hide StartOf, Headers, NextMultiple;
    if pull.kind.PayloadDataKind? {
      assert a.recvd % c.window == 0;
      WindowOf(a.recvd, c.window, a.req.bytesResponded);
    }
  }

  lemma ChunkSent(c: Config, a: Asset, pull: Pull, busy: bool, n: nat)
    requires c.Valid() && Headers(c, a) && PullRight(c, a, pull, busy) && pull.Pull?
    requires WholeWindows(c, a.recvd, a.payload.hdr.length)
    requires 0 < n == Min(a.req.bytesRemaining, MostBytes(c))
    ensures ChunkRight(c, ImageOf(c, a),
                       Entry(pull, a.req.relativeOffset + a.req.bytesResponded, a.req.currentOffset, n))
  {
    PullWindowEnd(c, a, pull, busy,
                  Entry(pull, a.req.relativeOffset + a.req.bytesResponded, a.req.currentOffset, n));
    hide WindowEnd, Headers, Slice, Region, WindowBase, WindowLen, Expected, WholeWindows;
  }

  lemma LogAppend(c: Config, a: Asset, log: seq<Entry>, e: Entry)
    requires LogRight(c, a, log) && EntryRight(c, a, e)
    requires ChunksRight(c, ImageOf(c, a), log) && ChunkRight(c, ImageOf(c, a), e)
    ensures LogRight(c, a, log + [e]) && ChunksRight(c, ImageOf(c, a), log + [e])
  {
    hide EntryRight, ChunkRight;
  }

  /** The window of a pull does not depend on request and scratch buffer. */
  lemma AssetFrame(c: Config, a: Asset, a1: Asset, kind: Kind)
    requires a1 == a.(req := a1.req, scratch := a1.scratch, attached := a1.attached)
    ensures WindowLen(c, a1, kind) == WindowLen(c, a, kind)
    ensures WindowBase(a1, kind) == WindowBase(a, kind)
    ensures Region(a1, kind) == Region(a, kind)
    ensures Expected(c, a1, kind) == Expected(c, a, kind)
    ensures ImageOf(c, a1) == ImageOf(c, a)
  {
  }

  /** Neither the link nor the outstanding flag matters to the pull in progress. */
  lemma PullFrame(c: Config, a: Asset, a1: Asset, pull: Pull, busy: bool)
    requires PullRight(c, a, pull, busy) && pull.Pull?
    requires a1 == a.(attached := a1.attached, req := a.req.(outstanding := a1.req.outstanding))
    ensures PullRight(c, a1, pull, busy)
  {
    hide Slice, Headers;
    AssetFrame(c, a, a1, pull.kind);
    hide WindowLen, WindowBase, Region, Expected;
  }

  /** A chunk of the pull in progress was asked for. */
  function Sent(s: State, n: nat): State {
    var e := Entry(s.h.pull, s.a.req.relativeOffset + s.a.req.bytesResponded, s.a.req.currentOffset, n);
    s.(a := s.a.(req := s.a.req.(outstanding := true)), h := s.h.(log := s.h.log + [e]))
  }

  lemma ContinueSends(c: Config, s: State, env: Env) returns (n: nat)
    requires c.Valid() && PullRight(c, s.a, s.h.pull, s.f.busy)
    ensures Continue(c, s, env).0 == if n > 0 then Sent(s, n) else s
    ensures n > 0 ==> s.h.pull.Pull? && n == Min(s.a.req.bytesRemaining, MostBytes(c))
  {
    hide Slice, WindowLen, WindowBase, Region, Expected;
    n := if s.a.req.bytesRemaining == 0 || !s.allowed || !env.txOk then 0
         else Min(Min(s.a.req.bytesRemaining, c.maxRx), MAX_BYTES_REQUESTED);
  }

  lemma SentRight(c: Config, s: State, n: nat)
    requires c.Valid() && Base(c, s) && PullRight(c, s.a, s.h.pull, s.f.busy)
    requires s.h.pull.Pull? && 0 < n == Min(s.a.req.bytesRemaining, MostBytes(c))
    ensures Base(c, Sent(s, n)) && PullRight(c, Sent(s, n).a, s.h.pull, s.f.busy)
  {
    var s1 := Sent(s, n);
    SentInLog(c, s, n);
    hide ChunksRight, WholeWindows, Config.Valid, LogRight, Tally, PastRight, Headers, Delivery, PullRight;
    PullFrame(c, s.a, s1.a, s.h.pull, s.f.busy);
    BaseFrame(c, s.(h := s1.h), s1);
  }

  lemma SentInLog(c: Config, s: State, n: nat)
    requires c.Valid() && Base(c, s) && PullRight(c, s.a, s.h.pull, s.f.busy)
    requires s.h.pull.Pull? && 0 < n == Min(s.a.req.bytesRemaining, MostBytes(c))
    ensures LogRight(c, s.a, Sent(s, n).h.log) && ChunksRight(c, ImageOf(c, s.a), Sent(s, n).h.log)
  {
    hide ChunkRight, ChunksRight, WholeWindows, Config.Valid, MostBytes, EntryRight, LogRight, Tally, PastRight,
      Headers, Delivery, PullRight;
    EntrySent(c, s.a, s.h.pull, s.f.busy, n);
    ChunkSent(c, s.a, s.h.pull, s.f.busy, n);
    LogAppend(c, s.a, s.h.log, Sent(s, n).h.log[|s.h.log|]);
  }

  /** The next chunk of the pull in progress is asked for within its window. */
  lemma ContinueRight(c: Config, s: State, env: Env) returns (n: nat)
    requires c.Valid() && Base(c, s) && PullRight(c, s.a, s.h.pull, s.f.busy)
    ensures var s1 := Continue(c, s, env).0;
            && s1 == (if n > 0 then Sent(s, n) else s)
            && Base(c, s1) && PullRight(c, s1.a, s1.h.pull, s1.f.busy)
    ensures n > 0 ==> s.h.pull.Pull? && n == Min(s.a.req.bytesRemaining, MostBytes(c))
  {
    hide Continue, Base, PullRight, Config.Valid, MostBytes;
    n := ContinueSends(c, s, env);
    if n > 0 {
      SentRight(c, s, n);
    }
  }

  /** A pull that an orphaned asset was left with is pulled again. */
  predicate Interrupted(c: Config, s: State, kind: Kind) {
    s.h.pull == Pull(kind, s.a.selected) && PullRight(c, s.a, s.h.pull, s.f.busy)
  }

  predicate MayRequest(c: Config, s: State, kind: Kind, rel: nat, needed: nat) {
    && Base(c, s) && !s.a.req.outstanding
    && Expected(c, s.a, kind) && (kind.PayloadDataKind? ==> s.f.busy)
    && rel == WindowBase(s.a, kind) && needed == WindowLen(c, s.a, kind)
    && ((s.h.pull == NoPull && s.a.req.bytesRemaining == 0) || Interrupted(c, s, kind))
  }

  /** What a new request changes, and that it is right. */
  predicate Requested(c: Config, s: State, kind: Kind, s1: State, ok: bool) {
    && s1.a == s.a.(req := s1.a.req)
    && s1.h == s.h.(pull := s1.h.pull, log := s1.h.log)
    && s1.f == s.f && s1.connected == s.connected
    && Base(c, s1) && PullRight(c, s1.a, s1.h.pull, s1.f.busy)
    && (ok ==> s1.h.pull == Pull(kind, s.a.selected))
  }

  /** The asset with a validated request. */
  function Started(a: Asset, kind: Kind, rel: u32, needed: u32): Asset {
    var abs := Sum32(Region(a, kind).0, rel);
    a.(req := Begun(a.req, kind, rel, needed).(absoluteOffset := abs, currentOffset := abs, bytesRemaining := needed))
  }

  predicate Validated(a: Asset, kind: Kind, rel: u32, needed: u32) {
    var max := Region(a, kind).1;
    max != 0 && needed <= max && Sum32(rel, needed) <= max
  }

  lemma StartedRight(c: Config, s: State, kind: Kind, rel: u32, needed: u32)
    requires c.Valid() && MayRequest(c, s, kind, rel, needed)
    requires needed <= c.window && Validated(s.a, kind, rel, needed)
    ensures PullRight(c, Started(s.a, kind, rel, needed), Pull(kind, s.a.selected), s.f.busy)
  {
    var a1 := Started(s.a, kind, rel, needed);
    WindowFits(c, s, kind, rel, needed);
    hide LogRight, Delivery, Tally, PastRight, Headers, SbHeaderOf, PayloadHeaderOf, Validated, Config.Valid, Base;
    assert Slice(ImageOf(c, a1), Region(a1, kind).0 + rel, 0) == [];
    hide Slice;
    AssetFrame(c, s.a, a1, kind);
    hide WindowLen, WindowBase, Region, Expected;
  }

  /** A window is not empty and lies in its region. */
  lemma WindowFits(c: Config, s: State, kind: Kind, rel: u32, needed: u32)
    requires c.Valid() && MayRequest(c, s, kind, rel, needed)
    requires needed <= c.window && Validated(s.a, kind, rel, needed)
    ensures |s.a.scratch| == c.window && needed > 0 && rel + needed <= Region(s.a, kind).1
  {
    hide LogRight, Delivery, Tally, PastRight, SbHeaderOf, PayloadHeaderOf, Slice, PullRight;
  }

  /** An interrupted pull passes the checks again. */
  lemma InterruptedValid(c: Config, s: State, kind: Kind, rel: u32, needed: u32)
    requires c.Valid() && MayRequest(c, s, kind, rel, needed) && Interrupted(c, s, kind)
    ensures needed <= c.window && Validated(s.a, kind, rel, needed)
  {
    hide Slice, Headers, LogRight, Delivery, Tally, PastRight, Expected;
  }

  /** The state when a request has passed its checks. */
  function Begin(s: State, kind: Kind, rel: u32, needed: u32): State {
    s.(a := Started(s.a, kind, rel, needed), h := s.h.(pull := Pull(kind, s.a.selected)))
  }

  lemma RequestDataIs(c: Config, s: State, kind: Kind, rel: u32, needed: u32, env: Env)
    requires !s.a.req.outstanding
    ensures needed <= c.window && Validated(s.a, kind, rel, needed) ==>
              RequestData(c, s, kind, rel, needed, env) == Continue(c, Begin(s, kind, rel, needed), env)
    ensures !(needed <= c.window && Validated(s.a, kind, rel, needed)) ==>
              var (s1, ok) := RequestData(c, s, kind, rel, needed, env);
              && !ok && (s1 == s
                         || s1 == s.(a := s.a.(req := Begun(s.a.req, kind, rel, needed)), h := s.h.(pull := NoPull)))
  {
    hide Continue;
  }

  /** A request that passes its checks. */
  lemma BeginRight(c: Config, s: State, kind: Kind, rel: u32, needed: u32, env: Env)
    requires c.Valid() && MayRequest(c, s, kind, rel, needed)
    requires needed <= c.window && Validated(s.a, kind, rel, needed)
    ensures var (s1, ok) := Continue(c, Begin(s, kind, rel, needed), env);
            Requested(c, s, kind, s1, ok) && s1.h.pull == Pull(kind, s.a.selected)
  {
    StartedRight(c, s, kind, rel, needed);
    hide Base, PullRight, WindowBase, WindowLen, Expected, Continue, Config.Valid, Validated, Region;
    var s2 := Begin(s, kind, rel, needed);
    BaseFrame(c, s, s2);
    hide MayRequest, Started;
    var n := ContinueRight(c, s2, env);
  }

  lemma RequestDataRight(c: Config, s: State, kind: Kind, rel: u32, needed: u32, env: Env)
    requires c.Valid() && MayRequest(c, s, kind, rel, needed)
    ensures var (s1, ok) := RequestData(c, s, kind, rel, needed, env);
            && Requested(c, s, kind, s1, ok)
            && (needed <= c.window && Validated(s.a, kind, rel, needed) ==> s1.h.pull == Pull(kind, s.a.selected))
  {
    RequestDataIs(c, s, kind, rel, needed, env);
    hide RequestData, Validated, Base, WindowBase, WindowLen, Expected, Continue, Config.Valid, Begin;
    if Interrupted(c, s, kind) {
      InterruptedValid(c, s, kind, rel, needed);
    }
    if needed <= c.window && Validated(s.a, kind, rel, needed) {
      BeginRight(c, s, kind, rel, needed, env);
    } else {
      var s1 := RequestData(c, s, kind, rel, needed, env).0;
      BaseFrame(c, s, s1);
    }
  }
}
