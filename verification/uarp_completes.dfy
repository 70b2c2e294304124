/**
 The transfer succeeds: a controller that answers every request message in full, with
 the bytes of a good image, brings an offered asset to the state STAGED.
 */
module UarpCompletes {
  import opened Bytes
  import opened UarpImage
  import opened Uarp
  import opened UarpInvariant
  import opened UarpSteps
  import opened UarpResponses
  import opened UarpEvents
  import opened UarpOrder
  import opened UarpPlan
  import opened UarpOffers
  import UarpTheorems

  const ALL_OK: Env := Env(true, true, true, true, true)

  // ----- Good images -------------------------------------------------------------------

  /** Offset and length name a region inside of the image. */
  predicate Inside(core: Core, image: seq<byte>, offset: nat, length: nat) {
    offset + length <= |image| && offset + length <= core.totalLength
  }

  /** A payload in range; if it is wanted, not empty, with readable metadata and the right hash. */
  predicate GoodPayload(c: Config, core: Core, image: seq<byte>, index: nat) {
    var hdr := PayloadHeaderOf(image, index);
    && Inside(core, image, hdr.metadataOffset, hdr.metadataLength)
    && Inside(core, image, hdr.offset, hdr.length)
    && (c.wanted(hdr) ==>
          var m := ParseTlvs(MetadataOf(image, index));
          && hdr.length > 0 && hdr.metadataLength <= c.window
          && !AnyBad(m.tlvs) && !m.corrupt
          && HashRight(c, image, index) && FlagsOf(image, index) != APPLY_FLAGS_FAST_RESET)
  }

  predicate GoodHeader(c: Config, core: Core, image: seq<byte>) {
    var sb := SbHeaderOf(image);
    && SB_HEADER_LEN <= |image| < TWO_32
    && sb.formatVersion == SB_FORMAT_VERSION && sb.headerLength == SB_HEADER_LEN
    && Inside(core, image, sb.metadataOffset, sb.metadataLength)
    && Inside(core, image, sb.payloadHeadersOffset, sb.payloadHeadersLength)
    && sb.metadataLength <= c.window
    && !ParseTlvs(Slice(image, sb.metadataOffset, sb.metadataLength)).corrupt
    && 0 < core.numPayloads && core.numPayloads * PAYLOAD_HEADER_LEN <= sb.payloadHeadersLength
  }

  predicate GoodImage(c: Config, core: Core) {
    && GoodHeader(c, core, c.images(core))
    && forall i: nat :: i < core.numPayloads ==> GoodPayload(c, core, c.images(core), i)
  }

  predicate IsWanted(c: Config, core: Core, index: nat) {
    c.wanted(PayloadHeaderOf(c.images(core), index))
  }

  /** The wanted payloads before the `n`-th, with their bytes. */
  function WantedBefore(c: Config, core: Core, n: nat): seq<Verified> {
    if n == 0 then []
    else if IsWanted(c, core, n - 1) then
      WantedBefore(c, core, n - 1) + [Verified(n - 1, PayloadOf(c.images(core), n - 1))]
    else WantedBefore(c, core, n - 1)
  }

  lemma {:induction false} SomeWanted(c: Config, core: Core, n: nat)
    ensures WantedBefore(c, core, n) != [] <==> exists i: nat :: i < n && IsWanted(c, core, i)
  {
    hide IsWanted;
    if n > 0 {
      SomeWanted(c, core, n - 1);
    }
  }

  // ----- Answers ----------------------------------------------------------------------------

  /** The link is up, and the last message asked for the next chunk of the window in progress. */
  predicate Awaiting(s: State) {
    && s.connected && s.allowed && s.f.state.Active? && s.a.attached && s.h.pull.Pull? && s.h.log != []
    && var e := s.h.log[|s.h.log| - 1];
    && e.pull == s.h.pull && e.at == s.a.req.relativeOffset + s.a.req.bytesResponded
    && e.offset == s.a.req.currentOffset && 0 < e.len <= s.a.req.bytesRemaining
  }

  /** The answer to the last message: all the bytes that it asks for. */
  function Answer(c: Config, s: State): (e: Event)
    requires s.h.log != []
    requires s.h.log[|s.h.log| - 1].offset + s.h.log[|s.h.log| - 1].len <= |c.images(s.a.core)|
    ensures e.Response? && e.i == |s.h.log| - 1 && e.env == ALL_OK
  {
    var e := s.h.log[|s.h.log| - 1];
    Response(|s.h.log| - 1, c.images(s.a.core)[e.offset..e.offset + e.len], ALL_OK)
  }

  /** The parts of a good image lie inside of it. */
  lemma PartInside(c: Config, core: Core, p: Pull)
    requires GoodImage(c, core) && MayBePulled(c, core, p)
    ensures To(c.images(core), p) <= |c.images(core)| < TWO_32
  {
    var image := c.images(core);
    if p.index >= 0 {
      assert GoodPayload(c, core, image, p.index);
    }
    hide SbHeaderOf, PayloadHeaderOf, ParseTlvs, AnyBad, HashRight, FlagsOf, GoodPayload, Slice;
    if p.index >= 0 && !p.kind.PayloadHeaderKind? {
      PayloadInside(c, core, image, p.index);
    }
  }

  lemma PayloadInside(c: Config, core: Core, image: seq<byte>, index: nat)
    requires GoodPayload(c, core, image, index)
    ensures var hdr := PayloadHeaderOf(image, index);
            && Inside(core, image, hdr.metadataOffset, hdr.metadataLength)
            && Inside(core, image, hdr.offset, hdr.length)
  {
    hide PayloadHeaderOf, ParseTlvs, AnyBad, HashRight, FlagsOf;
  }

  lemma EntryInside(c: Config, a: Asset, e: Entry)
    requires EntryRight(c, a, e) && To(ImageOf(c, a), e.pull) <= |ImageOf(c, a)| < TWO_32
    ensures 0 < e.len && e.offset + e.len <= |ImageOf(c, a)|
  {
    hide StartOf, BoundsOf, InOneWindow;
  }

  lemma LastInside(c: Config, s: State)
    requires Live(c, s) && Awaiting(s) && GoodImage(c, s.a.core)
    ensures var e := s.h.log[|s.h.log| - 1];
            0 < e.len && e.offset + e.len <= |c.images(s.a.core)|
  {
    var e := s.h.log[|s.h.log| - 1];
    PullIsPart(c, s);
    PartInside(c, s.a.core, s.h.pull);
    assert EntryRight(c, s.a, e) by {
      LiveParts(c, s);
      hide Headers, Delivery, Tally, PastRight, PullRight, Phase, EntryRight, Live;
    }
    hide Live, IsPart, GoodImage, MayBePulled, StartOf, BoundsOf, EntryRight;
    EntryInside(c, s.a, e);
  }

  /** The awaited chunk lies in the image, and its bytes are an honest answer that is taken. */
  lemma AnswerHonest(c: Config, s: State)
    requires c.Valid() && Live(c, s) && Awaiting(s) && GoodImage(c, s.a.core)
    ensures var e := s.h.log[|s.h.log| - 1];
            && e.offset + e.len <= |c.images(s.a.core)|
            && Honest(c, s, |s.h.log| - 1, Answer(c, s).bytes)
            && |Answer(c, s).bytes| == e.len && Passes(s.a, e.offset, Answer(c, s).bytes)
  {
    LastInside(c, s);
    PullFields(c, s);
    hide Live, GoodImage, Expected, WindowLen, WindowBase;
  }

  // ----- One answer ---------------------------------------------------------------------------

  /** How much is left: later parts, later windows, later chunks come first. */
  ghost predicate Later(s: State, s1: State) {
    || Rank(s1.h.pull) > Rank(s.h.pull)
    || (s1.h.pull == s.h.pull && s1.a.req.relativeOffset > s.a.req.relativeOffset)
    || (s1.h.pull == s.h.pull && s1.a.req.relativeOffset == s.a.req.relativeOffset
        && s1.a.req.bytesRemaining < s.a.req.bytesRemaining)
  }

  /** Exactly the wanted payloads before the present one are counted. */
  predicate OnTrack(c: Config, s: State) {
    s.a.selected >= 0 ==> s.h.verified == WantedBefore(c, s.a.core, s.a.selected)
  }

  /** The next window of the plan is behind the present one. */
  predicate AskedLater(s: State, next: Next) {
    && next.Ask? && next.pull.Pull?
    && (Rank(next.pull) > Rank(s.h.pull) || (next.pull == s.h.pull && next.at > s.a.req.relativeOffset))
  }

  /** What is counted when the plan goes on, or ends. */
  predicate CountRight(c: Config, s: State, next: Next, verified: seq<Verified>) {
    match next
    case Ask(pull, _, _) => pull.Pull? && (pull.index >= 0 ==> verified == WantedBefore(c, s.a.core, pull.index))
    case Stage => verified == WantedBefore(c, s.a.core, s.a.core.numPayloads)
    case _ => verified == WantedBefore(c, s.a.core, s.a.core.numPayloads) == []
  }

  /** On a good image the plan goes on, and ends behind the last payload. */
  predicate GoesOn(c: Config, s: State, next: Next, verified: seq<Verified>) {
    && (AskedLater(s, next) || next == Stage || (next == Fail && WantedBefore(c, s.a.core, s.a.core.numPayloads) == []))
    && CountRight(c, s, next, verified)
  }

  lemma NothingWanted(c: Config, core: Core)
    ensures WantedBefore(c, core, 0) == []
  {
  }

  lemma AskHeaderGood(c: Config, core: Core, index: nat)
    requires GoodImage(c, core) && index < core.numPayloads
    ensures AskHeader(core, c.images(core), index) ==
            Ask(Pull(PayloadHeaderKind, index), index * PAYLOAD_HEADER_LEN, PAYLOAD_HEADER_LEN)
  {
    hide SbHeaderOf, GoodPayload, ParseTlvs;
    MoreHeaders(index, core.numPayloads);
  }

  lemma MoreHeaders(index: nat, n: nat)
    requires index < n
    ensures (index + 1) * PAYLOAD_HEADER_LEN <= n * PAYLOAD_HEADER_LEN
  {
  }

  lemma SbHeaderGoesOn(c: Config, s: State, pull: Pull)
    requires GoodImage(c, s.a.core) && s.h.pull == pull && pull.Pull? && pull.kind.SbHeaderKind? && c.Valid()
    ensures GoesOn(c, s, AfterSbHeader(c, s.a.core, c.images(s.a.core)), Tallied(c, s, pull, 0, ALL_OK).h.verified)
  {
    AskHeaderGood(c, s.a.core, 0);
    NothingWanted(c, s.a.core);
    hide SbHeaderOf, GoodPayload, ParseTlvs, AskHeader, Slice, WantedBefore;
  }

  lemma SbMetadataGoesOn(c: Config, s: State, pull: Pull)
    requires GoodImage(c, s.a.core) && s.h.pull == pull && pull.Pull? && pull.kind.SbMetadataKind?
    ensures GoesOn(c, s, AfterSbMetadata(s.a.core, c.images(s.a.core)), Tallied(c, s, pull, 0, ALL_OK).h.verified)
  {
    AskHeaderGood(c, s.a.core, 0);
    NothingWanted(c, s.a.core);
    hide SbHeaderOf, GoodPayload, ParseTlvs, AskHeader, Slice, WantedBefore;
  }

  /** What a good payload that is wanted allows. */
  lemma GoodWanted(c: Config, core: Core, index: nat)
    requires GoodImage(c, core) && index < core.numPayloads
    ensures var image := c.images(core);
            var hdr := PayloadHeaderOf(image, index);
            && Sum32(hdr.metadataOffset, hdr.metadataLength) <= core.totalLength
            && Sum32(hdr.offset, hdr.length) <= core.totalLength
            && (IsWanted(c, core, index) ==>
                  var m := ParseTlvs(MetadataOf(image, index));
                  && hdr.length > 0 && hdr.metadataLength <= c.window && !AnyBad(m.tlvs) && !m.corrupt
                  && HashRight(c, image, index) && FlagsOf(image, index) != APPLY_FLAGS_FAST_RESET)
  {
    assert GoodPayload(c, core, c.images(core), index);
    hide GoodHeader, PayloadHeaderOf, ParseTlvs, AnyBad, HashRight, FlagsOf, MetadataOf;
  }

  lemma WantedNext(c: Config, core: Core, n: nat)
    ensures WantedBefore(c, core, n + 1) ==
            if IsWanted(c, core, n) then WantedBefore(c, core, n) + [Verified(n, PayloadOf(c.images(core), n))]
            else WantedBefore(c, core, n)
  {
  }

  lemma StartGoesOn(c: Config, core: Core, index: nat, busy: bool)
    requires GoodImage(c, core) && index < core.numPayloads && IsWanted(c, core, index) && c.Valid()
    ensures StartPayload(c, c.images(core), index, busy, ALL_OK) ==
            Ask(Pull(PayloadDataKind, index), 0, Min(PayloadHeaderOf(c.images(core), index).length, c.window))
  {
    GoodWanted(c, core, index);
    hide GoodImage, PayloadHeaderOf, IsWanted, ParseTlvs, AnyBad, HashRight, FlagsOf, MetadataOf;
  }

  /** What follows the header of a wanted payload of a good image. */
  lemma AfterWantedHeader(c: Config, core: Core, index: nat, staged: nat, busy: bool)
    requires c.Valid() && GoodImage(c, core) && index < core.numPayloads && IsWanted(c, core, index)
    ensures AfterPayloadHeader(c, core, c.images(core), index, staged, busy, ALL_OK) ==
            if PayloadHeaderOf(c.images(core), index).metadataLength > 0 then
              Ask(Pull(PayloadMetadataKind, index), 0, PayloadHeaderOf(c.images(core), index).metadataLength)
            else
              Ask(Pull(PayloadDataKind, index), 0, Min(PayloadHeaderOf(c.images(core), index).length, c.window))
  {
    GoodWanted(c, core, index);
    StartGoesOn(c, core, index, busy);
    hide GoodImage, PayloadHeaderOf, AskHeader, StartPayload, ParseTlvs, AnyBad, HashRight, FlagsOf, MetadataOf;
  }

  /** What follows the header of another payload. */
  lemma AfterUnwantedHeader(c: Config, core: Core, index: nat, staged: nat, busy: bool)
    requires c.Valid() && GoodImage(c, core) && index < core.numPayloads && !IsWanted(c, core, index)
    ensures AfterPayloadHeader(c, core, c.images(core), index, staged, busy, ALL_OK) ==
            if index + 1 < core.numPayloads || staged > 0 then BehindPayload(core, c.images(core), index + 1) else Fail
  {
    GoodWanted(c, core, index);
    hide GoodImage, PayloadHeaderOf, AskHeader, StartPayload, ParseTlvs, AnyBad, HashRight, FlagsOf, MetadataOf;
  }

  /** What comes behind payload `n - 1`: the header of the next one, or the end. */
  function BehindPayload(core: Core, image: seq<byte>, n: nat): Next {
    if n < core.numPayloads then AskHeader(core, image, n) else Stage
  }

  lemma BehindGoesOn(c: Config, s: State, n: nat, verified: seq<Verified>)
    requires GoodImage(c, s.a.core) && n <= s.a.core.numPayloads && verified == WantedBefore(c, s.a.core, n)
    requires Rank(s.h.pull) < 3 * n + 2
    ensures GoesOn(c, s, BehindPayload(s.a.core, c.images(s.a.core), n), verified)
  {
    hide GoodImage, AskHeader, WantedBefore;
    if n < s.a.core.numPayloads {
      AskHeaderGood(c, s.a.core, n);
      assert Rank(Pull(PayloadHeaderKind, n)) == 3 * n + 2;
    }
  }

  /** The metadata or the first window of the payload lies behind its header. */
  lemma HeldGoesOn(c: Config, s: State, kind: Kind, n: nat)
    requires s.h.pull.Pull? && s.h.pull.index >= 0 && (kind.PayloadMetadataKind? || kind.PayloadDataKind?)
    requires s.h.pull.kind.PayloadHeaderKind? || (s.h.pull.kind.PayloadMetadataKind? && kind.PayloadDataKind?)
    requires s.h.verified == WantedBefore(c, s.a.core, s.h.pull.index)
    ensures GoesOn(c, s, Ask(Pull(kind, s.h.pull.index), 0, n), s.h.verified)
  {
    hide WantedBefore;
  }

  lemma WantedGoesOn(c: Config, s: State, index: nat, staged: nat, busy: bool)
    requires c.Valid() && GoodImage(c, s.a.core) && s.h.pull == Pull(PayloadHeaderKind, index)
    requires index < s.a.core.numPayloads && s.h.verified == WantedBefore(c, s.a.core, index)
    requires IsWanted(c, s.a.core, index)
    ensures GoesOn(c, s, AfterPayloadHeader(c, s.a.core, c.images(s.a.core), index, staged, busy, ALL_OK), s.h.verified)
  {
    var hdr := PayloadHeaderOf(c.images(s.a.core), index);
    hide *;
    AfterWantedHeader(c, s.a.core, index, staged, busy);
    if hdr.metadataLength > 0 {
      HeldGoesOn(c, s, PayloadMetadataKind, hdr.metadataLength);
    } else {
      HeldGoesOn(c, s, PayloadDataKind, Min(hdr.length, c.window));
    }
  }

  lemma NoneWantedGoesOn(c: Config, s: State)
    requires s.h.verified == WantedBefore(c, s.a.core, s.a.core.numPayloads) == []
    ensures GoesOn(c, s, Fail, s.h.verified)
  {
    hide WantedBefore;
  }

  lemma UnwantedGoesOn(c: Config, s: State, index: nat, staged: nat, busy: bool)
    requires c.Valid() && GoodImage(c, s.a.core) && s.h.pull == Pull(PayloadHeaderKind, index)
    requires index < s.a.core.numPayloads && s.h.verified == WantedBefore(c, s.a.core, index + 1)
    requires staged == |s.h.verified| && !IsWanted(c, s.a.core, index)
    ensures GoesOn(c, s, AfterPayloadHeader(c, s.a.core, c.images(s.a.core), index, staged, busy, ALL_OK), s.h.verified)
  {
    hide *;
    AfterUnwantedHeader(c, s.a.core, index, staged, busy);
    if index + 1 < s.a.core.numPayloads || staged > 0 {
      BehindGoesOn(c, s, index + 1, s.h.verified) by {
        assert Rank(Pull(PayloadHeaderKind, index)) == 3 * index + 2 by { HeaderRank(index); }
      }
    } else {
      NoneWantedGoesOn(c, s);
    }
  }

  lemma HeaderRank(index: nat)
    ensures Rank(Pull(PayloadHeaderKind, index)) == 3 * index + 2
  {
  }

  lemma PayloadHeaderGoesOn(c: Config, s: State, index: nat, staged: nat, busy: bool)
    requires c.Valid() && GoodImage(c, s.a.core) && s.h.pull == Pull(PayloadHeaderKind, index)
    requires index < s.a.core.numPayloads && s.h.verified == WantedBefore(c, s.a.core, index)
    requires staged == |s.h.verified|
    ensures GoesOn(c, s, AfterPayloadHeader(c, s.a.core, c.images(s.a.core), index, staged, busy, ALL_OK), s.h.verified)
  {
    hide *;
    if IsWanted(c, s.a.core, index) {
      WantedGoesOn(c, s, index, staged, busy);
    } else {
      WantedNext(c, s.a.core, index);
      UnwantedGoesOn(c, s, index, staged, busy);
    }
  }

  lemma PayloadMetadataGoesOn(c: Config, s: State, pull: Pull, busy: bool)
    requires c.Valid() && GoodImage(c, s.a.core) && s.h.pull == pull && pull.Pull? && pull.kind.PayloadMetadataKind?
    requires 0 <= pull.index < s.a.core.numPayloads && s.h.verified == WantedBefore(c, s.a.core, pull.index)
    requires IsWanted(c, s.a.core, pull.index)
    ensures GoesOn(c, s, AfterPayloadMetadata(c, c.images(s.a.core), pull.index, busy, ALL_OK), s.h.verified)
  {
    GoodWanted(c, s.a.core, pull.index);
    hide GoodImage, PayloadHeaderOf, StartPayload, ParseTlvs, AnyBad, HashRight, FlagsOf, MetadataOf, WantedBefore,
      IsWanted, GoesOn;
    StartGoesOn(c, s.a.core, pull.index, busy);
    HeldGoesOn(c, s, PayloadDataKind, Min(PayloadHeaderOf(c.images(s.a.core), pull.index).length, c.window));
  }

  /** What follows a window that leaves some of its payload. */
  lemma AfterInnerWindow(c: Config, s: State, index: nat, upto: nat)
    requires upto < PayloadHeaderOf(c.images(s.a.core), index).length
    ensures AfterWindow(c, s.a.core, c.images(s.a.core), index, upto, ALL_OK) ==
            Ask(Pull(PayloadDataKind, index), upto,
                Min(PayloadHeaderOf(c.images(s.a.core), index).length - upto, c.window))
    ensures Tallied(c, s, Pull(PayloadDataKind, index), upto, ALL_OK).h.verified == s.h.verified
  {
    hide PayloadHeaderOf, AskHeader, HashRight, FlagsOf, PayloadOf;
  }

  /** What follows the last window of a payload of a good image. */
  lemma AfterLastWindow(c: Config, s: State, index: nat, upto: nat)
    requires GoodImage(c, s.a.core) && index < s.a.core.numPayloads && IsWanted(c, s.a.core, index)
    requires PayloadHeaderOf(c.images(s.a.core), index).length <= upto
    ensures AfterWindow(c, s.a.core, c.images(s.a.core), index, upto, ALL_OK) ==
            BehindPayload(s.a.core, c.images(s.a.core), index + 1)
    ensures Tallied(c, s, Pull(PayloadDataKind, index), upto, ALL_OK).h.verified ==
            s.h.verified + [Verified(index, PayloadOf(c.images(s.a.core), index))]
  {
    GoodWanted(c, s.a.core, index);
    hide GoodImage, PayloadHeaderOf, AskHeader, ParseTlvs, AnyBad, HashRight, FlagsOf, MetadataOf, IsWanted, PayloadOf;
  }

  /** The next window of the payload lies behind the present one. */
  lemma NextWindowGoesOn(c: Config, s: State, at: nat, n: nat)
    requires s.h.pull.Pull? && s.h.pull.kind.PayloadDataKind? && s.a.req.relativeOffset < at
    requires s.h.pull.index >= 0 && s.h.verified == WantedBefore(c, s.a.core, s.h.pull.index)
    ensures GoesOn(c, s, Ask(s.h.pull, at, n), s.h.verified)
  {
    hide WantedBefore;
  }

  lemma LastWindowGoesOn(c: Config, s: State, index: nat, verified: seq<Verified>)
    requires GoodImage(c, s.a.core) && s.h.pull == Pull(PayloadDataKind, index)
    requires index < s.a.core.numPayloads && s.h.verified == WantedBefore(c, s.a.core, index)
    requires IsWanted(c, s.a.core, index)
    requires verified == s.h.verified + [Verified(index, PayloadOf(c.images(s.a.core), index))]
    ensures GoesOn(c, s, BehindPayload(s.a.core, c.images(s.a.core), index + 1), verified)
  {
    WantedNext(c, s.a.core, index);
    hide GoodImage, WantedBefore, IsWanted, PayloadOf, BehindPayload, GoesOn;
    BehindGoesOn(c, s, index + 1, verified);
  }

  lemma WindowGoesOn(c: Config, s: State, index: nat, upto: nat)
    requires c.Valid() && GoodImage(c, s.a.core) && s.h.pull == Pull(PayloadDataKind, index)
    requires index < s.a.core.numPayloads && s.h.verified == WantedBefore(c, s.a.core, index)
    requires IsWanted(c, s.a.core, index) && s.a.req.relativeOffset < upto
    ensures GoesOn(c, s, AfterWindow(c, s.a.core, c.images(s.a.core), index, upto, ALL_OK),
                   Tallied(c, s, Pull(PayloadDataKind, index), upto, ALL_OK).h.verified)
  {
    var length := PayloadHeaderOf(c.images(s.a.core), index).length;
    hide *;
    if upto < length {
      AfterInnerWindow(c, s, index, upto);
      NextWindowGoesOn(c, s, upto, Min(length - upto, c.window));
    } else {
      AfterLastWindow(c, s, index, upto);
      LastWindowGoesOn(c, s, index, Tallied(c, s, Pull(PayloadDataKind, index), upto, ALL_OK).h.verified);
    }
  }

  /** Whatever part was pulled, the plan goes on. */
  lemma PlanGoesOn(c: Config, s: State)
    requires c.Valid() && Live(c, s) && s.h.pull.Pull? && GoodImage(c, s.a.core) && OnTrack(c, s)
    ensures var next := After(c, s.a.core, s.h.pull, Upto(s), s.f.staged, s.f.busy, ALL_OK);
            GoesOn(c, s, next, Tallied(c, s, s.h.pull, Upto(s), ALL_OK).h.verified)
  {
    PullIsPart(c, s);
    PullFields(c, s);
    UarpTheorems.RequestPositive(c, s);
    StagedTally(c, s);
    TalliedPull(c, s, s.h.pull, Upto(s));
    var pull := s.h.pull;
    hide Tallied, Live, GoodImage, GoesOn, AfterSbHeader, AfterSbMetadata, AfterPayloadHeader, AfterPayloadMetadata,
      AfterWindow, Expected, WindowLen, SbHeaderOf, PayloadHeaderOf, HashRight, PayloadOf, WantedBefore, From, To;
    match pull.kind
    case SbHeaderKind => SbHeaderGoesOn(c, s, pull);
    case SbMetadataKind => SbMetadataGoesOn(c, s, pull);
    case PayloadHeaderKind => PayloadHeaderGoesOn(c, s, pull.index, s.f.staged, s.f.busy);
    case PayloadMetadataKind => PayloadMetadataGoesOn(c, s, pull, s.f.busy);
    case PayloadDataKind => WindowGoesOn(c, s, pull.index, Upto(s));
  }

  lemma TalliedPull(c: Config, s: State, pull: Pull, upto: nat)
    requires pull.Pull?
    ensures !pull.kind.PayloadDataKind? ==> Tallied(c, s, pull, upto, ALL_OK) == Tallied(c, s, pull, 0, ALL_OK)
    ensures pull.kind.PayloadHeaderKind? || pull.kind.PayloadMetadataKind? ==>
              Tallied(c, s, pull, upto, ALL_OK).h.verified == s.h.verified
  {
    hide SbHeaderOf, PayloadHeaderOf, PayloadOf, HashRight, AfterSbHeader, AfterSbMetadata, MetadataOf, ParseTlvs,
      AnyBad, WriterStarts;
  }

  lemma StagedTally(c: Config, s: State)
    requires Live(c, s)
    ensures s.a.selected >= 0 ==> s.f.staged == |s.h.verified|
  {
    hide Headers, LogRight, Delivery, PastRight, PullRight, Phase, VerifiedRight;
  }

  /** A response changes neither the link nor whose image it is. */
  lemma ResponseKeepsLink(c: Config, s: State, i: nat, bytes: seq<byte>, env: Env)
    requires c.Valid() && Live(c, s) && s.connected && Honest(c, s, i, bytes)
    ensures var s1 := Step(c, s, Response(i, bytes, env));
            s1.f.state.Active? ==> s1.connected && s1.a.attached
  {
    StepKeepsInv(c, s, Response(i, bytes, env));
    var s1 := Step(c, s, Response(i, bytes, env));
    hide Step, Honest, PullRight, Headers, LogRight, Delivery, Tally, PastRight, Healthy, ChunksRight, WholeWindows;
  }

  /** The first chunk of a window that was asked for is awaited. */
  lemma AskedIsAwaited(c: Config, s: State, next: Next, s1: State)
    requires c.Valid() && Live(c, s1) && next.Ask? && s.allowed && s1.allowed && s1.a.core == s.a.core
    requires Asks(c, s, next, ALL_OK, s1) && s1.connected && s1.a.attached
    ensures Awaiting(s1)
  {
    LiveParts(c, s1);
    PullFields(c, s1);
    UarpTheorems.RequestPositive(c, s1);
    RegionRight(c, s1.a, s1.h.pull);
    assert s1.a.req.currentOffset == Sum32(StartOf(ImageOf(c, s1.a), s1.h.pull), next.at) by {
      hide Live, Base, Phase, StartOf, Slice, WindowLen, WindowBase, Expected;
    }
    hide Live, Base, PullRight, Phase, StartOf, Expected, WindowLen, WindowBase, Region;
  }

  lemma ChunkIsAwaited(c: Config, s: State, n: nat, s1: State)
    requires c.Valid() && Awaiting(s) && 0 < n < s.a.req.bytesRemaining && NextChunk(c, s, n, ALL_OK, s1)
    requires s1.connected && s1.a.attached
    ensures Awaiting(s1) && Later(s, s1)
  {
  }

  lemma HonestIsFair(c: Config, s: State, i: nat, bytes: seq<byte>)
    requires Honest(c, s, i, bytes)
    ensures Fair(c, s, Response(i, bytes, ALL_OK)) && Truthful(c, s, i, bytes)
  {
    hide Truthful;
  }

  /** What an honest answer to an awaited chunk is followed by. */
  lemma HonestFollowed(c: Config, s: State, i: nat, bytes: seq<byte>)
    requires c.Valid() && Live(c, s) && s.f.state.Active? && s.connected && s.h.pull.Pull?
    requires Honest(c, s, i, bytes) && Passes(s.a, s.h.log[i].offset, bytes) && 0 < |bytes| <= s.a.req.bytesRemaining
    ensures var s1 := Step(c, s, Response(i, bytes, ALL_OK));
            && Inv(c, s1) && (s1.f.state.Active? ==> s1.connected && s1.a.attached)
            && if |bytes| < s.a.req.bytesRemaining then NextChunk(c, s, |bytes|, ALL_OK, s1)
               else PlanFollowed(c, s, ALL_OK, s1)
  {
    hide *;
    HonestIsFair(c, s, i, bytes);
    LiveIsInv(c, s);
    ResponseFollowsPlan(c, s, i, bytes, ALL_OK);
    ResponseKeepsLink(c, s, i, bytes, ALL_OK);
    StepKeepsInv(c, s, Response(i, bytes, ALL_OK));
  }

  lemma AnswerFollowed(c: Config, s: State)
    requires c.Valid() && Live(c, s) && Awaiting(s) && GoodImage(c, s.a.core)
    ensures s.h.log[|s.h.log| - 1].offset + s.h.log[|s.h.log| - 1].len <= |c.images(s.a.core)|
    ensures var s1, n := Step(c, s, Answer(c, s)), |Answer(c, s).bytes|;
            && Inv(c, s1) && (s1.f.state.Active? ==> s1.connected && s1.a.attached)
            && 0 < n <= s.a.req.bytesRemaining
            && if n < s.a.req.bytesRemaining then NextChunk(c, s, n, ALL_OK, s1) else PlanFollowed(c, s, ALL_OK, s1)
  {
    AnswerHonest(c, s);
    hide Live, GoodImage, Step, Honest, Passes, NextChunk, PlanFollowed, Inv;
    HonestFollowed(c, s, |s.h.log| - 1, Answer(c, s).bytes);
  }

  lemma LiveIsInv(c: Config, s: State)
    requires Live(c, s)
    ensures Inv(c, s)
  {
    hide Live;
  }

  lemma ChunkLeads(c: Config, s: State, n: nat, s1: State)
    requires c.Valid() && Awaiting(s) && 0 < n < s.a.req.bytesRemaining && NextChunk(c, s, n, ALL_OK, s1)
    requires s1.connected && s1.a.attached && Inv(c, s1) && OnTrack(c, s)
    ensures s1.a.core == s.a.core && Leads(c, s, s1)
  {
    ChunkIsAwaited(c, s, n, s1);
    hide Live, WantedBefore, Later, Awaiting;
  }

  /** Every answer leads to the next chunk, or behind the last payload. */
  lemma AnswerLeadsOn(c: Config, s: State)
    requires c.Valid() && Live(c, s) && Awaiting(s) && GoodImage(c, s.a.core) && OnTrack(c, s)
    ensures s.h.log[|s.h.log| - 1].offset + s.h.log[|s.h.log| - 1].len <= |c.images(s.a.core)|
    ensures var s1 := Step(c, s, Answer(c, s));
            s1.a.core == s.a.core && (Leads(c, s, s1) || Ends(c, s, s1))
  {
    AnswerFollowed(c, s);
    var s1, n := Step(c, s, Answer(c, s)), |Answer(c, s).bytes|;
    hide Live, GoodImage, Step, PlanFollowed, Inv, Leads, Ends, OnTrack, Answer, GoesOn;
    if n < s.a.req.bytesRemaining {
      ChunkLeads(c, s, n, s1);
    } else {
      hide NextChunk;
      PlanGoesOn(c, s);
      PlanLeads(c, s, s1);
    }
  }

  /** The next chunk is awaited. */
  ghost predicate Leads(c: Config, s: State, s1: State) {
    Live(c, s1) && Awaiting(s1) && OnTrack(c, s1) && Later(s, s1)
  }

  /** The asset is staged with all wanted payloads, or none is wanted. */
  predicate Ends(c: Config, s: State, s1: State) {
    var all := WantedBefore(c, s.a.core, s.a.core.numPayloads);
    && s1.h.verified == all
    && s1.f.state == if all == [] then Failed else Staged
  }

  lemma AskLeads(c: Config, s: State, t: State, next: Next, s1: State)
    requires c.Valid() && s.allowed && Inv(c, s1) && (s1.f.state.Active? ==> s1.connected && s1.a.attached)
    requires t.a == s.a && t.allowed == s.allowed && next.Ask?
    requires Follows(c, t, next, ALL_OK, s1) && GoesOn(c, s, next, t.h.verified)
    ensures s1.a.core == s.a.core && Leads(c, s, s1)
  {
    hide Live, WantedBefore, StartOf, MostBytes;
    AskedIsAwaited(c, t, next, s1);
  }

  lemma EndEnds(c: Config, s: State, t: State, next: Next, s1: State)
    requires Inv(c, s1) && t.a == s.a && !next.Ask?
    requires Follows(c, t, next, ALL_OK, s1) && GoesOn(c, s, next, t.h.verified)
    ensures s1.a.core == s.a.core && Ends(c, s, s1)
  {
    if s1.f.state.Staged? {
      StagedIffWanted(c, s1);
    }
    hide Live, WantedBefore;
  }

  lemma PlanLeads(c: Config, s: State, s1: State)
    requires c.Valid() && s.allowed && s.h.pull.Pull? && Inv(c, s1)
    requires PlanFollowed(c, s, ALL_OK, s1) && (s1.f.state.Active? ==> s1.connected && s1.a.attached)
    requires GoesOn(c, s, After(c, s.a.core, s.h.pull, Upto(s), s.f.staged, s.f.busy, ALL_OK),
                    Tallied(c, s, s.h.pull, Upto(s), ALL_OK).h.verified)
    ensures s1.a.core == s.a.core && (Leads(c, s, s1) || Ends(c, s, s1))
  {
    var next := After(c, s.a.core, s.h.pull, Upto(s), s.f.staged, s.f.busy, ALL_OK);
    var t := Tallied(c, s, s.h.pull, Upto(s), ALL_OK);
    assert Follows(c, t, next, ALL_OK, s1);
    hide *;
    TalliedKeeps(c, s, s.h.pull, Upto(s), ALL_OK);
    if next.Ask? {
      AskLeads(c, s, t, next, s1);
    } else {
      EndEnds(c, s, t, next, s1);
    }
  }

  lemma TalliedKeeps(c: Config, s: State, pull: Pull, upto: nat, env: Env)
    requires pull.Pull?
    ensures Tallied(c, s, pull, upto, env).a == s.a && Tallied(c, s, pull, upto, env).allowed == s.allowed
  {
    hide SbHeaderOf, PayloadHeaderOf, HashRight, PayloadOf, AfterSbHeader, AfterSbMetadata;
  }

  lemma StagedIffWanted(c: Config, s: State)
    requires Inv(c, s) && s.f.state.Staged?
    ensures s.h.verified != []
  {
    hide Headers, LogRight, Delivery, PastRight, PullRight, VerifiedRight;
  }

  // ----- The whole transfer -------------------------------------------------------------------

  /** The events are truthful answers, all calls succeeding. */
  ghost predicate AllAnswers(c: Config, past: seq<Event>, more: seq<Event>) {
    forall k :: 0 <= k < |more| ==>
      && more[k].Response? && more[k].env == ALL_OK
      && Truthful(c, Run(c, past + more[..k]), more[k].i, more[k].bytes)
  }

  lemma RunOne(c: Config, past: seq<Event>, e: Event)
    ensures Run(c, past + [e]) == Step(c, Run(c, past), e)
  {
    assert (past + [e])[..|past|] == past;
  }

  lemma FairOne(c: Config, past: seq<Event>, e: Event)
    requires FairRun(c, past) && Fair(c, Run(c, past), e)
    ensures FairRun(c, past + [e])
  {
    hide Run, Fair;
    var events := past + [e];
    forall k | 0 <= k < |events| ensures Fair(c, Run(c, events[..k]), events[k]) {
      assert events[..k] == if k < |past| then past[..k] else past;
    }
  }

  lemma FirstAnswer(c: Config, past: seq<Event>, e: Event, more: seq<Event>)
    requires e.Response? && e.env == ALL_OK && Truthful(c, Run(c, past), e.i, e.bytes)
    requires AllAnswers(c, past + [e], more)
    ensures AllAnswers(c, past, [e] + more)
  {
    hide Run, Truthful;
    var all := [e] + more;
    forall k | 0 <= k < |all|
      ensures && all[k].Response? && all[k].env == ALL_OK
              && Truthful(c, Run(c, past + all[..k]), all[k].i, all[k].bytes)
    {
      if k == 0 {
        assert past + all[..0] == past;
      } else {
        assert past + all[..k] == (past + [e]) + more[..k - 1] && all[k] == more[k - 1];
      }
    }
  }

  /** Where the transfer stands: later parts, windows and chunks are smaller. */
  function RankLeft(s: State): nat {
    if Rank(s.h.pull) <= 3 * TWO_16 + 4 then 3 * TWO_16 + 4 - Rank(s.h.pull) else 0
  }

  lemma LaterIsSmaller(c: Config, s: State, s1: State)
    requires Live(c, s) && Live(c, s1) && s.h.pull.Pull? && s1.h.pull.Pull? && Later(s, s1)
    ensures var (a, b) := (s.a.req, s1.a.req);
            || RankLeft(s1) < RankLeft(s)
            || (RankLeft(s1) == RankLeft(s)
                && (|| TWO_32 - b.relativeOffset < TWO_32 - a.relativeOffset
                    || (b.relativeOffset == a.relativeOffset && b.bytesRemaining < a.bytesRemaining)))
  {
    PullIsPart(c, s);
    PullIsPart(c, s1);
    RankBound(c, s.a.core, s.h.pull);
    RankBound(c, s1.a.core, s1.h.pull);
    hide Live, IsPart;
  }

  lemma RankBound(c: Config, core: Core, p: Pull)
    requires IsPart(c, core, p)
    ensures Rank(p) <= 3 * TWO_16 + 4
  {
    hide PayloadHeaderOf, From, To;
  }

  /**
   From every state of a fair run in which a chunk of a good image is awaited, and the
   payloads before it are counted, the answers bring the transfer to its end.
   */
  lemma {:induction false} AnswersComplete(c: Config, past: seq<Event>) returns (more: seq<Event>)
    requires c.Valid() && FairRun(c, past)
    requires var s := Run(c, past); Live(c, s) && Awaiting(s) && OnTrack(c, s) && GoodImage(c, s.a.core)
    ensures FairRun(c, past + more) && AllAnswers(c, past, more)
    ensures Run(c, past + more).a.core == Run(c, past).a.core && Ends(c, Run(c, past), Run(c, past + more))
    decreases RankLeft(Run(c, past)), TWO_32 - Run(c, past).a.req.relativeOffset, Run(c, past).a.req.bytesRemaining
  {
    var s := Run(c, past);
    hide Run, Live, Awaiting, OnTrack, GoodImage, Later, Ends, Fair, FairRun, Truthful, AllAnswers, Answer, Step;
    NotEmpty(s);
    AnswerLeadsOn(c, s);
    AnswerHonest(c, s);
    HonestIsFair(c, s, |s.h.log| - 1, Answer(c, s).bytes);
    var e := Answer(c, s);
    var s1 := Step(c, s, e);
    RunOne(c, past, e);
    FairOne(c, past, e);
    if Ends(c, s, s1) {
      more := [e];
      NoMoreAnswers(c, past + [e]);
      FirstAnswer(c, past, e, []);
      assert [e] + [] == [e];
    } else {
      LaterIsSmaller(c, s, s1) by { NotEmpty(s1); }
      var rest := AnswersComplete(c, past + [e]);
      more := [e] + rest;
      FirstAnswer(c, past, e, rest);
      assert past + more == (past + [e]) + rest;
      SameEnd(c, s, s1, Run(c, past + more));
    }
  }

  lemma NotEmpty(s: State)
    requires Awaiting(s)
    ensures s.h.log != [] && s.h.pull.Pull?
  {
  }

  lemma NoMoreAnswers(c: Config, past: seq<Event>)
    ensures AllAnswers(c, past, [])
  {
  }

  lemma SameEnd(c: Config, s: State, s1: State, s2: State)
    requires s1.a.core == s.a.core && Ends(c, s1, s2)
    ensures Ends(c, s, s2)
  {
  }

  /**
   A controller that offers a good image and answers every message for it in full
   brings it to STAGED, with exactly the wanted payloads written and counted, in their
   order; an image without any of them fails.
   */
  lemma GoodImageIsStaged(c: Config, core: Core) returns (more: seq<Event>)
    requires c.Valid() && GoodImage(c, core)
    ensures var start := [Connect, Offer(core, true, ALL_OK)];
            var s := Run(c, start + more);
            && FairRun(c, start + more) && AllAnswers(c, start, more)
            && s.a.core == core && s.h.verified == WantedBefore(c, core, core.numPayloads)
            && s.f.state == if exists i: nat :: i < core.numPayloads && IsWanted(c, core, i) then Staged else Failed
  {
    var start := [Connect, Offer(core, true, ALL_OK)];
    var s := Run(c, start);
    assert FairRun(c, start) && s == Step(c, Step(c, Init(c), Connect), Offer(core, true, ALL_OK)) by {
      assert start[..1] == [Connect] && start[..0] == [] && [Connect][..0] == [];
      hide Step;
    }
    NewOfferStarts(c, Step(c, Init(c), Connect), core, ALL_OK);
    assert Awaiting(s) && OnTrack(c, s) && HasAsset(s) && s.a.core == core by {
      hide Run, WantedBefore;
    }
    hide Run, Awaiting, OnTrack, GoodImage, Step, FairRun, AllAnswers, Live;
    RunKeepsInv(c, start);
    more := AnswersComplete(c, start);
    SomeWanted(c, core, core.numPayloads);
    hide WantedBefore, IsWanted;
  }
}
