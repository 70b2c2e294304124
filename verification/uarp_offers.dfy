/** What offers, lost links and pauses lead to. */
module UarpOffers {
  import opened Bytes
  import opened UarpImage
  import opened Uarp
  import opened UarpInvariant
  import opened UarpSteps
  import opened UarpResponses
  import opened UarpEvents
  import opened UarpPlan

  // ----- New assets -------------------------------------------------------------------

  /**
   A new asset is taken on, whatever the accessory did before: nothing of it is held,
   delivered or counted, and its SuperBinary header is asked for from its first byte.
   If that cannot be sent the asset is released again; without leave to transfer the
   request is pending.
   */
  lemma NewOfferStarts(c: Config, s: State, core: Core, env: Env)
    requires c.Valid() && s.connected
    requires s.f.state.NoAsset? || (s.f.state.Orphaned? && s.a.core != core)
    ensures var s1 := Step(c, s, Offer(core, true, env));
            var first := Entry(Pull(SbHeaderKind, -1), 0, 0, Min(SB_HEADER_LEN, Min(c.maxRx, 0xFFFF)));
            && s1.a.core == core && s1.a.attached && s1.connected && s1.allowed == s.allowed
            && !s1.a.hasHeader && s1.a.selected == -1 && s1.a.recvd == 0
            && s1.h.delivered == [] && s1.h.past == [] && s1.h.verified == [] && s1.h.completions == 0
            && (if s.allowed && !env.txOk then s1.f.state.NoAsset? && s1.h.log == []
                else
                  && s1.f.state.Active? && s1.h.pull == Pull(SbHeaderKind, -1)
                  && s1.a.req.bytesRemaining == SB_HEADER_LEN && s1.a.req.currentOffset == 0
                  && s1.h.log == if s.allowed then [first] else [])
  {
    var s0 := InState(s.(a := NewAsset(c, core), h := NewHistory(s.h)), Active);
    assert Validated(s0.a, SbHeaderKind, 0, SB_HEADER_LEN);
    RequestIs(c, s0, SbHeaderKind, 0, SB_HEADER_LEN, env);
    hide RequestData, Validated;
  }

  /** An offer changes nothing if it is not acceptable, or while there is an asset with its controller. */
  lemma OfferIgnored(c: Config, s: State, core: Core, acceptable: bool, env: Env)
    requires !s.connected || !acceptable || !(s.f.state.NoAsset? || s.f.state.Orphaned?)
    ensures Step(c, s, Offer(core, acceptable, env)) == s
  {
  }

  // ----- Assets that lost their controller ----------------------------------------------

  /** Nothing that was delivered, counted or received is lost. */
  predicate Kept(s: State, s1: State) {
    && s1.h.delivered == s.h.delivered && s1.h.completions == s.h.completions && s1.h.past == s.h.past
    && s1.h.verified == s.h.verified && s1.f.staged == s.f.staged
    && s1.a == s.a.(attached := true, req := s1.a.req)
  }

  /** The window that was interrupted. */
  function Interruption(c: Config, s: State): Next
    requires s.h.pull.Pull?
  {
    Ask(s.h.pull, WindowBase(s.a, s.h.pull.kind), WindowLen(c, s.a, s.h.pull.kind))
  }

  /** The interrupted window is requested again, by the merge or by the payload's callback. */
  lemma InterruptedAsked(c: Config, s: State, s0: State, env: Env)
    requires c.Valid() && Base(c, s0) && !s0.a.req.outstanding && s0.h.pull.Pull?
    requires Interrupted(c, s0, s0.h.pull.kind) && s0.f.state.Active?
    requires s0.h == s.h && s0.allowed == s.allowed && s0.a == s.a.(attached := true, req := s0.a.req)
    ensures var kind := s0.h.pull.kind;
            var (s1, ok) := RequestData(c, s0, kind, WindowBase(s0.a, kind), WindowLen(c, s0.a, kind), env);
            && ok == (!s.allowed || env.txOk) && s1.f == s0.f
            && (ok ==> Asks(c, s, Interruption(c, s), env, s1))
            && s1.h == s.h.(pull := s1.h.pull, log := s1.h.log) && s1.a == s.a.(attached := true, req := s1.a.req)
  {
    var kind := s0.h.pull.kind;
    var rel, needed := WindowBase(s0.a, kind), WindowLen(c, s0.a, kind);
    assert MayRequest(c, s0, kind, rel, needed) by {
      hide Base, Slice, Region, WindowLen, WindowBase, Expected;
    }
    InterruptedValid(c, s0, kind, rel, needed);
    WindowFits(c, s0, kind, rel, needed);
    RequestIs(c, s0, kind, rel, needed, env);
    RegionRight(c, s0.a, s0.h.pull);
    AssetFrame(c, s.a, s0.a, kind);
    hide Base, PullRight, Slice, Region, WindowLen, WindowBase, Expected, StartOf, Validated, RequestData, MostBytes;
  }

  /** Hash and flags are as before any metadata of the payload. */
  function Unhashed(s: State): State {
    s.(f := s.f.(applyFlags := APPLY_FLAGS_NEEDS_RESTART, hashed := [], payloadHash := NoHash()))
  }

  /** What accepting a merged asset asks for. */
  lemma MergeAccepts(c: Config, s: State, env: Env)
    requires Base(c, s) && Resumable(s) && Healthy(c, s) && !s.a.req.outstanding && s.h.pull.Pull?
    requires PullRight(c, s.a, s.h.pull, s.f.busy) && s.f.state.Active?
    ensures var kind := s.h.pull.kind;
            var rel, needed := WindowBase(s.a, kind), WindowLen(c, s.a, kind);
            AssetAccept(c, s, env) ==
            if kind.PayloadMetadataKind? then
              (OrFailure(RequestData(c, Unhashed(s), kind, rel, needed, env)), true)
            else RequestData(c, s, kind, rel, needed, env)
  {
    MergedCases(c, s);
    hide Slice, Region, LogRight, Delivery, Tally, PastRight, SbHeaderOf, PayloadHeaderOf, HashOf, FlagsOf, RequestData,
      OrFailure, NoHash, ChunksRight, WholeWindows;
  }

  lemma UnhashedRight(c: Config, s: State)
    requires Base(c, s) && s.h.pull.Pull? && Interrupted(c, s, s.h.pull.kind)
    ensures Base(c, Unhashed(s)) && Interrupted(c, Unhashed(s), s.h.pull.kind)
  {
    hide Base, PullRight;
    BaseFrame(c, s, Unhashed(s));
  }

  /**
   An equal offer resumes an asset that lost its controller in a pull: the interrupted
   window is asked for again from its first byte, and nothing delivered is lost. If
   that cannot be sent the asset is released, or has failed in the pull of metadata.
   */
  lemma EqualOfferAsksAgain(c: Config, s: State, env: Env)
    requires c.Valid() && Live(c, s) && s.f.state.Orphaned? && s.connected && s.h.pull.Pull?
    ensures var s1 := Step(c, s, Offer(s.a.core, true, env));
            && Kept(s, s1)
            && if s.allowed && !env.txOk then
                 s1.f.state == if s.h.pull.kind.PayloadMetadataKind? then Failed else NoAsset
               else s1.f.state.Active? && Asks(c, s, Interruption(c, s), env, s1)
  {
    MergedRight(c, s);
    var s0 := Merged(s);
    assert Step(c, s, Offer(s.a.core, true, env)) == TakeOn(c, Merge(s), env) by {
      hide TakeOn, Live, Merge;
    }
    assert s0.h == s.h && s0.allowed == s.allowed && s0.a == s.a.(attached := true, req := s0.a.req)
      && s0.f.staged == s.f.staged && s0.f.state.Active? && s0.a.core == s.a.core;
    assert s.h.pull.index == s.a.selected by {
      PullFields(c, s);
      hide Live;
    }
    hide Live, Base, PullRight, Healthy, Resumable, AssetAccept, Step, RequestData, Merge, InState, Asks, Interruption,
      WindowBase, WindowLen, NoHash;
    MergeAccepts(c, s0, env);
    InterruptedAsked(c, s, s0, env);
    if s.h.pull.kind.PayloadMetadataKind? {
      UnhashedRight(c, s0);
      InterruptedAsked(c, s, Unhashed(s0), env);
    }
  }

  /** What an asset without a payload asks for next. */
  function Onward(c: Config, a: Asset): Next {
    var image := c.images(a.core);
    if !a.hasHeader then Ask(Pull(SbHeaderKind, -1), 0, SB_HEADER_LEN)
    else if a.ShouldRequestMetadata() then AskMetadata(c, Pull(SbMetadataKind, -1), SbHeaderOf(image).metadataLength)
    else AskHeader(a.core, image, 0)
  }

  /** An equal offer to an asset that lost its controller between two pulls goes on behind what is held. */
  lemma EqualOfferGoesOn(c: Config, s: State, env: Env)
    requires c.Valid() && Live(c, s) && s.f.state.Orphaned? && s.connected && s.h.pull.NoPull?
    requires Onward(c, s.a).Ask? && (s.allowed ==> env.txOk)
    ensures var s1 := Step(c, s, Offer(s.a.core, true, env));
            s1.a.core == s.a.core && Asks(c, s, Onward(c, s.a), env, s1)
  {
    MergedRight(c, s);
    var s0 := Merged(s);
    MergedCases(c, s0);
    assert Step(c, s, Offer(s.a.core, true, env)) == TakeOn(c, Merge(s), env) by {
      hide TakeOn, Live, Merge;
    }
    LostBetween(c, s);
    assert Ready(s, s0) && s0.a.selected == -1 && s0.a.sb == s.a.sb && s0.a.core == s.a.core
      && Region(s0.a, SbMetadataKind) == (s.a.sb.metadataOffset, s.a.sb.metadataLength);
    assert Validated(s0.a, SbHeaderKind, 0, SB_HEADER_LEN);
    var image := c.images(s.a.core);
    hide Live, Base, PullRight, Healthy, Resumable, Step, RequestData, Merge, Asks, SetPayloadIndex, AskHeader,
      SbHeaderOf, Region, Validated, AssetMetadataComplete;
    if !s.a.hasHeader {
      RequestFollows(c, s, s0, SbHeaderKind, 0, SB_HEADER_LEN, env);
    } else if s.a.ShouldRequestMetadata() {
      MetadataAsked(c, s, s0, SbMetadataKind, s.a.sb.metadataLength, env);
    } else {
      MetadataCompleteFollows(c, s, s0, env);
    }
  }

  lemma LostBetween(c: Config, s: State)
    requires Live(c, s) && s.f.state.Orphaned? && s.h.pull.NoPull?
    ensures s.a.selected == -1 && !s.a.hasPayloadHeader
    ensures s.a.hasHeader ==>
              s.a.sb == SbHeaderOf(c.images(s.a.core)) && (s.a.needsMetadata <==> s.a.sb.metadataLength > 0)
    ensures !s.a.hasHeader ==> !s.a.needsMetadata
  {
    hide LogRight, Delivery, Tally, PastRight, SbHeaderOf, PayloadHeaderOf, HashOf, FlagsOf;
  }

  // ----- Links ---------------------------------------------------------------------------

  /**
   A lost link orphans an active asset, which stays as it is; a staged or failed one is
   removed, and an applied one only loses its controller.
   */
  lemma LostLink(c: Config, s: State)
    requires s.connected && s.a.attached
    ensures var s1 := Step(c, s, Disconnect);
            && !s1.connected && s1.allowed == s.allowed && s1.h.log == s.h.log && s1.h.delivered == s.h.delivered
            && s1.f.staged == s.f.staged && s1.f.hashed == s.f.hashed
            && (HasAsset(s) ==> s1.a == s.a.(attached := false))
            && s1.f.state == match s.f.state
                             case Active => Orphaned
                             case Orphaned => Orphaned
                             case Applied => Applied
                             case _ => NoAsset
  {
  }

  /**
   A transfer that is resumed asks for the chunk that is due, if there is one; a pause
   stops requests and nothing else.
   */
  lemma ResumedAsksFor(c: Config, s: State, env: Env)
    requires c.Valid() && Live(c, s) && s.connected && s.a.attached && !s.allowed
    ensures var s1 := Step(c, s, Resume(env));
            var e := Entry(s.h.pull, s.a.req.relativeOffset + s.a.req.bytesResponded, s.a.req.currentOffset,
                           Min(s.a.req.bytesRemaining, MostBytes(c)));
            && s1.allowed && s1.h.pull == s.h.pull && s1.f == s.f && s1.h.delivered == s.h.delivered
            && s1.h.log == if s.h.pull.Pull? && env.txOk then s.h.log + [e] else s.h.log
    ensures Step(c, s.(allowed := true), Pause) == s
  {
    LiveParts(c, s);
    hide Base, Slice, Phase, Region, WindowLen, WindowBase, Expected, Live;
  }

  /** An asset is removed when its controller rescinds it, and applied only when it is staged. */
  lemma RescindAndApply(c: Config, s: State)
    requires s.connected && HasAsset(s) && s.a.attached
    ensures Step(c, s, Rescind).f == s.f.(state := NoAsset, busy := false)
    ensures Step(c, s, Apply).f.state == if s.f.state.Staged? then Applied else s.f.state
    ensures Step(c, s, Rescind).a == s.a == Step(c, s, Apply).a
  {
  }
}
