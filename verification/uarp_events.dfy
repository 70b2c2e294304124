/** Offers, connections and whole runs keep the invariant. */
module UarpEvents {
  import opened Bytes
  import opened UarpImage
  import opened Uarp
  import opened UarpInvariant
  import opened UarpSteps
  import opened UarpResponses

  // ----- Offers --------------------------------------------------------------------

  lemma NewAssetRight(c: Config, s: State)
    requires s.connected && s.h.log == [] && s.h.delivered == [] && s.h.completions == 0 && s.h.past == []
    requires s.h.pull == NoPull && s.h.last == NoPull
    requires s.a == NewAsset(c, s.a.core) && s.f.state.Active?
    ensures Idle(c, s) && !s.a.hasHeader
  {
    hide SbHeaderOf, PayloadHeaderOf, Slice;
  }

  /** What is left to do when a request decides whether the asset is taken on. */
  lemma TakenOn(c: Config, s: State, kind: Kind, s1: State, ok: bool)
    requires Requested(c, s, kind, s1, ok) && s.f.state.Active? && s.a.attached
    requires ok ==> Healthy(c, s1)
    ensures ok ==> Live(c, s1)
  {
    hide Base, PullRight, Healthy;
  }

  lemma AdoptRight(c: Config, s: State, core: Core, env: Env)
    requires c.Valid() && s.connected
    ensures Inv(c, Adopt(c, s, core, env))
  {
    var s0 := InState(s.(a := NewAsset(c, core), h := NewHistory(s.h)), Active);
    NewAssetRight(c, s0);
    var (s1, ok) := RequestData(c, s0, SbHeaderKind, 0, SB_HEADER_LEN, env);
    hide Base, RequestData, Config.Valid, PullRight;
    RequestDataRight(c, s0, SbHeaderKind, 0, SB_HEADER_LEN, env);
    TakenOn(c, s0, SbHeaderKind, s1, ok);
  }

  /** The orphaned asset after the merge, active again. */
  function Merged(s: State): State {
    InState(Merge(s), Active)
  }

  lemma MergedRight(c: Config, s: State)
    requires Live(c, s) && s.f.state.Orphaned? && s.connected
    ensures var s1 := Merged(s);
            && Base(c, s1) && Working(s1) && !s1.a.req.outstanding && Resumable(s1) && Healthy(c, s1)
            && PullRight(c, s1.a, s1.h.pull, s1.f.busy)
  {
    var s1 := Merged(s);
    LiveParts(c, s);
    HealthyFrame(c, s, s1);
    hide Base, PullRight, Healthy, Live;
    BaseFrame(c, s, s1);
    if s.h.pull.Pull? {
      PullFrame(c, s.a, s1.a, s.h.pull, s.f.busy);
    } else {
      NoPullFrame(c, s.a, s1.a, s.f.busy);
    }
  }

  lemma NoPullFrame(c: Config, a: Asset, a1: Asset, busy: bool)
    requires PullRight(c, a, NoPull, busy) && a1.req.bytesRemaining == a.req.bytesRemaining
    requires a1.req.outstanding ==> a.req.outstanding
    ensures PullRight(c, a1, NoPull, busy)
  {
  }

  lemma HealthyFrame(c: Config, s: State, s1: State)
    requires s1.h == s.h && s1.f == s.f.(state := s1.f.state)
    requires s1.a == s.a.(attached := s1.a.attached, req := s1.a.req)
    ensures Healthy(c, s1) == Healthy(c, s)
  {
    hide HashOf, FlagsOf;
  }

  /** An asset orphaned in a pull of its payload's bytes goes on with its window. */
  lemma ResumePayload(c: Config, s: State, env: Env)
    requires c.Valid() && Base(c, s) && s.f.state.Active? && s.a.attached && !s.a.req.outstanding
    requires Interrupted(c, s, PayloadDataKind) && Healthy(c, s)
    ensures var (s1, ok) := PayloadRequestData(c, s, env); ok ==> Live(c, s1)
  {
    var (s1, ok) := PayloadRequestData(c, s, env);
    hide Base, Slice, HashOf, FlagsOf, WindowLen, Region, PayloadRequestData;
    PayloadRequestDataRight(c, s, env);
    TakenOn(c, s, PayloadDataKind, s1, ok);
  }

  lemma ResumeHeader(c: Config, s: State, env: Env)
    requires c.Valid() && Base(c, s) && s.f.state.Active? && s.a.attached && !s.a.req.outstanding && !s.a.hasHeader
    requires Quiet(s) || Interrupted(c, s, SbHeaderKind)
    ensures var (s1, ok) := RequestData(c, s, SbHeaderKind, 0, SB_HEADER_LEN, env); ok ==> Live(c, s1)
  {
    var (s1, ok) := RequestData(c, s, SbHeaderKind, 0, SB_HEADER_LEN, env);
    hide Base, RequestData, PullRight, Config.Valid;
    RequestDataRight(c, s, SbHeaderKind, 0, SB_HEADER_LEN, env);
    TakenOn(c, s, SbHeaderKind, s1, ok);
  }

  lemma ResumeMetadata(c: Config, s: State, env: Env)
    requires c.Valid() && Base(c, s) && s.f.state.Active? && s.a.attached && !s.a.req.outstanding
    requires s.a.hasHeader && s.a.selected == -1 && s.a.ShouldRequestMetadata()
    requires Quiet(s) || Interrupted(c, s, SbMetadataKind)
    ensures var (s1, ok) := RequestData(c, s, SbMetadataKind, 0, s.a.sb.metadataLength, env); ok ==> Live(c, s1)
  {
    var (s1, ok) := RequestData(c, s, SbMetadataKind, 0, s.a.sb.metadataLength, env);
    hide Base, RequestData, PullRight, Config.Valid;
    RequestDataRight(c, s, SbMetadataKind, 0, s.a.sb.metadataLength, env);
    TakenOn(c, s, SbMetadataKind, s1, ok);
  }

  /** Where a merged asset stands, by the pull it was left with. */
  lemma MergedCases(c: Config, s: State)
    requires Base(c, s) && Resumable(s) && Healthy(c, s) && !s.a.req.outstanding
    requires PullRight(c, s.a, s.h.pull, s.f.busy)
    ensures s.a.hasPayloadHeader ==> s.a.hasHeader
    ensures !s.a.hasHeader ==> Quiet(s) || Interrupted(c, s, SbHeaderKind)
    ensures s.a.hasHeader && s.a.ShouldRequestMetadata() ==>
              s.a.selected == -1 && (Quiet(s) || Interrupted(c, s, SbMetadataKind))
    ensures s.a.hasHeader && !s.a.ShouldRequestMetadata() && s.a.selected == -1 ==> Quiet(s)
    ensures s.a.selected >= 0 ==>
              && s.a.hasHeader && !s.a.ShouldRequestMetadata() && s.a.hasPayloadHeader
              && if s.a.payload.ShouldRequestMetadata() then s.a.recvd == 0 && Interrupted(c, s, PayloadMetadataKind)
                 else Interrupted(c, s, PayloadDataKind)
  {
    hide Slice, Region, WindowLen, WindowBase, LogRight, Delivery, Tally, PastRight, SbHeaderOf, PayloadHeaderOf,
      HashOf, FlagsOf;
  }

  lemma TakeOnMergedRight(c: Config, s: State, env: Env)
    requires c.Valid() && Live(c, s) && s.f.state.Orphaned? && s.connected
    ensures Inv(c, TakeOn(c, Merge(s), env))
  {
    MergedRight(c, s);
    var s1 := Merged(s);
    MergedCases(c, s1);
    hide Base, Live, PullRight, Interrupted, Healthy, RequestData, PayloadReady, PayloadRequestData,
      AssetMetadataComplete, Config.Valid, Resumable, Merge, InState;
    var a := s1.a;
    if !a.hasHeader {
      ResumeHeader(c, s1, env);
    } else if a.ShouldRequestMetadata() {
      ResumeMetadata(c, s1, env);
    } else if a.selected == -1 {
      AssetMetadataCompleteRight(c, s1, env);
    } else if a.payload.ShouldRequestMetadata() {
      PayloadReadyRight(c, s1, env);
    } else {
      ResumePayload(c, s1, env);
    }
  }

  lemma OfferedRight(c: Config, s: State, core: Core, acceptable: bool, env: Env)
    requires c.Valid() && Inv(c, s) && s.connected
    ensures Inv(c, Offered(c, s, core, acceptable, env))
  {
    hide Live, Adopt, TakeOn, Merge, Config.Valid;
    if acceptable && (s.f.state.NoAsset? || (s.f.state.Orphaned? && s.a.core != core)) {
      AdoptRight(c, s, core, env);
    } else if acceptable && s.f.state.Orphaned? {
      TakeOnMergedRight(c, s, env);
    }
  }

  // ----- The link ------------------------------------------------------------------

  /** The link changes; the asset stays right if it is as the link demands. */
  lemma LinkRight(c: Config, s: State, s1: State)
    requires Live(c, s) && s1.a == s.a.(attached := s1.a.attached) && s1.f == s.f.(state := s1.f.state) && s1.h == s.h
    requires s1.a.attached ==> s1.connected
    requires Phase(c, s1)
    ensures Live(c, s1)
  {
    LiveParts(c, s);
    hide Base, PullRight, Phase;
    BaseFrame(c, s, s1);
    if s.h.pull.Pull? {
      PullFrame(c, s.a, s1.a, s.h.pull, s.f.busy);
    } else {
      NoPullFrame(c, s.a, s1.a, s.f.busy);
    }
  }

  lemma OrphanRight(c: Config, s: State)
    requires Live(c, s) && s.a.attached && (s.f.state.Active? ==> Resumable(s))
    ensures Inv(c, Orphan(s.(connected := false)))
  {
    var s1 := Orphan(s.(connected := false));
    if HasAsset(s1) {
      assert Phase(c, s1) by {
        hide Base, PullRight, HashOf, FlagsOf;
      }
      hide Base, PullRight, Phase;
      LinkRight(c, s, s1);
    }
  }

  lemma ResumeTransfer(c: Config, s: State, env: Env)
    requires c.Valid() && Live(c, s)
    ensures Live(c, Continue(c, s.(allowed := true), env).0)
  {
    var s1 := s.(allowed := true);
    assert Base(c, s1) && Phase(c, s1) by {
      hide PullRight, Headers, LogRight, Delivery, Tally, PastRight, HashOf, FlagsOf;
    }
    hide Base, PullRight, Continue, Config.Valid, HashOf, FlagsOf;
    var n := ContinueRight(c, s1, env);
  }

  // ----- Runs ------------------------------------------------------------------------

  /** Responses are honest, and no asset is orphaned where it cannot be resumed. */
  predicate Fair(c: Config, s: State, e: Event) {
    match e
    case Response(i, bytes, _) => s.connected && HasAsset(s) && s.a.attached ==> Honest(c, s, i, bytes)
    case Disconnect => s.connected && s.f.state.Active? ==> Resumable(s)
    case _ => true
  }

  ghost predicate FairRun(c: Config, events: seq<Event>) {
    forall k :: 0 <= k < |events| ==> Fair(c, Run(c, events[..k]), events[k])
  }

  /** An event that only changes the link flags, or applies a staged asset. */
  lemma LinkEvent(c: Config, s: State, s1: State)
    requires Live(c, s) && s1.a == s.a && s1.h == s.h
    requires s1.f == s.f || (s.f.state.Staged? && s1 == InState(s, Applied))
    requires s1.connected || !s.a.attached
    ensures Live(c, s1)
  {
    hide Base, PullRight, HashOf, FlagsOf;
    LinkRight(c, s, s1);
  }

  lemma StepKeepsInv(c: Config, s: State, e: Event)
    requires c.Valid() && Inv(c, s) && Fair(c, s, e)
    ensures Inv(c, Step(c, s, e))
  {
    if HasAsset(s) {
      NotAttached(c, s);
    }
    hide Live, DataResponse, Offered, Orphan, Continue, Config.Valid, Honest, Resumable;
    match e
    case Connect => if HasAsset(s) && !s.connected { LinkEvent(c, s, s.(connected := true, allowed := true)); }
    case Disconnect =>
      if s.connected && HasAsset(s) {
        if s.a.attached { OrphanRight(c, s); } else { LinkEvent(c, s, s.(connected := false)); }
      }
    case Offer(core, acceptable, env) => if s.connected { OfferedRight(c, s, core, acceptable, env); }
    case Response(i, bytes, env) =>
      if s.connected && HasAsset(s) && s.a.attached { DataResponseRight(c, s, i, bytes, env); }
    case Pause => if HasAsset(s) && s.connected { LinkEvent(c, s, s.(allowed := false)); }
    case Resume(env) =>
      if s.connected && HasAsset(s) {
        if s.a.attached { ResumeTransfer(c, s, env); } else { LinkEvent(c, s, s.(allowed := true)); }
      }
    case Rescind =>
    case Apply => if s.connected && s.f.state.Staged? { LinkEvent(c, s, InState(s, Applied)); }
  }

  lemma NotAttached(c: Config, s: State)
    requires Live(c, s)
    ensures s.a.attached ==> s.connected
  {
    hide Headers, LogRight, Delivery, Tally, PastRight;
  }

  lemma FairPrefix(c: Config, events: seq<Event>)
    requires FairRun(c, events) && events != []
    ensures FairRun(c, events[..|events| - 1])
    ensures Fair(c, Run(c, events[..|events| - 1]), events[|events| - 1])
  {
    hide Fair, Run;
    var past := events[..|events| - 1];
    forall k | 0 <= k < |past| ensures Fair(c, Run(c, past[..k]), past[k]) {
      assert past[..k] == events[..k];
    }
  }

  lemma {:induction false} RunKeepsInv(c: Config, events: seq<Event>)
    requires c.Valid() && FairRun(c, events)
    ensures Inv(c, Run(c, events))
  {
    hide Inv, Fair, Step, Config.Valid, FairRun;
    if events == [] {
      InitRight(c);
    } else {
      var past := events[..|events| - 1];
      FairPrefix(c, events);
      RunKeepsInv(c, past);
      StepKeepsInv(c, Run(c, past), events[|events| - 1]);
    }
  }

  lemma InitRight(c: Config)
    ensures Inv(c, Init(c))
  {
  }
}
