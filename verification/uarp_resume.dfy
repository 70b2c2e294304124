/** Where an asset that lost its controller can be resumed by an equal offer, exactly. */
module UarpResume {
  import opened Bytes
  import opened UarpImage
  import opened Uarp
  import opened UarpInvariant
  import opened UarpSteps
  import opened UarpResponses
  import opened UarpEvents

  /** An orphaned asset, wherever its link was lost. */
  predicate Lost(c: Config, s: State) {
    && s.f.state.Orphaned? && !s.a.attached
    && Base(c, s) && PullRight(c, s.a, s.h.pull, s.f.busy) && Healthy(c, s)
  }

  /** Whatever an active asset does when its link is lost, it becomes a lost one. */
  lemma LostAnywhere(c: Config, events: seq<Event>)
    requires c.Valid() && FairRun(c, events) && Run(c, events).f.state.Active?
    ensures Lost(c, Step(c, Run(c, events), Disconnect))
    ensures Lost(c, Step(c, Step(c, Run(c, events), Disconnect), Connect))
  {
    RunKeepsInv(c, events);
    hide Run, Config.Valid, FairRun;
    var s := Run(c, events);
    LiveParts(c, s);
    NotAttached(c, s);
    var s1 := Step(c, s, Disconnect);
    LostFrame(c, s, s1);
    LostFrame(c, s, Step(c, s1, Connect));
  }

  lemma LostFrame(c: Config, s: State, s1: State)
    requires Base(c, s) && PullRight(c, s.a, s.h.pull, s.f.busy) && Healthy(c, s)
    requires s1.a == s.a.(attached := false) && s1.h == s.h && s1.f == s.f.(state := Orphaned)
    ensures Lost(c, s1)
  {
    HealthyFrame(c, s, s1);
    hide Base, PullRight, Healthy;
    BaseFrame(c, s, s1);
    if s.h.pull.Pull? {
      PullFrame(c, s.a, s1.a, s.h.pull, s.f.busy);
    } else {
      NoPullFrame(c, s.a, s1.a, s.f.busy);
    }
  }

  /**
   The asset can be resumed where it was; or the merge asks for nothing and releases
   the asset; or its corrupt metadata was followed by nothing that disturbs the payload.
   */
  predicate CanResume(s: State, env: Env) {
    || Resumable(s)
    || s.a.payload.hdr.length == 0
    || (s.allowed && !env.txOk)
    || (s.a.hasPayloadHeader && s.f.busy && s.h.written == [])
  }

  /** The request that the merge of an asset that is not Resumable ends in. */
  lemma MergeAsksForPayload(c: Config, s: State, env: Env)
    requires c.Valid() && Lost(c, s) && s.connected && !Resumable(s)
    ensures s.a.recvd == 0 && s.a.selected >= 0 && !s.a.payload.ShouldRequestMetadata()
    ensures Step(c, s, Offer(s.a.core, true, env)) ==
            var (s1, ok) := PayloadRequestData(c, Merged(s), env);
            if ok then s1 else s1.(f := s1.f.(state := NoAsset), h := s1.h.(pull := NoPull))
  {
    LostPlace(c, s);
    hide Base, PullRight, Healthy, RequestData, PayloadRequestData, AssetMetadataComplete, PayloadReady, Config.Valid;
  }

  lemma LostPlace(c: Config, s: State)
    requires Lost(c, s) && !Resumable(s)
    ensures s.a.recvd == 0 && s.a.selected >= 0 && !s.a.payload.ShouldRequestMetadata()
    ensures s.a.hasHeader && !s.a.ShouldRequestMetadata()
    ensures s.a.hasPayloadHeader ==>
              s.h.pull.NoPull? && Stuck(c, s) && s.h.delivered == [] && s.a.req.bytesRemaining == 0
                  && !s.a.req.outstanding
  {
    hide LogRight, Tally, PastRight, SbHeaderOf, PayloadHeaderOf, Region, WindowLen, WindowBase, HashOf, FlagsOf;
  }

  /** The request for payload bytes: rejected for a length of 0, else made and perhaps not sent. */
  lemma PayloadAskedFor(c: Config, s: State, env: Env)
    requires c.Valid() && !s.a.req.outstanding && s.a.recvd == 0
    ensures var (s1, ok) := PayloadRequestData(c, s, env);
            && (ok <==> s.a.payload.hdr.length > 0 && !(s.allowed && !env.txOk))
            && (ok ==> s1.h.pull == Pull(PayloadDataKind, s.a.selected) && s1.h.written == s.h.written && s1.f == s.f
                       && s1.a == s.a.(req := s1.a.req))
  {
    var n := Min(s.a.payload.hdr.length, c.window);
    RequestDataIs(c, s, PayloadDataKind, 0, n, env);
    assert Validated(s.a, PayloadDataKind, 0, n) <==> n > 0;
    hide RequestData, Validated;
  }

  /** Payload bytes are pulled right if the header is held and the writer has just been started. */
  lemma PulledRight(c: Config, s: State, env: Env)
    requires c.Valid() && Lost(c, s) && s.connected && !Resumable(s)
    requires s.a.hasPayloadHeader && s.f.busy && s.h.written == [] && s.a.payload.hdr.length > 0
    ensures var (s1, ok) := PayloadRequestData(c, Merged(s), env);
            ok ==> Live(c, s1)
  {
    LostPlace(c, s);
    var s1 := Merged(s);
    hide HashOf, FlagsOf;
    assert Fed(c, s1) && Expected(c, s1.a, PayloadDataKind) && WindowBase(s1.a, PayloadDataKind) == s1.a.recvd;
    hide Base, PullRight, Healthy, WindowLen, WindowBase, Config.Valid, Fed, Expected, Stuck, PayloadRequestData;
    BaseFrame(c, s, s1);
    PayloadRequestDataRight(c, s1, env);
    var (s2, ok) := PayloadRequestData(c, s1, env);
    TakenOn(c, s1, PayloadDataKind, s2, ok);
  }

  /** What a right pull of payload bytes needs. */
  lemma PulledWrong(c: Config, s1: State)
    requires Live(c, s1) && s1.f.state.Active? && s1.h.pull.Pull? && s1.h.pull.kind.PayloadDataKind?
    requires s1.f.hashed == []
    ensures s1.a.hasPayloadHeader && s1.f.busy && s1.h.written == []
  {
    hide Base, HashOf, FlagsOf, Slice, Region, WindowLen, WindowBase;
  }

  lemma PulledUnheld(c: Config, s1: State)
    requires Live(c, s1) && s1.h.pull.Pull? && s1.h.pull.kind.PayloadDataKind?
    ensures s1.a.hasPayloadHeader
  {
    hide Base, HashOf, FlagsOf, Slice, Region, WindowLen, WindowBase, Phase;
  }

  /**
   From every state in which a link can be lost: an equal offer resumes the asset
   right, or releases it, if and only if CanResume holds.
   */
  lemma ResumesRightIff(c: Config, s: State, env: Env)
    requires c.Valid() && Lost(c, s) && s.connected
    ensures Inv(c, Step(c, s, Offer(s.a.core, true, env))) <==> CanResume(s, env)
  {
    if Resumable(s) {
      hide Base, PullRight, Healthy, Config.Valid;
      StepKeepsInv(c, s, Offer(s.a.core, true, env));
    } else {
      MergeAsksForPayload(c, s, env);
      LostPlace(c, s);
      var s1 := Merged(s);
      PayloadAskedFor(c, s1, env);
      var (s2, ok) := PayloadRequestData(c, s1, env);
      hide Base, PullRight, Healthy, Config.Valid, PayloadRequestData, Step, Live, HashOf, FlagsOf;
      if ok {
        if s.a.hasPayloadHeader && s.f.busy && s.h.written == [] {
          PulledRight(c, s, env);
        } else if Live(c, s2) {
          PulledUnheld(c, s2);
          PulledWrong(c, s2);
          assert false;
        }
      }
    }
  }
}
