/**
 Late responses. The code accepts a response by its offset alone; for which layouts
 of the SuperBinary this is safe, and what happens otherwise.
 */
module UarpLayout {
  import opened Bytes
  import opened UarpImage
  import opened Uarp
  import opened UarpInvariant
  import opened UarpSteps
  import opened UarpResponses
  import opened UarpEvents
  import opened UarpOrder

  // ----- Layouts ---------------------------------------------------------------------

  /**
   The parts of the image do not wrap around and do not overlap, and none of them
   begins where a part ends that is pulled later and may be the last one.
   */
  ghost predicate LaidOut(c: Config, core: Core) {
    var image := c.images(core);
    && (forall p :: IsPart(c, core, p) ==> To(image, p) < TWO_32)
    && (forall p, q :: IsPart(c, core, p) && IsPart(c, core, q) && p != q ==> Apart(image, p, q))
    && (forall p, q :: IsPart(c, core, p) && IsPart(c, core, q) && Rank(p) < Rank(q) && MayBeLast(c, core, q) ==>
                         From(image, p) != To(image, q))
  }

  // ----- Layouts for which late responses are harmless -------------------------------

  /** A message in the log lies in its part. */
  lemma EntryInPart(c: Config, s: State, i: nat)
    requires Live(c, s) && i < |s.h.log| && s.h.log[i].pull.Pull? && To(ImageOf(c, s.a), s.h.log[i].pull) < TWO_32
    ensures var e := s.h.log[i];
            From(ImageOf(c, s.a), e.pull) <= e.offset < To(ImageOf(c, s.a), e.pull)
  {
    LiveParts(c, s);
    hide SbHeaderOf, PayloadHeaderOf, StartOf, BoundsOf, Slice, Headers, Delivery, Tally, PastRight, PullRight, Phase,
      InOneWindow;
    assert EntryRight(c, s.a, s.h.log[i]);
  }

  lemma RankTellsApart(c: Config, core: Core, p: Pull, q: Pull)
    requires MayBePulled(c, core, p) && MayBePulled(c, core, q) && p != q
    ensures Rank(p) != Rank(q)
  {
    hide PayloadHeaderOf;
  }

  /** After a pull no message before it asks for what follows the part. */
  lemma EarlierPartMisses(c: Config, s: State, i: nat)
    requires Live(c, s) && Ordered(c, s) && HasAsset(s) && LaidOut(c, s.a.core) && s.h.pull.NoPull? && i < |s.h.log|
    ensures s.h.log[i].offset != s.a.req.currentOffset
  {
    var core, image, p, q := s.a.core, ImageOf(c, s.a), s.h.log[i].pull, s.h.last;
    hide *;
    LastAwaits(c, s, i);
    ImageIs(c, s.a);
    LayoutOf(c, core, p, q);
    EntryInPart(c, s, i);
  }

  lemma ImageIs(c: Config, a: Asset)
    ensures ImageOf(c, a) == c.images(a.core)
  {
  }

  /** What the layout says of an earlier and a later part, or of one. */
  lemma LayoutOf(c: Config, core: Core, p: Pull, q: Pull)
    requires LaidOut(c, core) && IsPart(c, core, p) && IsPart(c, core, q) && Rank(p) <= Rank(q)
    requires MayBeLast(c, core, q)
    ensures p.Pull? && q.Pull? && To(c.images(core), p) < TWO_32
    ensures Wrapped(To(c.images(core), q)) == To(c.images(core), q)
    ensures !(From(c.images(core), p) <= To(c.images(core), q) < To(c.images(core), p))
  {
    PartOf(c, core, p);
    PartOf(c, core, q);
    if p != q {
      RankTellsApart(c, core, p, q);
    }
    hide IsPart, MayBePulled, MayBeLast, Rank, From, To;
  }

  lemma PartOf(c: Config, core: Core, p: Pull)
    requires IsPart(c, core, p)
    ensures p.Pull? && MayBePulled(c, core, p) && From(c.images(core), p) < To(c.images(core), p)
  {
    hide From, To;
  }

  lemma LastAwaits(c: Config, s: State, i: nat)
    requires Ordered(c, s) && HasAsset(s) && s.h.pull.NoPull? && i < |s.h.log|
    ensures IsPart(c, s.a.core, s.h.log[i].pull) && IsPart(c, s.a.core, s.h.last)
    ensures Rank(s.h.log[i].pull) <= Rank(s.h.last) && MayBeLast(c, s.a.core, s.h.last)
    ensures s.a.req.currentOffset == Wrapped(To(ImageOf(c, s.a), s.h.last))
  {
    hide To, From, PayloadHeaderOf, MayBeLast;
    assert IsPart(c, s.a.core, s.h.log[i].pull);
  }

  /** For a laid-out SuperBinary every truthful response is honest. */
  lemma TruthfulIsHonest(c: Config, s: State, i: nat, bytes: seq<byte>)
    requires Live(c, s) && HasAsset(s) && Ordered(c, s) && LaidOut(c, s.a.core) && Truthful(c, s, i, bytes)
    ensures Honest(c, s, i, bytes)
  {
    if s.h.pull.NoPull? {
      hide Live, Ordered, LaidOut;
      EarlierPartMisses(c, s, i);
    } else if s.h.log[i].pull != s.h.pull {
      assert IsPart(c, s.a.core, s.h.log[i].pull);
      hide Live, LogOrdered, MayBePulled, Rank, StartOf, BoundsOf;
      OtherPullMisses(c, s, i);
    }
  }

  /** Responses are truthful, and no asset is orphaned where it cannot be resumed. */
  predicate TruthfulEvent(c: Config, s: State, e: Event) {
    match e
    case Response(i, bytes, _) => s.connected && HasAsset(s) && s.a.attached ==> Truthful(c, s, i, bytes)
    case Disconnect => s.connected && s.f.state.Active? ==> Resumable(s)
    case _ => true
  }

  ghost predicate TruthfulRun(c: Config, events: seq<Event>) {
    forall k :: 0 <= k < |events| ==> TruthfulEvent(c, Run(c, events[..k]), events[k])
  }

  ghost predicate OffersLaidOut(c: Config, events: seq<Event>) {
    forall k :: 0 <= k < |events| && events[k].Offer? ==> LaidOut(c, events[k].core)
  }

  lemma TruthfulPrefix(c: Config, events: seq<Event>)
    requires TruthfulRun(c, events) && OffersLaidOut(c, events) && events != []
    ensures var past := events[..|events| - 1];
            && TruthfulRun(c, past) && OffersLaidOut(c, past)
            && TruthfulEvent(c, Run(c, past), events[|events| - 1])
            && (events[|events| - 1].Offer? ==> LaidOut(c, events[|events| - 1].core))
  {
    hide TruthfulEvent, Run, LaidOut;
    var past := events[..|events| - 1];
    forall k | 0 <= k < |past| ensures TruthfulEvent(c, Run(c, past[..k]), past[k]) {
      assert past[..k] == events[..k];
    }
    forall k | 0 <= k < |past| && past[k].Offer? ensures LaidOut(c, past[k].core) {
      assert past[k] == events[k];
    }
  }

  lemma FairExtends(c: Config, events: seq<Event>)
    requires events != [] && FairRun(c, events[..|events| - 1])
    requires Fair(c, Run(c, events[..|events| - 1]), events[|events| - 1])
    ensures FairRun(c, events)
  {
    hide Fair, Run;
    var past := events[..|events| - 1];
    forall k | 0 <= k < |events| ensures Fair(c, Run(c, events[..k]), events[k]) {
      if k < |past| {
        assert past[..k] == events[..k] && past[k] == events[k];
      }
    }
  }

  lemma TruthfulIsFair(c: Config, s: State, e: Event)
    requires Inv(c, s) && Ordered(c, s) && (HasAsset(s) ==> LaidOut(c, s.a.core)) && TruthfulEvent(c, s, e)
    ensures Fair(c, s, e)
  {
    hide Live, Ordered, LaidOut, Truthful, Honest, Resumable;
    if e.Response? && HasAsset(s) && s.connected && s.a.attached {
      TruthfulIsHonest(c, s, e.i, e.bytes);
    }
  }

  /**
   For SuperBinaries that are laid out, truthful responses are all that is needed: late
   and repeated ones included, every such run is fair, and no response ever leaves the
   scratch buffer.
   */
  lemma {:induction false} LateResponsesAreHarmless(c: Config, events: seq<Event>)
    requires c.Valid() && TruthfulRun(c, events) && OffersLaidOut(c, events)
    ensures FairRun(c, events)
    ensures !Run(c, events).h.overrun
    ensures HasAsset(Run(c, events)) ==> LaidOut(c, Run(c, events).a.core)
  {
    hide Inv, Fair, Step, Config.Valid, TruthfulRun, OffersLaidOut, TruthfulEvent, LaidOut;
    if events == [] {
      assert FairRun(c, events);
    } else {
      hide FairRun;
      var past, e := events[..|events| - 1], events[|events| - 1];
      TruthfulPrefix(c, events);
      LateResponsesAreHarmless(c, past);
      RunKeepsInv(c, past);
      RunKeepsOrdered(c, past);
      TruthfulIsFair(c, Run(c, past), e);
      StepKeepsOrdered(c, Run(c, past), e);
      FairExtends(c, events);
      NeverOverrun(c, events);
    }
  }

  /** Parts that lie in the order in which they are pulled are laid out. */
  lemma PullOrderIsLaidOut(c: Config, core: Core)
    requires forall p :: IsPart(c, core, p) ==> To(c.images(core), p) < TWO_32
    requires forall p, q :: IsPart(c, core, p) && IsPart(c, core, q) && Rank(p) < Rank(q) ==>
                              To(c.images(core), p) <= From(c.images(core), q)
    ensures LaidOut(c, core)
  {
    var image := c.images(core);
    forall p, q | IsPart(c, core, p) && IsPart(c, core, q) && p != q ensures Apart(image, p, q) {
      PartOf(c, core, p);
      PartOf(c, core, q);
      RankTellsApart(c, core, p, q);
      hide IsPart, MayBePulled, Rank, From, To;
    }
    forall p, q | IsPart(c, core, p) && IsPart(c, core, q) && Rank(p) < Rank(q) ensures From(image, p) != To(image, q) {
      PartOf(c, core, p);
      PartOf(c, core, q);
      hide IsPart, MayBePulled, Rank, From, To;
    }
  }

  /**
   The ordinary order in the file: all payload headers together, then metadata and
   bytes of each payload.
   */
  function FileRank(core: Core, p: Pull): int {
    match p
    case NoPull => -1
    case Pull(SbHeaderKind, _) => 0
    case Pull(SbMetadataKind, _) => 1
    case Pull(PayloadHeaderKind, index) => 2 + index
    case Pull(PayloadMetadataKind, index) => 2 + core.numPayloads + 2 * index
    case Pull(PayloadDataKind, index) => 3 + core.numPayloads + 2 * index
  }

  /**
   Parts in the ordinary order are laid out as well if no header may be the last part
   pulled, for example if every payload is wanted and has metadata that fits the window.
   */
  lemma HeadersTogetherIsLaidOut(c: Config, core: Core)
    requires forall p :: IsPart(c, core, p) ==> To(c.images(core), p) < TWO_32
    requires forall p, q :: IsPart(c, core, p) && IsPart(c, core, q) && FileRank(core, p) < FileRank(core, q) ==>
                              To(c.images(core), p) <= From(c.images(core), q)
    requires forall p :: IsPart(c, core, p) && p.kind.PayloadHeaderKind? ==> !MayBeLast(c, core, p)
    ensures LaidOut(c, core)
  {
    var image := c.images(core);
    forall p, q | IsPart(c, core, p) && IsPart(c, core, q) && p != q ensures Apart(image, p, q) {
      PartOf(c, core, p);
      PartOf(c, core, q);
      FileRanks(c, core, p, q);
      hide IsPart, MayBePulled, Rank, FileRank, From, To;
    }
    forall p, q | IsPart(c, core, p) && IsPart(c, core, q) && Rank(p) < Rank(q) && MayBeLast(c, core, q)
      ensures From(image, p) != To(image, q)
    {
      PartOf(c, core, p);
      PartOf(c, core, q);
      FileRanks(c, core, p, q);
      hide IsPart, MayBePulled, Rank, FileRank, From, To, MayBeLast;
    }
  }

  lemma FileRanks(c: Config, core: Core, p: Pull, q: Pull)
    requires MayBePulled(c, core, p) && MayBePulled(c, core, q)
    ensures p != q ==> FileRank(core, p) != FileRank(core, q)
    ensures Rank(p) < Rank(q) && !q.kind.PayloadHeaderKind? ==> FileRank(core, p) < FileRank(core, q)
  {
    hide PayloadHeaderOf;
  }

  // ----- Late responses ----------------------------------------------------------------

  /** The place in the image that the accessory awaits: in its window, or behind its last pull. */
  function AwaitedPlace(c: Config, s: State): nat
    requires s.h.pull.Pull? || s.h.last.Pull?
  {
    var image := ImageOf(c, s.a);
    if s.h.pull.Pull? then
      Wrapped(StartOf(image, s.h.pull) + WindowBase(s.a, s.h.pull.kind) + s.a.req.bytesResponded)
    else Wrapped(To(image, s.h.last))
  }

  lemma AwaitedIs(c: Config, s: State)
    requires Live(c, s) && HasAsset(s) && Ordered(c, s) && (s.h.pull.Pull? || s.h.last.Pull?)
    ensures s.a.req.currentOffset == AwaitedPlace(c, s)
  {
    if s.h.pull.Pull? {
      LiveParts(c, s);
      PullFields(c, s);
      RegionRight(c, s.a, s.h.pull) by {
        hide PullRight, Live, Phase, LogRight, Delivery, Tally, PastRight;
      }
      hide Live, Base, Phase, Ordered, Slice, WindowLen, WindowBase, Expected, StartOf, Region;
    } else {
      hide Live, LogOrdered, IsPart, MayBeLast, To;
    }
  }

  /**
   Which truthful responses the code takes, in every state: message `i` asks for the
   place awaited, and the response is no longer than the whole request. And which of
   them leave the scratch buffer: those that do not fit behind the bytes received. Such
   a response never belongs to the pull in progress.
   */
  lemma LateResponseOverruns(c: Config, s: State, i: nat, bytes: seq<byte>, env: Env)
    requires Live(c, s) && HasAsset(s) && Ordered(c, s) && s.connected && s.a.attached
    requires Truthful(c, s, i, bytes)
    ensures s.h.pull.Pull? || s.h.last.Pull?
    ensures Passes(s.a, s.h.log[i].offset, bytes) <==>
              s.h.log[i].offset == AwaitedPlace(c, s) && |bytes| <= s.a.req.bytesRequested
    ensures !Passes(s.a, s.h.log[i].offset, bytes) ==> Step(c, s, Response(i, bytes, env)) == s
    ensures Step(c, s, Response(i, bytes, env)).h.overrun <==>
              && s.h.log[i].offset == AwaitedPlace(c, s)
              && |bytes| <= s.a.req.bytesRequested
              && s.a.req.bytesResponded + |bytes| > c.window
    ensures Step(c, s, Response(i, bytes, env)).h.overrun ==> s.h.log[i].pull != s.h.pull
  {
    TopIsPull(c, s, i);
    AwaitedIs(c, s);
    TakenOverruns(c, s, s.h.log[i].offset, bytes, env);
    if s.h.log[i].pull == s.h.pull && Passes(s.a, s.h.log[i].offset, bytes) {
      ResponseFits(c, s, i, bytes);
      PullFields(c, s);
    }
    ResponseIs(c, s, i, bytes, env);
    hide Live, Ordered, AwaitedPlace, DataResponse, ImageOf, Step;
  }

  lemma TopIsPull(c: Config, s: State, i: nat)
    requires Ordered(c, s) && HasAsset(s) && i < |s.h.log|
    ensures s.h.pull.Pull? || s.h.last.Pull?
  {
    hide AwaitsEnd;
    assert IsPart(c, s.a.core, s.h.log[i].pull) && Rank(s.h.log[i].pull) <= Rank(Top(s.h));
  }

  /** A response that is taken leaves the scratch buffer if it does not fit; no later step hides it. */
  lemma TakenOverruns(c: Config, s: State, offset: u32, bytes: seq<byte>, env: Env)
    requires Live(c, s) && !s.h.overrun
    ensures DataResponse(c, s, offset, bytes, env).h.overrun <==>
              Passes(s.a, offset, bytes) && s.a.req.bytesResponded + |bytes| > c.window
    ensures !Passes(s.a, offset, bytes) ==> DataResponse(c, s, offset, bytes, env) == s
  {
    assert |s.a.scratch| == c.window by {
      LiveParts(c, s);
      hide LogRight, Delivery, Tally, PastRight, PullRight, Phase, SbHeaderOf, PayloadHeaderOf;
    }
    hide Live;
    if Passes(s.a, offset, bytes) {
      var s1 := Received(s, bytes);
      KeptByPullComplete(c, Finished(s1), env);
      ContinueOverrun(c, s1, env);
      hide PullComplete, Continue, Accept, LogKept;
    }
  }

  lemma ContinueOverrun(c: Config, s: State, env: Env)
    ensures Continue(c, s, env).0.h.overrun == s.h.overrun
  {
  }

  /**
   The layout condition is needed: if the part of a message begins where the last pull
   ended, then the first byte of that part, sent again, is taken for it, and the
   request is wrong from then on.
   */
  lemma LayoutIsNeeded(c: Config, s: State, i: nat, env: Env)
    requires c.Valid() && Live(c, s) && HasAsset(s) && Ordered(c, s) && s.connected && s.a.attached
    requires s.h.pull.NoPull? && s.a.req.bytesRequested == s.a.req.bytesResponded > 0
    requires i < |s.h.log| && s.h.log[i].pull.Pull? && s.h.last.Pull?
    requires var (image, e) := (ImageOf(c, s.a), s.h.log[i]);
             e.at == BoundsOf(image, e.pull).0 && From(image, e.pull) == To(image, s.h.last) < |image|
    ensures var image := ImageOf(c, s.a);
            var at := To(image, s.h.last);
            && Truthful(c, s, i, image[at..at + 1]) && !Honest(c, s, i, image[at..at + 1])
            && !Inv(c, Step(c, s, Response(i, image[at..at + 1], env)))
  {
    var (image, e) := (ImageOf(c, s.a), s.h.log[i]);
    var at := To(image, s.h.last);
    var bytes := image[at..at + 1];
    hide *;
    FirstByteTaken(c, s, i);
    ResponseIs(c, s, i, bytes, env);
    OneByteTooMany(c, s, e.offset, bytes, env);
  }

  lemma FirstByteTaken(c: Config, s: State, i: nat)
    requires c.Valid() && Live(c, s) && HasAsset(s) && Ordered(c, s)
    requires s.h.pull.NoPull? && s.a.req.bytesRequested > 0
    requires i < |s.h.log| && s.h.log[i].pull.Pull? && s.h.last.Pull?
    requires var (image, e) := (ImageOf(c, s.a), s.h.log[i]);
             e.at == BoundsOf(image, e.pull).0 && From(image, e.pull) == To(image, s.h.last) < |image|
    ensures var bytes := ImageOf(c, s.a)[To(ImageOf(c, s.a), s.h.last)..To(ImageOf(c, s.a), s.h.last) + 1];
            && |bytes| == 1 && Truthful(c, s, i, bytes) && !Honest(c, s, i, bytes)
            && Passes(s.a, s.h.log[i].offset, bytes)
  {
    EntryAt(c, s, i);
    AwaitedIs(c, s);
    hide Live, Ordered, From, To, StartOf, BoundsOf;
  }

  lemma ResponseIs(c: Config, s: State, i: nat, bytes: seq<byte>, env: Env)
    requires s.connected && HasAsset(s) && s.a.attached && i < |s.h.log|
    ensures Step(c, s, Response(i, bytes, env)) == DataResponse(c, s, s.h.log[i].offset, bytes, env)
  {
    hide DataResponse;
  }

  lemma EntryAt(c: Config, s: State, i: nat)
    requires c.Valid() && Live(c, s) && i < |s.h.log| && s.h.log[i].pull.Pull?
    requires s.h.log[i].at == BoundsOf(ImageOf(c, s.a), s.h.log[i].pull).0
    requires From(ImageOf(c, s.a), s.h.log[i].pull) < |ImageOf(c, s.a)|
    ensures s.h.log[i].offset == From(ImageOf(c, s.a), s.h.log[i].pull) && s.h.log[i].len > 0
    ensures |ImageOf(c, s.a)| < TWO_32
  {
    LiveParts(c, s);
    hide SbHeaderOf, PayloadHeaderOf, StartOf, BoundsOf, Slice, Headers, Delivery, Tally, PastRight, PullRight, Phase;
    hide InOneWindow;
    assert EntryRight(c, s.a, s.h.log[i]);
  }

  /** One byte behind a complete request leaves a count of missing bytes that no pull accounts for. */
  lemma OneByteTooMany(c: Config, s: State, offset: u32, bytes: seq<byte>, env: Env)
    requires HasAsset(s) && s.h.pull.NoPull? && s.a.req.bytesRequested == s.a.req.bytesResponded > 0 && |bytes| == 1
    requires Passes(s.a, offset, bytes)
    ensures !Inv(c, DataResponse(c, s, offset, bytes, env))
  {
    var s1 := Received(s, bytes);
    ContinueKeepsRemaining(c, s1, env);
    hide Continue, PullComplete, Base, Phase, Overwrite;
  }

  lemma ContinueKeepsRemaining(c: Config, s: State, env: Env)
    ensures var s1 := Continue(c, s, env).0;
            s1.a.req.bytesRemaining == s.a.req.bytesRemaining && s1.h.pull == s.h.pull && s1.f == s.f
  {
  }
}
