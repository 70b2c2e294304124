/**
 Which key is the separated key: a plan that counts rotations and follows requests,
 without any keys, says it for every run of the service.
 */
module SeparatedKeys {
  import opened Wrappers
  import opened Bytes
  import opened Keys
  import opened KeysTheorems

  /**
   The primary index; the index of the latched primary key; whether the secondary key
   is in use without a latch; and the remainder of the indices that end a period.
   */
  datatype Plan = Plan(index: nat, latch: Option<nat>, secondary: bool, due: nat)

  /** What a request is allowed to ask for: four indices back, one period ahead. */
  predicate MayAsk(p: Periods, index: nat, evalIndex: nat) {
    index <= evalIndex + 4 && evalIndex <= index + p.primaryPerSecondary
  }

  function Next(p: Periods, t: Plan, e: Event): Plan
    requires p.Valid()
  {
    match e
    case Rotate =>
      if (t.index + 1) % p.primaryPerSecondary == t.due then Plan(t.index + 1, None, true, t.due)
      else t.(index := t.index + 1)
    case LatchRequest => t.(latch := Some(t.index))
    case ConfigureRequest(evalIndex, rollOk) =>
      if rollOk && MayAsk(p, t.index, evalIndex) then
        t.(latch := if evalIndex <= t.index then Some(t.index) else t.latch, due := evalIndex % p.primaryPerSecondary)
      else t
    case OwnerConnected => t.(secondary := false)
    case Reboot => Plan(t.index, None, true, 0)
  }

  /** The plan after the events, starting with the service. */
  function PlanOf(p: Periods, events: seq<Event>): Plan
    requires p.Valid()
  {
    if events == [] then Plan(1, None, false, 0)
    else Next(p, PlanOf(p, events[..|events| - 1]), events[|events| - 1])
  }

  /** The public keys of the two chains. */
  function PrimaryKey(c: Crypto, chains: Chains, index: nat): Key {
    c.derive(Rolled(c, chains.primary, index), chains.masterPk)
  }

  function SecondaryKey(c: Crypto, chains: Chains, index: nat): Key {
    c.derive(Rolled(c, chains.secondary, index), chains.masterPk)
  }

  /** The separated key that the plan names. */
  function KeyOf(c: Crypto, p: Periods, chains: Chains, t: Plan): Key
    requires p.Valid()
  {
    match t.latch
    case Some(index) => PrimaryKey(c, chains, index)
    case None =>
      if t.secondary then SecondaryKey(c, chains, t.index / p.primaryPerSecondary + 1)
      else PrimaryKey(c, chains, t.index)
  }

  /** RAM agrees with the plan. */
  ghost predicate Follows(c: Crypto, p: Periods, chains: Chains, r: Ram, t: Plan)
    requires p.Valid()
  {
    && KeysAt(c, p, chains, r, t.index)
    && r.isLatched == t.latch.Some? && r.useSecondary == t.secondary && r.delta == t.due
    && (t.latch.Some? ==> r.latchedPk == PrimaryKey(c, chains, t.latch.value))
  }

  lemma FollowsKey(c: Crypto, p: Periods, chains: Chains, r: Ram, t: Plan)
    requires p.Valid() && Follows(c, p, chains, r, t)
    ensures SeparatedKey(r) == KeyOf(c, p, chains, t)
  {
    hide Rolled, Mod;
  }

  /** One period more does not change the remainder. */
  lemma OnePeriodMore(n: nat, d: nat)
    requires d > 0
    ensures Mod(n + d, d) == Mod(n, d)
  {
    assert n == n / d * d + n % d && n + d == (n + d) / d * d + (n + d) % d;
    assert (n / d + 1) * d == n / d * d + d;
    DivModUnique((n + d) / d, (n + d) % d, n / d + 1, n % d, d);
  }

  lemma RotationFollows(c: Crypto, p: Periods, chains: Chains, s: System, t: Plan)
    requires p.Valid() && Follows(c, p, chains, s.ram, t)
    ensures Follows(c, p, chains, Rotation(c, p, s).ram, Next(p, t, Rotate))
    ensures SeparatedKeyChanged(c, p, s) <==>
            t.latch.Some? || !t.secondary || (t.index + 1) % p.primaryPerSecondary == t.due
  {
    RollBothKeepsKeys(c, p, chains, s.ram, t.index);
    assert Mod(t.index + 1, p.primaryPerSecondary) == (t.index + 1) % p.primaryPerSecondary;
    hide Rolled, Mod, Div, RollBoth, SecondaryIndex;
  }

  lemma ConfigureFollows(c: Crypto, p: Periods, chains: Chains, r: Ram, t: Plan, evalIndex: nat, rollOk: bool)
    requires p.Valid() && Follows(c, p, chains, r, t)
    ensures Follows(c, p, chains, Configure(p, r, evalIndex, rollOk), Next(p, t, ConfigureRequest(evalIndex, rollOk)))
  {
    OnePeriodMore(evalIndex, p.primaryPerSecondary);
    assert Mod(evalIndex, p.primaryPerSecondary) == evalIndex % p.primaryPerSecondary;
    hide Rolled, Mod, Div, SecondaryIndex;
  }

  /** After any run the service has the keys, the latch and the period of the plan. */
  lemma {:induction false} RunFollows(c: Crypto, p: Periods, masterPk: Key, primarySk: Key, secondarySk: Key,
                                      events: seq<Event>)
    requires p.Valid()
    ensures PlanOf(p, events).index == 1 + Rotations(events)
    ensures Follows(c, p, ChainsOf(c, masterPk, primarySk, secondarySk),
                    Run(c, p, Started(c, masterPk, primarySk, secondarySk), events).ram, PlanOf(p, events))
  {
    var chains := ChainsOf(c, masterPk, primarySk, secondarySk);
    RunKeepsRunning(c, p, masterPk, primarySk, secondarySk, events);
    if events != [] {
      var past, e := events[..|events| - 1], events[|events| - 1];
      RunFollows(c, p, masterPk, primarySk, secondarySk, past);
      var s, t := Run(c, p, Started(c, masterPk, primarySk, secondarySk), past), PlanOf(p, past);
      hide Rotation, Configure, Rolled, Mod, Div, SecondaryIndex, RestoreRolls, Started, CheckpointAt;
      match e
      case Rotate => RotationFollows(c, p, chains, s, t);
      case ConfigureRequest(evalIndex, rollOk) => ConfigureFollows(c, p, chains, s.ram, t, evalIndex, rollOk);
      case _ =>
    }
  }

  /**
   The separated key of any run: the primary key of the index at which the latch was
   taken; without a latch the secondary key of the period once that is in use, and the
   present primary key until then.
   */
  lemma SeparatedKeyOfRun(c: Crypto, p: Periods, masterPk: Key, primarySk: Key, secondarySk: Key, events: seq<Event>)
    requires p.Valid()
    ensures SeparatedKey(Run(c, p, Started(c, masterPk, primarySk, secondarySk), events).ram) ==
            KeyOf(c, p, ChainsOf(c, masterPk, primarySk, secondarySk), PlanOf(p, events))
  {
    hide Run, Started, PlanOf, KeyOf, Follows;
    RunFollows(c, p, masterPk, primarySk, secondarySk, events);
    FollowsKey(c, p, ChainsOf(c, masterPk, primarySk, secondarySk),
               Run(c, p, Started(c, masterPk, primarySk, secondarySk), events).ram, PlanOf(p, events));
  }

  /**
   After any run a rotation reports an unchanged separated key exactly if it is the
   secondary one, not latched, and the period does not end with this rotation.
   */
  lemma ChangeReportedIff(c: Crypto, p: Periods, masterPk: Key, primarySk: Key, secondarySk: Key, events: seq<Event>)
    requires p.Valid()
    ensures var s, t := Run(c, p, Started(c, masterPk, primarySk, secondarySk), events), PlanOf(p, events);
            SeparatedKeyChanged(c, p, s) <==>
            t.latch.Some? || !t.secondary || (t.index + 1) % p.primaryPerSecondary == t.due
  {
    hide Run, Started, PlanOf, SeparatedKeyChanged, Follows;
    RunFollows(c, p, masterPk, primarySk, secondarySk, events);
    RotationFollows(c, p, ChainsOf(c, masterPk, primarySk, secondarySk),
                    Run(c, p, Started(c, masterPk, primarySk, secondarySk), events), PlanOf(p, events));
  }

}
