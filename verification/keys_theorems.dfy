/** What the rolling-key service promises over whole runs, reboots included. */
module KeysTheorems {
  import opened Bytes
  import opened Keys

  // ----- The key chains ----------------------------------------------------------

  /** `n` rolls of a key. */
  function Rolled(c: Crypto, sk: Key, n: nat): Key {
    if n == 0 then sk else c.roll(Rolled(c, sk, n - 1))
  }

  /** The first keys of the two chains, index 0. */
  datatype Chains = Chains(masterPk: Key, primary: Key, secondary: Key)

  /** The keys, counters and derived keys that belong to primary index `n`. */
  ghost predicate KeysAt(c: Crypto, p: Periods, chains: Chains, r: Ram, n: nat)
    requires p.Valid()
  {
    && r.masterPk == chains.masterPk
    && r.primaryCnt == n && r.secondaryCnt == SecondaryIndex(p, n)
    && r.primarySk == Rolled(c, chains.primary, n)
    && r.secondarySk == Rolled(c, chains.secondary, SecondaryIndex(p, n))
    && r.primaryPk == c.derive(r.primarySk, r.masterPk)
    && r.secondaryPk == c.derive(r.secondarySk, r.masterPk)
    && r.ltk == c.ltk(r.primarySk)
  }

  /** The checkpoint and the difference counter that belong to primary index `n`. */
  ghost predicate CheckpointAt(c: Crypto, p: Periods, chains: Chains, f: Flash, n: nat)
    requires p.Valid()
  {
    && f.masterPk == chains.masterPk
    && f.primaryIndex + f.indexDiff == n
    && f.primarySk == Rolled(c, chains.primary, f.primaryIndex)
    && f.secondarySk == Rolled(c, chains.secondary, SecondaryIndex(p, f.primaryIndex))
    && (p.storageUpdate >= 2 ==> f.indexDiff == Mod(n, p.storageUpdate))
  }

  ghost predicate Running(c: Crypto, p: Periods, chains: Chains, s: System, n: nat)
    requires p.Valid()
  {
    KeysAt(c, p, chains, s.ram, n) && CheckpointAt(c, p, chains, s.flash, n)
  }

  /** Counting on by one. */
  lemma Successor(n: nat, d: nat)
    requires d > 0
    ensures Mod(n + 1, d) == if Mod(n, d) == d - 1 then 0 else Mod(n, d) + 1
    ensures Div(n + 1, d) == Div(n, d) + if Mod(n + 1, d) == 0 then 1 else 0
  {
    var q, r := n / d, n % d;
    var q1, r1 := (n + 1) / d, (n + 1) % d;
    assert n == q * d + r && n + 1 == q1 * d + r1;
    if r == d - 1 {
      assert (q + 1) * d == q * d + d;
      DivModUnique(q1, r1, q + 1, 0, d);
    } else {
      DivModUnique(q1, r1, q, r + 1, d);
    }
  }

  lemma SmallIndex(n: nat, d: nat)
    requires n < d
    ensures Mod(n, d) == n && Div(n, d) == 0
  {
  }

  // ----- Rotation --------------------------------------------------------------

  /** The assertion of the source holds: the secondary key lags by at most one. */
  lemma SecondaryKeySynced(c: Crypto, p: Periods, chains: Chains, r: Ram, n: nat)
    requires p.Valid() && KeysAt(c, p, chains, r, n)
    ensures var diff := SecondaryIndex(p, n + 1) - r.secondaryCnt;
            diff == if Mod(n + 1, p.primaryPerSecondary) == 0 then 1 else 0
  {
    hide Div, Mod;
    Successor(n, p.primaryPerSecondary);
  }

  lemma RollBothKeepsKeys(c: Crypto, p: Periods, chains: Chains, r: Ram, n: nat)
    requires p.Valid() && KeysAt(c, p, chains, r, n)
    ensures KeysAt(c, p, chains, RollBoth(c, p, r), n + 1)
    ensures RollBoth(c, p, r) == r.(primarySk := RollBoth(c, p, r).primarySk, primaryPk := RollBoth(c, p, r).primaryPk,
      primaryCnt := n + 1, ltk := RollBoth(c, p, r).ltk, secondarySk := RollBoth(c, p, r).secondarySk,
      secondaryPk := RollBoth(c, p, r).secondaryPk, secondaryCnt := SecondaryIndex(p, n + 1))
  {
    hide Div, Mod;
    SecondaryKeySynced(c, p, chains, r, n);
  }

  lemma RotationKeepsRunning(c: Crypto, p: Periods, chains: Chains, s: System, n: nat)
    requires p.Valid() && Running(c, p, chains, s, n)
    ensures Running(c, p, chains, Rotation(c, p, s), n + 1)
  {
    hide Div, Mod, RollBoth, Rolled, SecondaryIndex;
    RollBothKeepsKeys(c, p, chains, s.ram, n);
    Successor(n, p.storageUpdate);
  }

  // ----- Restoring ---------------------------------------------------------------

  lemma {:induction false} RestoreRollsReach(c: Crypto, p: Periods, chains: Chains, n: nat, left: nat)
    requires p.Valid()
    ensures RestoreRolls(c, p, Rolled(c, chains.primary, n), Rolled(c, chains.secondary, SecondaryIndex(p, n)), n,
                         left) ==
            (Rolled(c, chains.primary, n + left), Rolled(c, chains.secondary, SecondaryIndex(p, n + left)), n + left)
    decreases left
  {
    hide Div, Mod;
    if left > 0 {
      Successor(n, p.primaryPerSecondary);
      RestoreRollsReach(c, p, chains, n + 1, left - 1);
    }
  }

  /** Restoring from a checkpoint gives exactly the keys of the running service. */
  lemma RestoreReaches(c: Crypto, p: Periods, chains: Chains, f: Flash, n: nat)
    requires p.Valid() && CheckpointAt(c, p, chains, f, n)
    ensures KeysAt(c, p, chains, Restore(c, p, f), n)
  {
    hide Div, Mod, RestoreRolls, Rolled, SecondaryIndex;
    RestoreRollsReach(c, p, chains, f.primaryIndex, f.indexDiff);
  }

  // ----- Whole runs ----------------------------------------------------------------

  function Rotations(events: seq<Event>): nat {
    if events == [] then 0
    else Rotations(events[..|events| - 1]) + if events[|events| - 1].Rotate? then 1 else 0
  }

  function ChainsOf(c: Crypto, masterPk: Key, primarySk: Key, secondarySk: Key): Chains {
    Chains(masterPk, c.roll(primarySk), c.roll(secondarySk))
  }

  lemma StartIsRunning(c: Crypto, p: Periods, masterPk: Key, primarySk: Key, secondarySk: Key)
    requires p.Valid()
    ensures Running(c, p, ChainsOf(c, masterPk, primarySk, secondarySk), Started(c, masterPk, primarySk, secondarySk),
                    1)
  {
    hide Div, Mod;
    SmallIndex(0, p.primaryPerSecondary);
    SmallIndex(1, p.primaryPerSecondary);
    var chains := ChainsOf(c, masterPk, primarySk, secondarySk);
    assert Rolled(c, chains.primary, 0) == chains.primary;
    assert Rolled(c, chains.primary, 1) == c.roll(chains.primary);
    assert Rolled(c, chains.secondary, 1) == c.roll(Rolled(c, chains.secondary, 0));
    if p.storageUpdate >= 2 {
      SmallIndex(1, p.storageUpdate);
    }
  }

  /**
   Whatever happens, reboots included, RAM and storage belong to the number of
   rotations since the start.
   */
  lemma {:induction false} RunKeepsRunning(c: Crypto, p: Periods, masterPk: Key, primarySk: Key, secondarySk: Key,
                                           events: seq<Event>)
    requires p.Valid()
    ensures Running(c, p, ChainsOf(c, masterPk, primarySk, secondarySk),
                    Run(c, p, Started(c, masterPk, primarySk, secondarySk), events), 1 + Rotations(events))
  {
    var chains := ChainsOf(c, masterPk, primarySk, secondarySk);
    if events == [] {
      StartIsRunning(c, p, masterPk, primarySk, secondarySk);
    } else {
      var init, e := events[..|events| - 1], events[|events| - 1];
      RunKeepsRunning(c, p, masterPk, primarySk, secondarySk, init);
      hide Started, Rotation, Restore, Rolled, Div, Mod, SecondaryIndex;
      var s := Run(c, p, Started(c, masterPk, primarySk, secondarySk), init);
      if e.Rotate? {
        RotationKeepsRunning(c, p, chains, s, 1 + Rotations(init));
      } else if e.Reboot? {
        RestoreReaches(c, p, chains, s.flash, 1 + Rotations(init));
      }
    }
  }

  /** Same keys, counters, public keys and long-term key. */
  predicate SameKeys(a: Ram, b: Ram) {
    && a.masterPk == b.masterPk
    && a.primarySk == b.primarySk && a.secondarySk == b.secondarySk
    && a.primaryPk == b.primaryPk && a.secondaryPk == b.secondaryPk
    && a.primaryCnt == b.primaryCnt && a.secondaryCnt == b.secondaryCnt
    && a.ltk == b.ltk
  }

  /** After any run, restoring from storage gives the keys of the running service. */
  lemma RestoreRefinesRunning(c: Crypto, p: Periods, masterPk: Key, primarySk: Key, secondarySk: Key,
                              events: seq<Event>)
    requires p.Valid()
    ensures var s := Run(c, p, Started(c, masterPk, primarySk, secondarySk), events);
            SameKeys(Restore(c, p, s.flash), s.ram)
  {
    hide Started, Rotation, Restore, Rolled, Div, Mod, SecondaryIndex, Run;
    RunKeepsRunning(c, p, masterPk, primarySk, secondarySk, events);
    var s := Run(c, p, Started(c, masterPk, primarySk, secondarySk), events);
    RestoreReaches(c, p, ChainsOf(c, masterPk, primarySk, secondarySk), s.flash, 1 + Rotations(events));
  }

  /** The keys depend on the number of rotations only: reboots and requests are invisible. */
  lemma OnlyRotationsMatter(c: Crypto, p: Periods, masterPk: Key, primarySk: Key, secondarySk: Key, a: seq<Event>,
                            b: seq<Event>)
    requires p.Valid() && Rotations(a) == Rotations(b)
    ensures SameKeys(Run(c, p, Started(c, masterPk, primarySk, secondarySk), a).ram,
                     Run(c, p, Started(c, masterPk, primarySk, secondarySk), b).ram)
  {
    hide Started, Rotation, Restore, Rolled, Div, Mod, SecondaryIndex, Run;
    RunKeepsRunning(c, p, masterPk, primarySk, secondarySk, a);
    RunKeepsRunning(c, p, masterPk, primarySk, secondarySk, b);
  }

  // ----- The separated key -----------------------------------------------------------

  /**
   When a rotation reports an unchanged separated key, the key is unchanged unless
   the secondary key rolls at this index; then it is the next secondary key.
   */
  lemma UnchangedSeparatedKey(c: Crypto, p: Periods, chains: Chains, s: System, n: nat)
    requires p.Valid() && Running(c, p, chains, s, n)
    requires !SeparatedKeyChanged(c, p, s)
    ensures var after := Rotation(c, p, s).ram;
            var rolls := Mod(n + 1, p.primaryPerSecondary) == 0;
            && (rolls ==> s.ram.delta != 0)
            && SeparatedKey(after) ==
               if rolls then c.derive(Rolled(c, chains.secondary, SecondaryIndex(p, n + 1)), chains.masterPk)
               else SeparatedKey(s.ram)
  {
    hide Div, Mod, Rolled;
    SecondaryKeySynced(c, p, chains, s.ram, n);
    RollBothKeepsKeys(c, p, chains, s.ram, n);
  }

  /** Two indices less than one period apart with equal remainders are equal. */
  lemma {:induction false} SameRemainder(a: nat, b: nat, d: nat)
    requires d > 0 && a <= b < a + d && Mod(a, d) == Mod(b, d)
    ensures a == b
  {
    assert a == a / d * d + a % d && b == b / d * d + b % d;
    SmallMultiple(b / d - a / d, d, b - a);
  }

  lemma SmallMultiple(q: int, d: nat, n: nat)
    requires q * d == n < d
    ensures n == 0
  {
    if q >= 1 {
      MulAtLeast(q, d);
    }
  }

  /** No new request and no reboot. */
  predicate Quiet(events: seq<Event>) {
    forall i :: 0 <= i < |events| ==> events[i].Rotate? || events[i].OwnerConnected?
  }

  /** An accepted request is due one to `primaryPerSecondary` rotations ahead. */
  lemma EvalTargetAhead(p: Periods, r: Ram, evalIndex: nat)
    requires p.Valid() && p.primaryPerSecondary > EVAL_INDEX_LOWER_BOUND
    requires EvalIndexAccepted(p, r, evalIndex)
    ensures r.primaryCnt < EvalTarget(p, r, evalIndex) <= r.primaryCnt + p.primaryPerSecondary
  {
  }

  /** Until the due index nothing touches the latch; counters move with the rotations. */
  lemma {:induction false} QuietRun(c: Crypto, p: Periods, s: System, target: nat, events: seq<Event>)
    requires p.Valid() && Quiet(events)
    requires s.ram.primaryCnt < target <= s.ram.primaryCnt + p.primaryPerSecondary
    requires s.ram.delta == Mod(target, p.primaryPerSecondary)
    requires s.ram.primaryCnt + Rotations(events) < target
    ensures var r := Run(c, p, s, events).ram;
            && r.primaryCnt == s.ram.primaryCnt + Rotations(events)
            && r.delta == s.ram.delta && r.isLatched == s.ram.isLatched && r.latchedPk == s.ram.latchedPk
  {
    if events != [] {
      var init, e := events[..|events| - 1], events[|events| - 1];
      QuietRun(c, p, s, target, init);
      hide Mod, Div;
      if e.Rotate? {
        var next := s.ram.primaryCnt + Rotations(init) + 1;
        if Mod(next, p.primaryPerSecondary) == Mod(target, p.primaryPerSecondary) {
          SameRemainder(next, target, p.primaryPerSecondary);
        }
      }
    }
  }

  /**
   After an accepted request the first later rotation that drops the latch and
   switches to the secondary key is the one to the requested index, or one period
   later if that index has already passed.
   */
  lemma EvalIndexLandsExactly(c: Crypto, p: Periods, s: System, evalIndex: nat, events: seq<Event>)
    requires p.Valid() && p.primaryPerSecondary > EVAL_INDEX_LOWER_BOUND
    requires EvalIndexAccepted(p, s.ram, evalIndex) && Quiet(events)
    requires s.ram.primaryCnt + Rotations(events) < EvalTarget(p, s.ram, evalIndex)
    ensures var target := EvalTarget(p, s.ram, evalIndex);
            var s1 := Step(c, p, s, ConfigureRequest(evalIndex, true));
            var before := Run(c, p, s1, events).ram;
            var after := Rotation(c, p, Run(c, p, s1, events)).ram;
            && (evalIndex <= s.ram.primaryCnt ==> s1.ram.isLatched && s1.ram.latchedPk == s.ram.primaryPk)
            && before.isLatched == s1.ram.isLatched
            && (before.isLatched ==> SeparatedKey(before) == SeparatedKey(s1.ram))
            && after.primaryCnt == s.ram.primaryCnt + Rotations(events) + 1
            && (after.primaryCnt == target ==> !after.isLatched && after.useSecondary)
            && (after.primaryCnt < target ==>
                  after.isLatched == before.isLatched && after.latchedPk == s1.ram.latchedPk
                      && after.useSecondary == before.useSecondary)
  {
    var target := EvalTarget(p, s.ram, evalIndex);
    var s1 := Step(c, p, s, ConfigureRequest(evalIndex, true));
    EvalTargetAhead(p, s.ram, evalIndex);
    QuietRun(c, p, s1, target, events);
    hide Mod, Div, Run;
    var next := s.ram.primaryCnt + Rotations(events) + 1;
    if Mod(next, p.primaryPerSecondary) == Mod(target, p.primaryPerSecondary) {
      SameRemainder(next, target, p.primaryPerSecondary);
    }
  }
}
