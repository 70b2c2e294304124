/**
 The rolling-key service: what its handlers do to the keys in RAM and to the
 checkpoint in storage. The key derivation functions are left uninterpreted.
 */
module Keys {
  import opened Bytes

  type Key = seq<byte>

  /** `fm_crypto_roll_sk`, `fm_crypto_derive_primary_or_secondary_x`, `fm_crypto_derive_ltk`. */
  datatype Crypto = Crypto(roll: Key -> Key, derive: (Key, Key) -> Key, ltk: Key -> Key)

  /** Primary keys per secondary key, and rotations per storage update. */
  datatype Periods = Periods(primaryPerSecondary: nat, storageUpdate: nat) {
    predicate Valid() {
      primaryPerSecondary >= 2 && 1 <= storageUpdate <= TWO_16
    }
  }

  /** The periods of the accessory. */
  const FMNA_PERIODS: Periods := Periods(96, 16)

  const EVAL_INDEX_LOWER_BOUND: nat := 4

  // Quotient and remainder by a variable, named so that proofs can hide them.

  function Div(n: nat, d: nat): nat
    requires d > 0
  {
    n / d
  }

  function Mod(n: nat, d: nat): (r: nat)
    requires d > 0
    ensures r < d
  {
    n % d
  }

  /** The keys in RAM. */
  datatype Ram = Ram(
    masterPk: Key,
    primarySk: Key, secondarySk: Key,
    primaryPk: Key, secondaryPk: Key,
    latchedPk: Key, isLatched: bool,
    primaryCnt: nat, delta: nat, secondaryCnt: nat,
    useSecondary: bool,
    ltk: Key)

  /** The keys module's items in the settings storage. */
  datatype Flash = Flash(masterPk: Key, primarySk: Key, secondarySk: Key, primaryIndex: nat, indexDiff: nat)

  datatype System = System(ram: Ram, flash: Flash)

  // ----- Handlers ------------------------------------------------------------

  function PrimaryRoll(c: Crypto, r: Ram): Ram {
    var sk := c.roll(r.primarySk);
    r.(primarySk := sk, primaryPk := c.derive(sk, r.masterPk), primaryCnt := r.primaryCnt + 1, ltk := c.ltk(sk))
  }

  function SecondaryRoll(c: Crypto, r: Ram): Ram {
    var sk := c.roll(r.secondarySk);
    r.(secondarySk := sk, secondaryPk := c.derive(sk, r.masterPk), secondaryCnt := r.secondaryCnt + 1)
  }

  /** `SECONDARY_KEY_INDEX_FROM_PRIMARY`. */
  function SecondaryIndex(p: Periods, primaryIndex: nat): nat
    requires p.Valid()
  {
    Div(primaryIndex, p.primaryPerSecondary) + 1
  }

  /** The separated key period ends with this rotation. */
  predicate PeriodEnds(p: Periods, r: Ram)
    requires p.Valid()
  {
    Mod(r.primaryCnt, p.primaryPerSecondary) == r.delta
  }

  function StorageUpdate(r: Ram, f: Flash): Flash {
    f.(primarySk := r.primarySk, secondarySk := r.secondarySk, primaryIndex := r.primaryCnt, indexDiff := 0)
  }

  /** The keys after the rolls of a rotation. */
  function RollBoth(c: Crypto, p: Periods, r: Ram): Ram
    requires p.Valid()
  {
    var r1 := PrimaryRoll(c, r);
    if SecondaryIndex(p, r1.primaryCnt) != r1.secondaryCnt then SecondaryRoll(c, r1) else r1
  }

  /** `key_rotation_work_handle`. */
  function Rotation(c: Crypto, p: Periods, s: System): System
    requires p.Valid()
  {
    var r := RollBoth(c, p, s.ram);
    var r' := if PeriodEnds(p, r) then r.(isLatched := false, useSecondary := true) else r;
    var diff := Mod(r'.primaryCnt, p.storageUpdate);
    System(r', if diff != 0 then s.flash.(indexDiff := diff) else StorageUpdate(r', s.flash))
  }

  /** The `separated_key_changed` flag of the event that the rotation emits. */
  predicate SeparatedKeyChanged(c: Crypto, p: Periods, s: System)
    requires p.Valid()
  {
    var r := RollBoth(c, p, s.ram);
    PeriodEnds(p, r) || r.isLatched || !r.useSecondary
  }

  /** `fmna_keys_separated_key_get`. */
  function SeparatedKey(r: Ram): Key {
    if r.isLatched then r.latchedPk else if r.useSecondary then r.secondaryPk else r.primaryPk
  }

  function Latch(r: Ram): Ram {
    r.(latchedPk := r.primaryPk, isLatched := true)
  }

  /** The index of the next change to the secondary key. */
  function EvalTarget(p: Periods, r: Ram, evalIndex: nat): nat {
    if evalIndex <= r.primaryCnt then evalIndex + p.primaryPerSecondary else evalIndex
  }

  /** The request is within the accepted range of evaluation indices. */
  predicate EvalIndexAccepted(p: Periods, r: Ram, evalIndex: nat) {
    && (if r.primaryCnt > EVAL_INDEX_LOWER_BOUND then r.primaryCnt - EVAL_INDEX_LOWER_BOUND else 0) <= evalIndex
    && evalIndex <= r.primaryCnt + p.primaryPerSecondary
  }

  /** `separated_state_configure_request_handle`; `rollOk` is the check of the timer period. */
  function Configure(p: Periods, r: Ram, evalIndex: nat, rollOk: bool): Ram
    requires p.Valid()
  {
    if !EvalIndexAccepted(p, r, evalIndex) || !rollOk then r
    else
      var r' := if evalIndex <= r.primaryCnt then Latch(r) else r;
      r'.(delta := Mod(EvalTarget(p, r, evalIndex), p.primaryPerSecondary))
  }

  /** `fmna_keys_service_start`. */
  function ServiceStart(c: Crypto, masterPk: Key, primarySk: Key, secondarySk: Key, r: Ram, f: Flash): System {
    var r0 := r.(masterPk := masterPk, primarySk := c.roll(primarySk), secondarySk := c.roll(secondarySk));
    var r1 := SecondaryRoll(c, PrimaryRoll(c, r0));
    System(r1, StorageUpdate(r0, f).(masterPk := masterPk, indexDiff := r1.primaryCnt % TWO_16,
                                     secondarySk := r1.secondarySk))
  }

  /** The rolls of `paired_state_restore`, `left` of them still to do. */
  function RestoreRolls(c: Crypto, p: Periods, primarySk: Key, secondarySk: Key, cnt: nat, left: nat): (Key, Key, nat)
    requires p.Valid()
    decreases left
  {
    if left == 0 then (primarySk, secondarySk, cnt)
    else
      RestoreRolls(c, p, c.roll(primarySk),
                   if Mod(cnt + 1, p.primaryPerSecondary) != 0 then secondarySk else c.roll(secondarySk),
                   cnt + 1, left - 1)
  }

  /** RAM after reset, before anything is restored. */
  const RESET_RAM: Ram := Ram([], [], [], [], [], [], false, 0, 0, 0, false, [])

  /** `paired_state_restore` after a reset. */
  function Restore(c: Crypto, p: Periods, f: Flash): Ram
    requires p.Valid()
  {
    var (primarySk, secondarySk, cnt) := RestoreRolls(c, p, f.primarySk, f.secondarySk, f.primaryIndex, f.indexDiff);
    RESET_RAM.(masterPk := f.masterPk, primarySk := primarySk, secondarySk := secondarySk,
               primaryCnt := cnt, secondaryCnt := SecondaryIndex(p, cnt),
               primaryPk := c.derive(primarySk, f.masterPk), secondaryPk := c.derive(secondarySk, f.masterPk),
               ltk := c.ltk(primarySk), useSecondary := true)
  }

  // ----- Runs ------------------------------------------------------------------

  datatype Event =
    | Rotate
    | LatchRequest
    | ConfigureRequest(evalIndex: nat, rollOk: bool)
    | OwnerConnected
    | Reboot

  function Step(c: Crypto, p: Periods, s: System, e: Event): System
    requires p.Valid()
  {
    match e
    case Rotate => Rotation(c, p, s)
    case LatchRequest => s.(ram := Latch(s.ram))
    case ConfigureRequest(index, rollOk) => s.(ram := Configure(p, s.ram, index, rollOk))
    case OwnerConnected => s.(ram := s.ram.(useSecondary := false))
    case Reboot => s.(ram := Restore(c, p, s.flash))
  }

  function Run(c: Crypto, p: Periods, s: System, events: seq<Event>): System
    requires p.Valid()
  {
    if events == [] then s
    else Step(c, p, Run(c, p, s, events[..|events| - 1]), events[|events| - 1])
  }

  /** The system right after a start with the given keys, everything else being reset. */
  function Started(c: Crypto, masterPk: Key, primarySk: Key, secondarySk: Key): System {
    ServiceStart(c, masterPk, primarySk, secondarySk, RESET_RAM, Flash([], [], [], 0, 0))
  }

  // ----- The service -------------------------------------------------------------

  class KeyService {
    const c: Crypto
    const p: Periods

    var masterPk: Key
    var primarySk: Key
    var secondarySk: Key
    var primaryPk: Key
    var secondaryPk: Key
    var latchedPk: Key
    var isLatched: bool
    var primaryCnt: nat
    var delta: nat
    var secondaryCnt: nat
    var useSecondary: bool
    var ltk: Key

    /** The settings storage. */
    var flash: Flash

    function RamState(): Ram
      reads this
    {
      Ram(masterPk, primarySk, secondarySk, primaryPk, secondaryPk, latchedPk, isLatched,
          primaryCnt, delta, secondaryCnt, useSecondary, ltk)
    }

    function State(): System
      reads this
    {
      System(RamState(), flash)
    }

    /** A device that starts with the given storage. */
    constructor (c: Crypto, p: Periods, flash: Flash)
      requires p.Valid()
      ensures this.c == c && this.p == p && State() == System(RESET_RAM, flash)
    {
      this.c := c;
      this.p := p;
      this.flash := flash;
      masterPk, primarySk, secondarySk := [], [], [];
      primaryPk, secondaryPk, latchedPk, isLatched := [], [], [], false;
      primaryCnt, delta, secondaryCnt, useSecondary, ltk := 0, 0, 0, false, [];
    }

    method PrimaryKeyRoll()
      modifies this
      ensures State() == old(State()).(ram := PrimaryRoll(c, old(RamState())))
    {
      primarySk := c.roll(primarySk);
      primaryPk := c.derive(primarySk, masterPk);
      primaryCnt := primaryCnt + 1;
      ltk := c.ltk(primarySk);
    }

    method SecondaryKeyRoll()
      modifies this
      ensures State() == old(State()).(ram := SecondaryRoll(c, old(RamState())))
    {
      secondarySk := c.roll(secondarySk);
      secondaryPk := c.derive(secondarySk, masterPk);
      secondaryCnt := secondaryCnt + 1;
    }

    method RotatingKeyStorageUpdate()
      modifies this`flash
      ensures flash == StorageUpdate(RamState(), old(flash))
    {
      flash := flash.(primarySk := primarySk);
      flash := flash.(secondarySk := secondarySk);
      flash := flash.(primaryIndex := primaryCnt);
      flash := flash.(indexDiff := 0);
    }

    method KeyRotationWorkHandle() returns (separatedKeyChanged: bool)
      requires p.Valid()
      modifies this
      ensures State() == Rotation(c, p, old(State()))
      ensures separatedKeyChanged == SeparatedKeyChanged(c, p, old(State()))
    {
      separatedKeyChanged := true;
      PrimaryKeyRoll();
      if SecondaryIndex(p, primaryCnt) != secondaryCnt {
        SecondaryKeyRoll();
      }
      if Mod(primaryCnt, p.primaryPerSecondary) == delta {
        isLatched := false;
        useSecondary := true;
      } else {
        if !isLatched {
          if useSecondary {
            separatedKeyChanged := false;
          }
        }
      }
      var storageKeyIndexDiff := Mod(primaryCnt, p.storageUpdate);
      if storageKeyIndexDiff != 0 {
        flash := flash.(indexDiff := storageKeyIndexDiff);
      } else {
        RotatingKeyStorageUpdate();
      }
    }

    method SeparatedKeyGet() returns (separatedKey: Key)
      ensures separatedKey == SeparatedKey(RamState())
    {
      if isLatched {
        return latchedPk;
      }
      if useSecondary {
        separatedKey := secondaryPk;
      } else {
        separatedKey := primaryPk;
      }
    }

    method PrimaryPkLatch()
      modifies this
      ensures State() == old(State()).(ram := Latch(old(RamState())))
    {
      latchedPk := primaryPk;
      isLatched := true;
    }

    method SeparatedStateConfigure(evalIndex: nat, rollOk: bool)
      requires p.Valid()
      modifies this
      ensures State() == old(State()).(ram := Configure(p, old(RamState()), evalIndex, rollOk))
    {
      var lower := if primaryCnt > EVAL_INDEX_LOWER_BOUND then primaryCnt - EVAL_INDEX_LOWER_BOUND else 0;
      var upper := primaryCnt + p.primaryPerSecondary;
      var success := true;
      if evalIndex < lower || evalIndex > upper {
        success := false;
      }
      if !rollOk {
        success := false;
      }
      if success {
        var index := evalIndex;
        if index <= primaryCnt {
          PrimaryPkLatch();
          index := index + p.primaryPerSecondary;
        }
        delta := Mod(index, p.primaryPerSecondary);
      }
    }

    method OwnerConnectedHandle()
      modifies this`useSecondary
      ensures State() == old(State()).(ram := old(RamState()).(useSecondary := false))
    {
      useSecondary := false;
    }

    /** The keys from pairing; the master key is stored as well. */
    method SetKeys(masterPk: Key, primarySk: Key, secondarySk: Key)
      modifies this
      ensures RamState() == old(RamState()).(masterPk := masterPk, primarySk := primarySk, secondarySk := secondarySk)
      ensures flash == old(flash).(masterPk := masterPk)
    {
      this.masterPk := masterPk;
      this.primarySk := primarySk;
      this.secondarySk := secondarySk;
      flash := flash.(masterPk := masterPk);
    }

    /** `fmna_keys_service_start`. */
    method Start(masterPk: Key, primarySk: Key, secondarySk: Key)
      modifies this
      ensures State() == ServiceStart(c, masterPk, primarySk, secondarySk, old(RamState()), old(flash))
    {
      SetKeys(masterPk, c.roll(primarySk), c.roll(secondarySk));
      RotatingKeyStorageUpdate();
      hide PrimaryRoll, SecondaryRoll;
      PrimaryKeyRoll();
      SecondaryKeyRoll();
      flash := flash.(indexDiff := primaryCnt % TWO_16);
      flash := flash.(secondarySk := this.secondarySk);
    }

    /** The loop of `paired_state_restore`: the rolls since the checkpoint are made again. */
    method RollFromCheckpoint()
      requires p.Valid()
      modifies `primarySk, `secondarySk, `primaryCnt
      ensures (primarySk, secondarySk, primaryCnt) ==
              RestoreRolls(c, p, old(primarySk), old(secondarySk), old(primaryCnt), flash.indexDiff)
    {
      for rolls := 0 to flash.indexDiff
        invariant RestoreRolls(c, p, old(primarySk), old(secondarySk), old(primaryCnt), flash.indexDiff) ==
                  RestoreRolls(c, p, primarySk, secondarySk, primaryCnt, flash.indexDiff - rolls)
      {
        primarySk := c.roll(primarySk);
        primaryCnt := primaryCnt + 1;
        if Mod(primaryCnt, p.primaryPerSecondary) != 0 {
          continue;
        }
        secondarySk := c.roll(secondarySk);
      }
    }

    /** The rest of `paired_state_restore`: everything that follows from the rolled keys. */
    method DeriveRestored()
      requires p.Valid()
      modifies `secondaryCnt, `primaryPk, `ltk, `secondaryPk, `useSecondary
      ensures secondaryCnt == SecondaryIndex(p, primaryCnt) && useSecondary && ltk == c.ltk(primarySk)
      ensures primaryPk == c.derive(primarySk, masterPk) && secondaryPk == c.derive(secondarySk, masterPk)
    {
      secondaryCnt := SecondaryIndex(p, primaryCnt);
      primaryPk := c.derive(primarySk, masterPk);
      ltk := c.ltk(primarySk);
      secondaryPk := c.derive(secondarySk, masterPk);
      useSecondary := true;
    }

    method PairedStateRestore()
      requires p.Valid() && RamState() == RESET_RAM
      modifies this
      ensures State() == System(Restore(c, p, old(flash)), old(flash))
    {
      hide RestoreRolls, SecondaryIndex;
      masterPk := flash.masterPk;
      primarySk := flash.primarySk;
      secondarySk := flash.secondarySk;
      primaryCnt := flash.primaryIndex;
      RollFromCheckpoint();
      DeriveRestored();
    }
  }
}
