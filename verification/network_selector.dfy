/**
 The network selector: a persisted selection and a factory reset that survives a
 crash between any two of its steps. A write of the settings is atomic.
 */
module NetworkSelector {
  import opened Wrappers

  const UNSELECTED: nat := 0
  const APPLE: nat := 1
  const GOOGLE: nat := 2
  const COUNT: nat := 3

  /** `struct network_desc`. */
  datatype Desc = Desc(id: nat, resetInProgress: bool)

  /**
   Where the program is: powered off, initialized and idle, in one of the steps of
   `factory_reset_run`, about to reboot, or stopped by an error of the initialization.
   */
  datatype Pc = Off | Ready | Record | Reset | Clear | Reboot | Halted

  /** What happened to the stored selection, and the factory resets that completed. */
  datatype Action = Selected(id: nat) | Recorded(id: nat) | Completed(id: nat) | Cleared

  /** `inInit` says that `factory_reset_run` was called by the initialization. */
  datatype State = State(pc: Pc, inInit: bool, current: Desc, stored: Option<Desc>, log: seq<Action>)

  const NEW: State := State(Off, false, Desc(UNSELECTED, false), None, [])

  // ----- Steps ------------------------------------------------------------------

  /** `network_selector_set`: the RAM copy follows the settings. */
  function Save(s: State, d: Desc, a: Action): State {
    s.(current := d, stored := Some(d), log := s.log + [a])
  }

  /** An error in `factory_reset_run` goes to its caller. */
  function GiveUp(s: State): State {
    s.(pc := if s.inInit then Halted else Ready)
  }

  /** `app_network_selector_set`, up to the first step of a factory reset. */
  function Set(s: State, network: nat, saveOk: bool): State
    requires s.pc.Ready?
  {
    if network >= COUNT then s
    else if s.current.id != UNSELECTED then
      if network == UNSELECTED then s.(pc := Record, inInit := false) else s
    else if saveOk then Save(s, Desc(network, false), Selected(network))
    else s
  }

  /** Settings loading and `app_network_selector_init`, up to the first step of a factory reset. */
  function PowerOn(s: State, loadOk: bool, saveOk: bool): State
    requires s.pc.Off?
  {
    if !loadOk then s.(pc := Halted)
    else
      match s.stored
      case None =>
        if saveOk then Save(s.(pc := Ready), Desc(UNSELECTED, false), Selected(UNSELECTED)) else s.(pc := Halted)
      case Some(d) =>
        if d.resetInProgress then s.(pc := Record, inInit := true, current := d) else s.(pc := Ready, current := d)
  }

  /** The next step of `factory_reset_run`, which may fail. */
  function Proceed(s: State, ok: bool): State {
    match s.pc
    case Record => if ok then Save(s.(pc := Reset), Desc(s.current.id, true), Recorded(s.current.id)) else GiveUp(s)
    case Reset => if ok then s.(pc := Clear, log := s.log + [Completed(s.current.id)]) else GiveUp(s)
    case Clear => if ok then Save(s.(pc := Reboot), Desc(UNSELECTED, false), Cleared) else GiveUp(s)
    case Reboot => s.(pc := Off)
    case _ => s
  }

  datatype Event =
    | Power(loadOk: bool, saveOk: bool)
    | Call(network: nat, saveOk: bool)
    | Next(ok: bool)
    | Crash

  function Step(s: State, e: Event): State {
    match e
    case Power(loadOk, saveOk) => if s.pc.Off? then PowerOn(s, loadOk, saveOk) else s
    case Call(network, saveOk) => if s.pc.Ready? then Set(s, network, saveOk) else s
    case Next(ok) => Proceed(s, ok)
    case Crash => s.(pc := Off)
  }

  function RunFrom(s: State, events: seq<Event>): State {
    if events == [] then s else Step(RunFrom(s, events[..|events| - 1]), events[|events| - 1])
  }

  // ----- What a log may be ---------------------------------------------------------

  /**
   The stored selection by the log: a plain one, or network `n` with a reset in
   progress, completed or not since that was recorded.
   */
  datatype Phase = Nothing | Plain(id: nat) | InProgress(n: nat, done: bool) | Broken

  function After(phase: Phase, a: Action): Phase {
    match a
    case Selected(id) =>
      if phase == Nothing || phase == Plain(UNSELECTED) then (if id < COUNT then Plain(id) else Broken) else Broken
    case Recorded(n) =>
      if n != UNSELECTED && (phase == Plain(n) || (phase.InProgress? && phase.n == n)) then InProgress(n, false)
      else Broken
    case Completed(n) => if phase.InProgress? && phase.n == n then InProgress(n, true) else Broken
    case Cleared => if phase.InProgress? && phase.done then Plain(UNSELECTED) else Broken
  }

  function PhaseOf(log: seq<Action>): Phase {
    if log == [] then Nothing else After(PhaseOf(log[..|log| - 1]), log[|log| - 1])
  }

  lemma PhaseAppend(log: seq<Action>, a: Action)
    ensures PhaseOf(log + [a]) == After(PhaseOf(log), a)
  {
    assert (log + [a])[..|log|] == log;
  }

  // ----- Invariant ------------------------------------------------------------------

  /** The settings hold what the log says. */
  predicate Agrees(phase: Phase, stored: Option<Desc>) {
    match phase
    case Nothing => stored == None
    case Plain(id) => stored == Some(Desc(id, false)) && id < COUNT
    case InProgress(n, _) => stored == Some(Desc(n, true)) && UNSELECTED < n < COUNT
    case Broken => false
  }

  predicate Inv(s: State) {
    var phase := PhaseOf(s.log);
    && Agrees(phase, s.stored)
    && match s.pc
       case Off => true
       case Halted => true
       case Ready => s.stored == Some(s.current)
       case Record => s.stored == Some(s.current) && s.current.id != UNSELECTED
       case Reset => s.stored == Some(s.current) && phase.InProgress?
       case Clear => s.stored == Some(s.current) && phase == InProgress(s.current.id, true)
       case Reboot => s.stored == Some(Desc(UNSELECTED, false))
  }

  lemma StepKeepsInv(s: State, e: Event)
    requires Inv(s)
    ensures Inv(Step(s, e))
  {
    hide PhaseOf;
    var s1 := Step(s, e);
    if |s1.log| > |s.log| {
      PhaseAppend(s.log, s1.log[|s.log|]);
    }
  }

  lemma {:induction false} RunKeepsInv(events: seq<Event>)
    ensures Inv(RunFrom(NEW, events))
  {
    if events == [] {
      NewInv();
    } else {
      hide Inv, Step;
      RunKeepsInv(events[..|events| - 1]);
      StepKeepsInv(RunFrom(NEW, events[..|events| - 1]), events[|events| - 1]);
    }
  }

  lemma NewInv()
    ensures Inv(NEW)
  {
  }

  // ----- Theorems --------------------------------------------------------------------

  /**
   For every run with crashes anywhere: the log is well formed, so a record in
   progress of network n is replaced only after a factory reset of n that completed
   since it was made; and it never carries the unselected id.
   */
  lemma CrashSafe(events: seq<Event>)
    ensures var s := RunFrom(NEW, events);
            && PhaseOf(s.log) != Broken
            && (s.stored.Some? && s.stored.value.resetInProgress ==> UNSELECTED < s.stored.value.id < COUNT)
  {
    hide RunFrom, PhaseOf;
    RunKeepsInv(events);
  }

  /** One step from a reset in progress: it completes, is recorded again, or nothing changes. */
  lemma StepInProgress(s: State, e: Event, n: nat)
    requires Inv(s) && PhaseOf(s.log) == InProgress(n, false)
    ensures var s1 := Step(s, e);
            && Inv(s1)
            && (s1.log == s.log || s1.log == s.log + [Recorded(n)] || s1.log == s.log + [Completed(n)])
            && (s1.log != s.log + [Completed(n)] ==> PhaseOf(s1.log) == InProgress(n, false))
  {
    StepKeepsInv(s, e);
    PhaseAppend(s.log, Recorded(n));
    hide PhaseOf;
  }

  lemma StepLog(s: State, e: Event)
    ensures s.log <= Step(s, e).log
  {
  }

  /**
   Once a reset of n is recorded as in progress and not completed, the settings hold
   exactly that through any further events, until a complete factory reset of n.
   */
  lemma {:induction false} StaysInProgress(s: State, events: seq<Event>, n: nat)
    requires Inv(s) && PhaseOf(s.log) == InProgress(n, false)
    ensures var s1 := RunFrom(s, events);
            && Inv(s1) && s.log <= s1.log
            && (Completed(n) !in s1.log[|s.log|..] ==>
                  s1.stored == Some(Desc(n, true)) && PhaseOf(s1.log) == InProgress(n, false))
  {
    if events == [] {
      assert Agrees(PhaseOf(s.log), s.stored);
    } else {
      var past := events[..|events| - 1];
      var s0, e := RunFrom(s, past), events[|events| - 1];
      StaysInProgress(s, past, n);
      hide Inv, Step, PhaseOf, RunFrom;
      var s1 := Step(s0, e);
      StepKeepsInv(s0, e);
      StepLog(s0, e);
      assert RunFrom(s, events) == s1 by { RunLast(s, events); }
      if Completed(n) !in s1.log[|s.log|..] {
        assert s1.log[|s.log|..] == s0.log[|s.log|..] + s1.log[|s0.log|..];
        StepInProgress(s0, e, n);
        LastIn(s0.log, Completed(n), |s.log|);
        StoredBy(s1, n);
      }
    }
  }

  lemma LastIn(log: seq<Action>, a: Action, n: nat)
    requires n <= |log|
    ensures a in (log + [a])[n..]
  {
    assert (log + [a])[n..][|log| - n] == a;
  }

  lemma RunLast(s: State, events: seq<Event>)
    requires events != []
    ensures RunFrom(s, events) == Step(RunFrom(s, events[..|events| - 1]), events[|events| - 1])
  {
  }

  lemma StoredBy(s: State, n: nat)
    requires Inv(s) && PhaseOf(s.log) == InProgress(n, false)
    ensures s.stored == Some(Desc(n, true))
  {
    hide PhaseOf;
  }

  /** The steps of a factory reset; they do nothing if none is due, or after one failed. */
  function FactoryReset(s: State, recordOk: bool, resetOk: bool, clearOk: bool): State {
    Step(Step(Step(Step(s, Next(recordOk)), Next(resetOk)), Next(clearOk)), Next(true))
  }

  /** After a crash, a boot in which nothing fails completes the reset. */
  lemma BootCompletesReset(s: State, n: nat)
    requires Inv(s) && s.stored == Some(Desc(n, true))
    ensures var s1 := FactoryReset(Step(Step(s, Crash), Power(true, true)), true, true, true);
            && s1.stored == Some(Desc(UNSELECTED, false))
            && s1.log == s.log + [Recorded(n), Completed(n), Cleared]
  {
    hide PhaseOf;
  }

  // ----- What calls and boots lead to -------------------------------------------------

  /**
   A call in any run of an initialized program, told by the stored selection. Without
   one, a known network is selected, and stored, if the settings can be written. With
   one, only unselecting is accepted: it leads to a factory reset of that network, and
   to no selection if nothing fails. Every other call changes nothing.
   */
  lemma CallOutcome(events: seq<Event>, network: nat, saveOk: bool)
    requires RunFrom(NEW, events).pc.Ready?
    ensures var s, s1 := RunFrom(NEW, events), Step(RunFrom(NEW, events), Call(network, saveOk));
            && s.stored == Some(s.current)
            && var n := s.current.id;
               if n == UNSELECTED && network < COUNT && saveOk then
                 && s1.stored == Some(Desc(network, false)) && s1.current == Desc(network, false)
                 && s1.pc.Ready? && s1.log == s.log + [Selected(network)]
               else if n != UNSELECTED && network == UNSELECTED then
                 var s2 := FactoryReset(s1, true, true, true);
                 && s1.stored == s.stored && s1.current == s.current && s1.log == s.log && s1.pc.Record? && !s1.inInit
                 && s2.stored == Some(Desc(UNSELECTED, false)) && s2.pc.Off?
                 && s2.log == s.log + [Recorded(n), Completed(n), Cleared]
               else s1 == s
  {
    RunKeepsInv(events);
    hide RunFrom, PhaseOf;
  }

  /**
   A step that fails ends the factory reset; what was stored before it stays. The
   program goes on after a call, and stops in the initialization.
   */
  lemma ResetCutShort(events: seq<Event>, recordOk: bool, resetOk: bool, clearOk: bool)
    requires RunFrom(NEW, events).pc.Record? && !(recordOk && resetOk && clearOk)
    ensures var s := RunFrom(NEW, events);
            var s1 := FactoryReset(s, recordOk, resetOk, clearOk);
            var n := s.current.id;
            && s1.pc == (if s.inInit then Halted else Ready)
            && s1.stored == (if recordOk then Some(Desc(n, true)) else s.stored)
            && s1.log == s.log + if !recordOk then [] else if !resetOk then [Recorded(n)]
                                 else [Recorded(n), Completed(n)]
  {
    RunKeepsInv(events);
    hide RunFrom, PhaseOf;
  }

  /**
   A boot in any run: the stored selection is taken over as it is, and a reset that is
   in progress is taken up; the first boot stores that nothing is selected. Settings
   that cannot be read, or written then, stop the program and stay as they are.
   */
  lemma BootOutcome(events: seq<Event>, loadOk: bool, saveOk: bool)
    requires RunFrom(NEW, events).pc.Off?
    ensures var s, s1 := RunFrom(NEW, events), Step(RunFrom(NEW, events), Power(loadOk, saveOk));
            if !loadOk || (s.stored.None? && !saveOk) then
              s1.pc.Halted? && s1.stored == s.stored && s1.log == s.log
            else if s.stored.None? then
              && s1.pc.Ready? && s1.stored == Some(Desc(UNSELECTED, false)) && s1.current == Desc(UNSELECTED, false)
              && s1.log == s.log + [Selected(UNSELECTED)]
            else
              && s1.stored == s.stored && s1.current == s.stored.value && s1.log == s.log
              && if s.stored.value.resetInProgress then s1.pc.Record? && s1.inInit else s1.pc.Ready?
  {
    RunKeepsInv(events);
    hide RunFrom, PhaseOf;
  }

  // ----- The module ----------------------------------------------------------------------

  /** The static state of the module and the settings; a call here runs without a crash. */
  class Selector {
    var currentNetwork: Desc
    var initialized: bool
    var stored: Option<Desc>
    ghost var s: State

    ghost predicate Valid()
      reads this
    {
      && Inv(s) && stored == s.stored
      && (s.pc.Ready? || s.pc.Record? || s.pc.Reset? || s.pc.Clear? ==> currentNetwork == s.current)
    }

    /** A boot from the given settings, before the initialization. */
    constructor (s: State)
      requires Inv(s) && s.pc.Off?
      ensures Valid() && this.s == s && !initialized
    {
      currentNetwork, initialized, stored := Desc(UNSELECTED, false), false, s.stored;
      this.s := s;
    }

    /** `network_selector_set`. */
    method NetworkSelectorSet(network: nat, resetInProgress: bool, saveOk: bool) returns (ok: bool)
      modifies `currentNetwork, `stored
      ensures ok == saveOk
      ensures if ok then currentNetwork == Desc(network, resetInProgress) && stored == Some(currentNetwork)
              else currentNetwork == old(currentNetwork) && stored == old(stored)
    {
      if !saveOk {
        return false;
      }
      stored := Some(Desc(network, resetInProgress));
      currentNetwork := Desc(network, resetInProgress);
      return true;
    }

    /** `reset_in_progress_set`. */
    method ResetInProgressSet(inProgress: bool, saveOk: bool) returns (ok: bool)
      modifies `currentNetwork, `stored
      ensures ok == saveOk
      ensures if ok then currentNetwork == Desc(if inProgress then old(currentNetwork).id else UNSELECTED, inProgress)
                         && stored == Some(currentNetwork)
              else currentNetwork == old(currentNetwork) && stored == old(stored)
    {
      var network := if inProgress then currentNetwork.id else UNSELECTED;
      ok := NetworkSelectorSet(network, inProgress, saveOk);
    }

    /** `factory_reset_run`: its steps, each of which may fail; it ends in a reboot or an error. */
    method FactoryResetRun(recordOk: bool, resetOk: bool, clearOk: bool) returns (ok: bool)
      requires Valid() && s.pc.Record?
      modifies this
      ensures Valid() && ok == (recordOk && resetOk && clearOk) && initialized == old(initialized)
      ensures s == FactoryReset(old(s), recordOk, resetOk, clearOk)
    {
      ok := false;
      StepKeepsInv(s, Next(recordOk));
      s := Step(s, Next(recordOk));
      var saved := ResetInProgressSet(true, recordOk);
      if !saved {
        return;
      }
      StepKeepsInv(s, Next(resetOk));
      s := Step(s, Next(resetOk));
      if !resetOk {
        return;
      }
      StepKeepsInv(s, Next(clearOk));
      s := Step(s, Next(clearOk));
      saved := ResetInProgressSet(false, clearOk);
      if !saved {
        return;
      }
      StepKeepsInv(s, Next(true));
      s := Step(s, Next(true));
      return true;
    }

    /** `app_network_selector_set`. */
    method AppNetworkSelectorSet(network: nat, saveOk: bool, recordOk: bool, resetOk: bool, clearOk: bool)
      returns (ok: bool)
      requires Valid() && s.pc.Ready? && initialized
      modifies this
      ensures Valid() && initialized
      ensures s == FactoryReset(Step(old(s), Call(network, saveOk)), recordOk, resetOk, clearOk)
    {
      StepKeepsInv(s, Call(network, saveOk));
      if network >= COUNT {
        return false;
      }
      if currentNetwork.id != UNSELECTED {
        if network == UNSELECTED {
          s := Step(s, Call(network, saveOk));
          ok := FactoryResetRun(recordOk, resetOk, clearOk);
          return;
        }
        return false;
      }
      s := Step(s, Call(network, saveOk));
      ok := NetworkSelectorSet(network, false, saveOk);
    }

    /** `app_network_selector_init`, after the settings were loaded. */
    method AppNetworkSelectorInit(loadOk: bool, saveOk: bool, recordOk: bool, resetOk: bool, clearOk: bool)
      returns (ok: bool)
      requires Valid() && s.pc.Off? && !initialized
      modifies this
      ensures Valid() && initialized == ok
      ensures s == FactoryReset(Step(old(s), Power(loadOk, saveOk)), recordOk, resetOk, clearOk)
    {
      StepKeepsInv(s, Power(loadOk, saveOk));
      s := Step(s, Power(loadOk, saveOk));
      if !loadOk {
        return false;
      }
      if stored.None? {
        ok := NetworkSelectorSet(UNSELECTED, false, saveOk);
        initialized := ok;
        return;
      }
      currentNetwork := stored.value;
      if currentNetwork.resetInProgress {
        ok := FactoryResetRun(recordOk, resetOk, clearOk);
        initialized := ok;
        return;
      }
      initialized := true;
      return true;
    }
  }
}
