/**
 * The muon loader's entry point and its delays (muon/main.c).  The boot
 * services it calls are modelled by a class that records every call in
 * order (calls) and answers each kind of call with a fixed status; a
 * stall's status may depend on its length.
 */
module MuonMain {
  import opened Common
  import opened Efi

  /** EVT_TIMER and TPL_APPLICATION (UEFI 2.x section 7.1). */
  const EVT_TIMER: int := 0x8000_0000
  const TPL_APPLICATION: int := 4
  /** TimerRelative in EFI_TIMER_DELAY (UEFI 2.x section 7.1, SetTimer). */
  const TIMER_RELATIVE: int := 2
  /** snooze_1 stalls at most this many microseconds at a time. */
  const STALL_CHUNK: int := 10000
  /** efi_main's pause, in microseconds. */
  const PAUSE_US: u64 := 3000000

  datatype Call =
    | Stall(us: int)
    | CreateEvent(typ: int, tpl: int)
    | SetTimer(kind: int, ticks: int)
    | WaitForEvent(count: int)
    | CloseEvent

  /** The boot services table, as far as muon/main.c uses it. */
  class Boot {
    const stallStatus: int -> Status
    const createStatus: Status
    const setTimerStatus: Status
    const waitStatus: Status
    const closeStatus: Status
    /** Every call made so far, oldest first. */
    var calls: seq<Call>

    constructor (stallStatus: int -> Status, createStatus: Status, setTimerStatus: Status, waitStatus: Status, closeStatus: Status)
      ensures this.stallStatus == stallStatus && this.createStatus == createStatus && this.setTimerStatus == setTimerStatus
      ensures this.waitStatus == waitStatus && this.closeStatus == closeStatus && calls == []
    {
      this.stallStatus := stallStatus;
      this.createStatus := createStatus;
      this.setTimerStatus := setTimerStatus;
      this.waitStatus := waitStatus;
      this.closeStatus := closeStatus;
      calls := [];
    }

    method DoStall(us: int) returns (s: Status)
      modifies this`calls
      ensures calls == old(calls) + [Stall(us)] && s == stallStatus(us)
    {
      calls := calls + [Stall(us)];
      s := stallStatus(us);
    }

    method DoCreateEvent(typ: int, tpl: int) returns (s: Status)
      modifies this`calls
      ensures calls == old(calls) + [CreateEvent(typ, tpl)] && s == createStatus
    {
      calls := calls + [CreateEvent(typ, tpl)];
      s := createStatus;
    }

    method DoSetTimer(kind: int, ticks: int) returns (s: Status)
      modifies this`calls
      ensures calls == old(calls) + [SetTimer(kind, ticks)] && s == setTimerStatus
    {
      calls := calls + [SetTimer(kind, ticks)];
      s := setTimerStatus;
    }

    method DoWaitForEvent(count: int) returns (s: Status)
      modifies this`calls
      ensures calls == old(calls) + [WaitForEvent(count)] && s == waitStatus
    {
      calls := calls + [WaitForEvent(count)];
      s := waitStatus;
    }

    method DoCloseEvent() returns (s: Status)
      modifies this`calls
      ensures calls == old(calls) + [CloseEvent] && s == closeStatus
    {
      calls := calls + [CloseEvent];
      s := closeStatus;
    }
  }

  /** The stalls snooze_1 makes for a delay of us microseconds, in order. */
  function StallPlan(us: int): (plan: seq<int>)
    decreases us
  {
    if us > STALL_CHUNK then [STALL_CHUNK] + StallPlan(us - STALL_CHUNK) else [us]
  }

  function Total(s: seq<int>): int
  {
    if |s| == 0 then 0 else s[0] + Total(s[1..])
  }

  /** max(1, ceil(us / STALL_CHUNK)) */
  function StallCount(us: nat): nat
  {
    if us == 0 then 1 else (us + STALL_CHUNK - 1) / STALL_CHUNK
  }

  /**
   * The plan adds up to the delay; every stall but the last is a whole
   * chunk, the last is at most a chunk (and not zero unless the delay
   * is); and there are max(1, ceil(us / 10000)) of them.
   */
  lemma {:induction false} StallPlanCovers(us: nat)
    ensures Total(StallPlan(us)) == us
    ensures |StallPlan(us)| == StallCount(us)
    ensures forall i :: 0 <= i < |StallPlan(us)| - 1 ==> StallPlan(us)[i] == STALL_CHUNK
    ensures 0 <= StallPlan(us)[|StallPlan(us)| - 1] <= STALL_CHUNK
    ensures us > 0 ==> StallPlan(us)[|StallPlan(us)| - 1] > 0
    decreases us
  {
    if us > STALL_CHUNK {
      StallPlanCovers(us - STALL_CHUNK);
      var rest := StallPlan(us - STALL_CHUNK);
      assert StallPlan(us) == [STALL_CHUNK] + rest;
      assert StallPlan(us)[1..] == rest;
      assert (us + STALL_CHUNK - 1) / STALL_CHUNK == 1 + (us - STALL_CHUNK + STALL_CHUNK - 1) / STALL_CHUNK;
    }
  }

  /** The calls snooze_1 makes for a delay of us microseconds. */
  function StallCalls(us: int): seq<Call>
    decreases us
  {
    if us > STALL_CHUNK then [Stall(STALL_CHUNK)] + StallCalls(us - STALL_CHUNK) else [Stall(us)]
  }

  /** snooze_1's calls are the stalls of the plan, one by one. */
  lemma {:induction false} StallCallsPlan(us: int)
    ensures |StallCalls(us)| == |StallPlan(us)|
    ensures forall i :: 0 <= i < |StallPlan(us)| ==> StallCalls(us)[i] == Stall(StallPlan(us)[i])
    decreases us
  {
    if us > STALL_CHUNK {
      StallCallsPlan(us - STALL_CHUNK);
      assert forall i :: 1 <= i < |StallPlan(us)| ==> StallPlan(us)[i] == StallPlan(us - STALL_CHUNK)[i - 1];
      assert forall i :: 1 <= i < |StallCalls(us)| ==> StallCalls(us)[i] == StallCalls(us - STALL_CHUNK)[i - 1];
    }
  }

  function Last(s: seq<int>): int
    requires |s| > 0
  {
    s[|s| - 1]
  }

  /** snooze_1: stall in chunks; the status of the final stall is the result. */
  method Snooze1(boot: Boot, us: u64) returns (s: Status)
    modifies boot`calls
    ensures boot.calls == old(boot.calls) + StallCalls(us)
    ensures s == boot.stallStatus(Last(StallPlan(us)))
  {
    var left: int := us;
    while left > STALL_CHUNK
      invariant 0 <= left <= us
      invariant old(boot.calls) + StallCalls(us) == boot.calls + StallCalls(left)
      invariant StallPlan(us)[|StallPlan(us)| - 1] == StallPlan(left)[|StallPlan(left)| - 1]
    {
      var _ := boot.DoStall(STALL_CHUNK);
      assert StallCalls(left) == [Stall(STALL_CHUNK)] + StallCalls(left - STALL_CHUNK);
      left := left - STALL_CHUNK;
    }
    s := boot.DoStall(left);
  }

  /** us * 10 in a uint64_t: the relative timer's length in 100 ns units. */
  function Ticks(us: u64): u64
  {
    (us * 10) % U64_MOD
  }

  /** The calls snooze makes before any fallback to stalling. */
  function TimerCalls(boot: Boot, us: u64): seq<Call>
  {
    var create := [CreateEvent(EVT_TIMER, TPL_APPLICATION)];
    if boot.createStatus != SUCCESS then create
    else if boot.setTimerStatus != SUCCESS then create + [SetTimer(TIMER_RELATIVE, Ticks(us)), CloseEvent]
    else create + [SetTimer(TIMER_RELATIVE, Ticks(us)), WaitForEvent(1), CloseEvent]
  }

  /** The timer served the delay: the event was made, armed and waited for. */
  predicate TimerServed(boot: Boot)
  {
    boot.createStatus == SUCCESS && boot.setTimerStatus == SUCCESS && boot.waitStatus == SUCCESS
  }

  function SnoozeCalls(boot: Boot, us: u64): seq<Call>
  {
    TimerCalls(boot, us) + (if TimerServed(boot) then [] else StallCalls(us))
  }

  function SnoozeStatus(boot: Boot, us: u64): Status
  {
    if TimerServed(boot) then boot.closeStatus else boot.stallStatus(Last(StallPlan(us)))
  }

  function CloseCount(cs: seq<Call>): nat
  {
    if |cs| == 0 then 0 else (if cs[0] == CloseEvent then 1 else 0) + CloseCount(cs[1..])
  }

  lemma {:induction false} CloseCountAppend(a: seq<Call>, b: seq<Call>)
    ensures CloseCount(a + b) == CloseCount(a) + CloseCount(b)
    decreases |a|
  {
    if |a| == 0 {
      assert a + b == b;
    } else {
      assert (a + b)[1..] == a[1..] + b;
      CloseCountAppend(a[1..], b);
    }
  }

  lemma {:induction false} NoCloseInStalls(us: int)
    ensures CloseCount(StallCalls(us)) == 0
    decreases us
  {
    if us > STALL_CHUNK {
      NoCloseInStalls(us - STALL_CHUNK);
      CloseCountAppend([Stall(STALL_CHUNK)], StallCalls(us - STALL_CHUNK));
      assert [Stall(STALL_CHUNK)][1..] == [];
    } else {
      assert [Stall(us)][1..] == [];
    }
  }

  /**
   * snooze sleeps for the whole delay one way or the other: either a
   * timer of us microseconds was armed and waited for, or the stalls
   * that follow the timer calls add up to us.
   */
  lemma SnoozeSleeps(boot: Boot, us: u64)
    requires us * 10 < U64_MOD
    ensures TimerServed(boot) ==> SnoozeCalls(boot, us) == [CreateEvent(EVT_TIMER, TPL_APPLICATION), SetTimer(TIMER_RELATIVE, us * 10), WaitForEvent(1), CloseEvent]
    ensures !TimerServed(boot) ==> SnoozeCalls(boot, us)[|TimerCalls(boot, us)|..] == StallCalls(us) && Total(StallPlan(us)) == us
  {
    StallPlanCovers(us);
    if !TimerServed(boot) {
      var t := TimerCalls(boot, us);
      assert (t + StallCalls(us))[|t|..] == StallCalls(us);
    }
  }

  /** snooze closes the event exactly once if it was created, and never otherwise. */
  lemma SnoozeClosesOnce(boot: Boot, us: u64)
    ensures CloseCount(SnoozeCalls(boot, us)) == (if boot.createStatus == SUCCESS then 1 else 0)
  {
    var t := TimerCalls(boot, us);
    var c := CreateEvent(EVT_TIMER, TPL_APPLICATION);
    var st := SetTimer(TIMER_RELATIVE, Ticks(us));
    CloseCountAppend(t, if TimerServed(boot) then [] else StallCalls(us));
    NoCloseInStalls(us);
    assert CloseCount([]) == 0;
    assert CloseCount([c]) == 0 by { assert [c][1..] == []; }
    if boot.createStatus == SUCCESS && boot.setTimerStatus != SUCCESS {
      CloseCountAppend([c], [st, CloseEvent]);
      assert CloseCount([st, CloseEvent]) == 1 by { assert [st, CloseEvent][1..] == [CloseEvent]; assert [CloseEvent][1..] == []; }
    } else if boot.createStatus == SUCCESS {
      CloseCountAppend([c], [st, WaitForEvent(1), CloseEvent]);
      assert CloseCount([st, WaitForEvent(1), CloseEvent]) == 1 by {
        assert [st, WaitForEvent(1), CloseEvent][1..] == [WaitForEvent(1), CloseEvent];
        assert [WaitForEvent(1), CloseEvent][1..] == [CloseEvent];
        assert [CloseEvent][1..] == [];
      }
    }
  }

  /**
   * The timer half of snooze: create the event, arm it and wait for it,
   * closing it on the way out unless it was never created.
   */
  method TimerWait(boot: Boot, us: u64) returns (served: bool, s: Status)
    modifies boot`calls
    ensures boot.calls == old(boot.calls) + TimerCalls(boot, us)
    ensures served == TimerServed(boot) && (served ==> s == boot.closeStatus)
  {
    var st := boot.DoCreateEvent(EVT_TIMER, TPL_APPLICATION);
    if st != SUCCESS {
      return false, st;
    }
    var armed := boot.DoSetTimer(TIMER_RELATIVE, Ticks(us));
    if armed != SUCCESS {
      s := boot.DoCloseEvent();
      return false, s;
    }
    var waited := boot.DoWaitForEvent(1);
    s := boot.DoCloseEvent();
    served := waited == SUCCESS;
  }

  /** snooze: a relative timer event, with snooze_1 as the fallback when creating, arming or waiting fails. */
  method Snooze(boot: Boot, us: u64) returns (s: Status)
    modifies boot`calls
    ensures boot.calls == old(boot.calls) + SnoozeCalls(boot, us)
    ensures s == SnoozeStatus(boot, us)
  {
    var served;
    served, s := TimerWait(boot, us);
    if !served {
      s := Snooze1(boot, us);
    }
  }

  /** The calls of efi_main: one pause after each round. */
  function Repeat(calls: seq<Call>, n: nat): (r: seq<Call>)
  {
    if n == 0 then [] else Repeat(calls, n - 1) + calls
  }

  lemma RepeatStep(start: seq<Call>, calls: seq<Call>, n: nat, before: seq<Call>)
    requires before == start + Repeat(calls, n)
    ensures before + calls == start + Repeat(calls, n + 1)
  {
  }

  /** The first round whose status is not a success. */
  function FirstFailure(attempts: seq<Status>): (k: nat)
    requires exists i :: 0 <= i < |attempts| && attempts[i] != SUCCESS
    ensures k < |attempts| && attempts[k] != SUCCESS && forall i :: 0 <= i < k ==> attempts[i] == SUCCESS
  {
    if attempts[0] != SUCCESS then 0
    else
      assert exists i :: 0 <= i < |attempts[1..]| && attempts[1..][i] != SUCCESS by {
        var i :| 0 <= i < |attempts| && attempts[i] != SUCCESS;
        assert i > 0 && attempts[1..][i - 1] == attempts[i];
      }
      1 + FirstFailure(attempts[1..])
  }

  /**
   * efi_main: try, pause, and try again while the attempt succeeds; after
   * the first failure pause once more and return its status.  attempts
   * holds the status efi_main_1 returns in each round (that of the boot
   * device search); a run that never fails does not return, so one
   * failure is required.
   */
  method EfiMain(boot: Boot, attempts: seq<Status>, pause: u64) returns (status: Status, rounds: nat)
    requires pause == PAUSE_US
    requires exists i :: 0 <= i < |attempts| && attempts[i] != SUCCESS
    modifies boot`calls
    ensures rounds == FirstFailure(attempts) + 1 && status == attempts[rounds - 1] && status != SUCCESS
    ensures boot.calls == old(boot.calls) + Repeat(SnoozeCalls(boot, pause), rounds + 1)
  {
    ghost var start := boot.calls;
    ghost var pauseCalls := SnoozeCalls(boot, pause);
    rounds := 0;
    status := SUCCESS;
    while rounds == 0 || status == SUCCESS
      invariant rounds <= FirstFailure(attempts) + 1
      invariant rounds > 0 ==> status == attempts[rounds - 1]
      invariant forall i :: 0 <= i < rounds - 1 ==> attempts[i] == SUCCESS
      invariant boot.calls == start + Repeat(pauseCalls, rounds)
      decreases |attempts| - rounds
    {
      status := attempts[rounds];
      ghost var before := boot.calls;
      var _ := Snooze(boot, pause);
      RepeatStep(start, pauseCalls, rounds, before);
      rounds := rounds + 1;
    }
    ghost var before := boot.calls;
    var _ := Snooze(boot, pause);
    RepeatStep(start, pauseCalls, rounds, before);
  }
}
