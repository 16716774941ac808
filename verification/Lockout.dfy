/** The login lockout: the failure counter and the end of the lockout that password logins and
    the confirmation of an OAuth link share. Times are in minutes. */
module Lockout {
  import opened Basics

  datatype UserStatus = PendingUser | Active | Blocked

  function LockoutDuration(failedCount: nat): Option<nat> {
    if failedCount >= 20 then Some(60)
    else if failedCount >= 10 then Some(15)
    else if failedCount >= 5 then Some(5)
    else None
  }

  function LockoutUntil(failedCount: nat, now: int): Option<int> {
    if LockoutDuration(failedCount).None? then None else Some(now + LockoutDuration(failedCount).value)
  }

  // The stored fields of one account.
  datatype Account = Account(status: UserStatus, hasPassword: bool, failed: nat, lockedUntil: Option<int>)

  predicate LockedAt(a: Account, now: int) {
    a.lockedUntil.Some? && a.lockedUntil.value > now
  }

  // One attempt, at a time; `correct` is what checking the password would say.
  datatype Attempt =
    | Login(now: int, correct: bool)
    | ConfirmLink(now: int, correct: bool)

  /** Whether the attempt gets as far as checking the password. */
  predicate Checks(a: Account, t: Attempt) {
    match t
    case Login(now, _) => !LockedAt(a, now)
    case ConfirmLink(now, _) => !a.status.Blocked? && !LockedAt(a, now) && a.hasPassword
  }

  predicate CheckedWrong(a: Account, t: Attempt) {
    Checks(a, t) && !t.correct
  }

  /** Whether the attempt sets the counter back. */
  predicate Resets(a: Account, t: Attempt) {
    Checks(a, t) && t.correct && (t.Login? ==> a.status.Active?)
  }

  function Step(a: Account, t: Attempt): Account {
    if CheckedWrong(a, t) then a.(failed := a.failed + 1, lockedUntil := LockoutUntil(a.failed + 1, t.now))
    else if Resets(a, t) then a.(failed := 0, lockedUntil := None)
    else a
  }

  class Users {
    var row: Account

    constructor (row: Account)
      ensures this.row == row
    {
      this.row := row;
    }

    /** An account created without a password has an empty hash, which no password matches. */
    method Login(now: int, correct: bool) returns (session: bool)
      modifies this
      ensures row == Step(old(row), Attempt.Login(now, correct))
      ensures session <==> Resets(old(row), Attempt.Login(now, correct))
      ensures session <==> correct && old(row).status.Active? &&
                           (old(row).lockedUntil.Some? ==> old(row).lockedUntil.value <= now)
      ensures correct && !session ==> row == old(row)
      ensures session ==> row == old(row).(failed := 0, lockedUntil := None)
      ensures old(row).lockedUntil.Some? && old(row).lockedUntil.value > now ==> row == old(row)
    {
      if row.lockedUntil.Some? && row.lockedUntil.value > now { return false; }
      if !correct {
        var newCount := row.failed + 1;
        row := row.(failed := newCount, lockedUntil := LockoutUntil(newCount, now));
        return false;
      }
      if row.status.PendingUser? || row.status.Blocked? { return false; }
      row := row.(failed := 0, lockedUntil := None);
      session := true;
    }

    method ConfirmOAuthLink(now: int, correct: bool) returns (linked: bool)
      modifies this
      ensures row == Step(old(row), ConfirmLink(now, correct))
      ensures linked <==> Resets(old(row), ConfirmLink(now, correct))
      ensures linked <==> correct && old(row).hasPassword && !old(row).status.Blocked? &&
                          (old(row).lockedUntil.Some? ==> old(row).lockedUntil.value <= now)
      ensures linked ==> row == old(row).(failed := 0, lockedUntil := None)
      ensures !linked && (correct || !old(row).hasPassword || old(row).status.Blocked?) ==> row == old(row)
      ensures old(row).lockedUntil.Some? && old(row).lockedUntil.value > now ==> row == old(row)
    {
      if row.status.Blocked? { return false; }
      if row.lockedUntil.Some? && row.lockedUntil.value > now { return false; }
      if !row.hasPassword { return false; }
      if !correct {
        var newCount := row.failed + 1;
        row := row.(failed := newCount, lockedUntil := LockoutUntil(newCount, now));
        return false;
      }
      row := row.(failed := 0, lockedUntil := None);
      linked := true;
    }
  }

  /** A checked wrong password counts one failure and locks by the new count; nothing else but a reset
      changes the account, and no attempt its status or whether it has a password. */
  lemma StepSpelledOut(a: Account, t: Attempt)
    ensures Step(a, t).status == a.status && Step(a, t).hasPassword == a.hasPassword
    ensures (a.lockedUntil.Some? && a.lockedUntil.value > t.now) ==> Step(a, t) == a
    ensures !t.correct && !(a.lockedUntil.Some? && a.lockedUntil.value > t.now)
            && (t.ConfirmLink? ==> !a.status.Blocked? && a.hasPassword) ==>
              && Step(a, t).failed == a.failed + 1
              && Step(a, t).lockedUntil == var n := a.failed + 1;
                   if n < 5 then None else Some(t.now + if n < 10 then 5 else if n < 20 then 15 else 60)
  {}

  // ---- Runs between two resets ----

  function Run(a: Account, ts: seq<Attempt>): Account {
    if ts == [] then a else Step(Run(a, ts[..|ts| - 1]), ts[|ts| - 1])
  }

  ghost predicate InOrder(ts: seq<Attempt>) {
    forall i, j :: 0 <= i < j < |ts| ==> ts[i].now <= ts[j].now
  }

  ghost predicate NoReset(a: Account, ts: seq<Attempt>) {
    forall k :: 0 <= k < |ts| ==> !Resets(Run(a, ts[..k]), ts[k])
  }

  ghost predicate OnlyLogins(ts: seq<Attempt>) {
    forall k :: 0 <= k < |ts| ==> ts[k].Login?
  }

  /** An account that is not active gets no session and no reset from any sequence of logins: its
      counter only grows, and its status stays. */
  lemma {:induction false} InactiveGetsNoSession(a: Account, ts: seq<Attempt>)
    requires !a.status.Active? && OnlyLogins(ts)
    ensures NoReset(a, ts) && Run(a, ts).status == a.status && Run(a, ts).failed >= a.failed
  {
    if ts != [] {
      var init := ts[..|ts| - 1];
      InactiveGetsNoSession(a, init);
      StepSpelledOut(Run(a, init), ts[|ts| - 1]);
      forall k | 0 <= k < |ts| ensures !Resets(Run(a, ts[..k]), ts[k]) {
        if k < |init| {
          assert init[..k] == ts[..k] && init[k] == ts[k];
        } else {
          assert ts[..k] == init && ts[k].Login?;
        }
      }
    }
  }

  /** When the checked wrong passwords came. */
  function WrongTimes(a: Account, ts: seq<Attempt>): seq<int> {
    if ts == [] then [] else
      var init, last := ts[..|ts| - 1], ts[|ts| - 1];
      WrongTimes(a, init) + (if CheckedWrong(Run(a, init), last) then [last.now] else [])
  }

  /** The lockouts that failures 1 to `n` cause, added up. */
  function LockedTotal(n: nat): nat {
    if n == 0 then 0 else
      LockedTotal(n - 1) + (if LockoutDuration(n).Some? then LockoutDuration(n).value else 0)
  }

  ghost predicate SpacedFailures(times: seq<int>) {
    forall i :: 0 <= i < |times| ==> times[0] + LockedTotal(i) <= times[i]
  }

  lemma NextFailure(times: seq<int>, t: int)
    requires SpacedFailures(times)
    requires times != [] ==> times[|times| - 1] <= t
    requires times != [] && LockoutUntil(|times|, times[|times| - 1]).Some? ==>
             LockoutUntil(|times|, times[|times| - 1]).value <= t
    ensures SpacedFailures(times + [t])
  {
    if times != [] {
      assert times[0] + LockedTotal(|times| - 1) <= times[|times| - 1];
      assert LockedTotal(|times|) == LockedTotal(|times| - 1)
          + (if LockoutDuration(|times|).Some? then LockoutDuration(|times|).value else 0);
    }
  }

  /** The stored fields say how many failures there were and when the last lockout ends. */
  ghost predicate Tracks(r: Account, times: seq<int>) {
    && r.failed == |times|
    && r.lockedUntil == if times == [] then None else LockoutUntil(|times|, times[|times| - 1])
  }

  lemma {:induction false} RunInv(a: Account, ts: seq<Attempt>)
    requires a.failed == 0 && a.lockedUntil.None?
    requires InOrder(ts) && NoReset(a, ts)
    ensures Tracks(Run(a, ts), WrongTimes(a, ts)) && SpacedFailures(WrongTimes(a, ts))
    ensures var times := WrongTimes(a, ts); times != [] ==> ts != [] && times[|times| - 1] <= ts[|ts| - 1].now
  {
    if ts != [] {
      var init, last := ts[..|ts| - 1], ts[|ts| - 1];
      assert NoReset(a, init) by {
        forall k | 0 <= k < |init| ensures !Resets(Run(a, init[..k]), init[k]) {
          assert init[..k] == ts[..k];
        }
      }
      RunInv(a, init);
      var times := WrongTimes(a, init);
      assert init != [] ==> init[|init| - 1].now <= last.now;
      assert !Resets(Run(a, init), last);
      if CheckedWrong(Run(a, init), last) {
        NextFailure(times, last.now);
      }
    }
  }

  /** Between two resets, over every mix of logins and link confirmations in order of time:
      the n-th checked wrong password comes no earlier than the first plus all lockouts in between. */
  lemma FailuresWaitOutLockouts(a: Account, ts: seq<Attempt>, n: nat)
    requires a.failed == 0 && a.lockedUntil.None?
    requires InOrder(ts) && NoReset(a, ts)
    requires 1 <= n <= |WrongTimes(a, ts)|
    ensures WrongTimes(a, ts)[n - 1] >= WrongTimes(a, ts)[0] + LockedTotal(n - 1)
  {
    RunInv(a, ts);
  }

  /** The schedule: five lockouts of 5 minutes, ten of 15, then one hour each. */
  lemma {:induction false} Schedule(n: nat)
    ensures n <= 4 ==> LockedTotal(n) == 0
    ensures 4 <= n <= 9 ==> LockedTotal(n) == 5 * (n - 4)
    ensures 9 <= n <= 19 ==> LockedTotal(n) == 25 + 15 * (n - 9)
    ensures n >= 19 ==> LockedTotal(n) == 175 + 60 * (n - 19)
  {
    if n > 0 {
      Schedule(n - 1);
    }
  }

  /** So the n-th wrong password, for n >= 20, comes at least 175 + 60 * (n - 20) minutes after the first. */
  lemma GuessingRate(a: Account, ts: seq<Attempt>, n: nat)
    requires a.failed == 0 && a.lockedUntil.None?
    requires InOrder(ts) && NoReset(a, ts)
    requires 20 <= n <= |WrongTimes(a, ts)|
    ensures WrongTimes(a, ts)[n - 1] >= WrongTimes(a, ts)[0] + 175 + 60 * (n - 20)
  {
    FailuresWaitOutLockouts(a, ts, n);
    Schedule(n - 1);
  }

  /** The bound is met exactly by a caller who retries as soon as each lockout ends. */
  function Patient(n: nat): seq<Attempt> {
    if n == 0 then [] else Patient(n - 1) + [Attempt.Login(LockedTotal(n - 1), false)]
  }

  lemma {:induction false} PatientMeetsBound(a: Account, n: nat)
    requires a.failed == 0 && a.lockedUntil.None?
    ensures |WrongTimes(a, Patient(n))| == n
    ensures n > 0 ==> WrongTimes(a, Patient(n))[n - 1] == LockedTotal(n - 1)
    ensures var r := Run(a, Patient(n));
            r.failed == n && (n > 0 ==> r.lockedUntil == LockoutUntil(n, LockedTotal(n - 1))) && (n == 0 ==> r == a)
  {
    if n > 0 {
      PatientMeetsBound(a, n - 1);
      assert Patient(n)[..|Patient(n)| - 1] == Patient(n - 1);
    }
  }
}
