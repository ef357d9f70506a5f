/** Signing in (editor-mode/src/editor/accounts.py, `authenticate`): five wrong
    passwords lock an account for fifteen minutes. Times are in microseconds. */
module Lockout {
  import opened Common

  const MAX_FAILED: nat := 5

  /** Fifteen minutes. */
  function Lock(): int { 900_000_000 }

  datatype User = User(
    disabled: bool,
    passwordHash: Option<string>,
    failedLogins: nat,
    lockedUntil: Option<int>)

  /** One attempt: the address as normalised (None: malformed). */
  datatype Attempt = Attempt(address: Option<string>, password: string, at: int)

  datatype Outcome = SignedIn(address: string) | Refused | Locked

  type Users = map<string, User>
  type Verify = (string, string) -> bool

  predicate CanSignIn(users: Users, address: Option<string>) {
    && address.Some? && address.value in users
    && !users[address.value].disabled
    && users[address.value].passwordHash.Some? && users[address.value].passwordHash.value != ""
  }

  predicate IsLocked(u: User, now: int) { u.lockedUntil.Some? && u.lockedUntil.value > now }

  predicate Right(verify: Verify, u: User, password: string)
    requires u.passwordHash.Some?
  {
    verify(password, u.passwordHash.value)
  }

  /** The account after a wrong password was checked. */
  function Failed(u: User, now: int): User {
    if u.failedLogins + 1 >= MAX_FAILED then u.(failedLogins := 0, lockedUntil := Some(now + Lock()))
    else u.(failedLogins := u.failedLogins + 1)
  }

  function Step(verify: Verify, users: Users, a: Attempt): Users {
    if !CanSignIn(users, a.address) then users
    else
      var u := users[a.address.value];
      if IsLocked(u, a.at) then users
      else if Right(verify, u, a.password) then users[a.address.value := u.(failedLogins := 0, lockedUntil := None)]
      else users[a.address.value := Failed(u, a.at)]
  }

  function Answer(verify: Verify, users: Users, a: Attempt): Outcome {
    if !CanSignIn(users, a.address) then Refused
    else if IsLocked(users[a.address.value], a.at) then Locked
    else if Right(verify, users[a.address.value], a.password) then SignedIn(a.address.value) else Refused
  }

  /** Who gets in: an account that is there, is not disabled and has a password,
      whose lock, if any, is over, with the password that fits its hash; that
      clears its failures and its lock. While the lock lasts even the right
      password is turned away and nothing changes. */
  lemma {:induction false} SignInExactly(verify: Verify, users: Users, a: Attempt, name: string)
    ensures Answer(verify, users, a) == SignedIn(name) <==>
            && a.address == Some(name) && name in users && !users[name].disabled
            && users[name].passwordHash.Some? && users[name].passwordHash.value != ""
            && (users[name].lockedUntil.Some? ==> users[name].lockedUntil.value <= a.at)
            && verify(a.password, users[name].passwordHash.value)
    ensures Answer(verify, users, a) == SignedIn(name) ==>
              Step(verify, users, a) == users[name := users[name].(failedLogins := 0, lockedUntil := None)]
    ensures Answer(verify, users, a) == Locked <==> (
            && a.address.Some? && a.address.value in users && !users[a.address.value].disabled
            && users[a.address.value].passwordHash.Some? && users[a.address.value].passwordHash.value != ""
            && users[a.address.value].lockedUntil.Some? && users[a.address.value].lockedUntil.value > a.at)
    ensures Answer(verify, users, a) == Locked ==> Step(verify, users, a) == users
  {
  }

  /** A password is compared, and found wrong. */
  predicate ChecksWrong(verify: Verify, users: Users, a: Attempt) {
    && CanSignIn(users, a.address) && !IsLocked(users[a.address.value], a.at)
    && !Right(verify, users[a.address.value], a.password)
  }

  class Accounts {
    const verify: Verify
    var users: Users

    constructor (verify: Verify, users: Users)
      ensures this.verify == verify && this.users == users
    {
      this.verify, this.users := verify, users;
    }

    method Authenticate(a: Attempt) returns (outcome: Outcome)
      modifies this
      ensures users == Step(verify, old(users), a)
      ensures outcome == Answer(verify, old(users), a)
    {
      if a.address.None? { return Refused; }
      if a.address.value !in users { return Refused; }
      var u := users[a.address.value];
      if u.disabled || u.passwordHash.None? || u.passwordHash.value == "" { return Refused; }
      if u.lockedUntil.Some? && u.lockedUntil.value > a.at { return Locked; }
      if verify(a.password, u.passwordHash.value) {
        users := users[a.address.value := u.(failedLogins := 0, lockedUntil := None)];
        return SignedIn(a.address.value);
      }
      var failed := u.failedLogins + 1;
      if failed >= MAX_FAILED {
        users := users[a.address.value := u.(failedLogins := 0, lockedUntil := Some(a.at + Lock()))];
      } else {
        users := users[a.address.value := u.(failedLogins := failed)];
      }
      outcome := Refused;
    }
  }

  // ----- runs of attempts -------------------------------------------------------------------

  function After(verify: Verify, users: Users, run: seq<Attempt>): Users {
    if run == [] then users
    else Step(verify, After(verify, users, run[..|run| - 1]), run[|run| - 1])
  }

  /** When wrong passwords were checked on one account. */
  function WrongTimes(verify: Verify, users: Users, run: seq<Attempt>, account: string): seq<int> {
    if run == [] then []
    else
      var rest, a := run[..|run| - 1], run[|run| - 1];
      WrongTimes(verify, users, rest, account)
      + (if a.address == Some(account) && ChecksWrong(verify, After(verify, users, rest), a) then [a.at] else [])
  }

  /** The clock never goes back. */
  ghost predicate Ordered(run: seq<Attempt>) {
    forall i, j :: 0 <= i < j < |run| ==> run[i].at <= run[j].at
  }

  /** Nobody gets into the account with these passwords. */
  ghost predicate OnlyWrong(verify: Verify, users: Users, run: seq<Attempt>, account: string) {
    forall i :: 0 <= i < |run| && run[i].address == Some(account) && CanSignIn(users, run[i].address) ==>
      !Right(verify, users[account], run[i].password)
  }

  /** What the account is, apart from its failures, never changes. */
  lemma {:induction false} SameAccount(verify: Verify, users: Users, run: seq<Attempt>, account: string)
    ensures var after := After(verify, users, run);
            && after.Keys == users.Keys
            && (account in users ==> after[account].disabled == users[account].disabled)
            && (account in users ==> after[account].passwordHash == users[account].passwordHash)
  {
    if run != [] {
      SameAccount(verify, users, run[..|run| - 1], account);
    }
  }

  /** Attempts on other accounts do not touch it. */
  lemma {:induction false} OthersLeaveItAlone(verify: Verify, users: Users, run: seq<Attempt>, account: string)
    requires account in users && forall i :: 0 <= i < |run| ==> run[i].address != Some(account)
    ensures account in After(verify, users, run) && After(verify, users, run)[account] == users[account]
  {
    if run != [] {
      OthersLeaveItAlone(verify, users, run[..|run| - 1], account);
    }
  }

  ghost predicate Sorted(times: seq<int>) { forall i, j :: 0 <= i < j < |times| ==> times[i] <= times[j] }

  /** The sixth of any six is a lock later than the first. */
  ghost predicate Spaced(times: seq<int>) {
    forall i :: 0 <= i < |times| - 5 ==> times[i] + Lock() <= times[i + 5]
  }

  /** Where the account stands: before its first lock, every wrong password is
      among its failures; after one, the failures are those since the last. */
  ghost predicate Tracks(u: User, times: seq<int>) {
    var n, f := |times|, u.failedLogins;
    || (n <= f && (n > 0 ==> f < MAX_FAILED))
    || (f < MAX_FAILED && f < n && u.lockedUntil == Some(times[n - 1 - f] + Lock()))
  }

  lemma {:induction false} OneMoreWrong(u: User, times: seq<int>, now: int)
    requires Sorted(times) && Spaced(times) && Tracks(u, times)
    requires !IsLocked(u, now) && forall i :: 0 <= i < |times| ==> times[i] <= now
    ensures Sorted(times + [now]) && Spaced(times + [now]) && Tracks(Failed(u, now), times + [now])
  {
    var n := |times|;
    if n >= 5 {
      assert times[n - 5] <= times[n - 1 - u.failedLogins];
    }
  }

  lemma {:induction false} WrongOnesAreSpaced(verify: Verify, users: Users, run: seq<Attempt>, account: string)
    requires Ordered(run) && account in users && OnlyWrong(verify, users, run, account)
    ensures var times := WrongTimes(verify, users, run, account);
            && Sorted(times) && Spaced(times)
            && (forall i :: 0 <= i < |times| ==> run != [] && times[i] <= run[|run| - 1].at)
            && account in After(verify, users, run) && Tracks(After(verify, users, run)[account], times)
  {
    hide Sorted, Spaced, Tracks, IsLocked, Right;
    if run == [] {
      NoneYet(users[account]);
    } else {
      var rest, a := run[..|run| - 1], run[|run| - 1];
      RestIsOrdered(verify, users, run, account);
      WrongOnesAreSpaced(verify, users, rest, account);
      SameAccount(verify, users, rest, account);
      var before, times := After(verify, users, rest), WrongTimes(verify, users, rest, account);
      hide CanSignIn, After, WrongTimes, OnlyWrong;
      OneMoreTime(verify, users, run, account);
      if a.address == Some(account) && ChecksWrong(verify, before, a) {
        OneMoreWrong(before[account], times, a.at);
      } else {
        StepKeepsOthers(verify, users, before, a, account);
      }
    }
  }

  lemma {:induction false} RestIsOrdered(verify: Verify, users: Users, run: seq<Attempt>, account: string)
    requires run != [] && Ordered(run) && OnlyWrong(verify, users, run, account)
    ensures var rest, a := run[..|run| - 1], run[|run| - 1];
            && Ordered(rest) && OnlyWrong(verify, users, rest, account)
            && (rest != [] ==> rest[|rest| - 1].at <= a.at)
  {
  }

  lemma {:induction false} OneMoreTime(verify: Verify, users: Users, run: seq<Attempt>, account: string)
    requires run != []
    ensures var rest, a := run[..|run| - 1], run[|run| - 1];
            var before, times := After(verify, users, rest), WrongTimes(verify, users, rest, account);
            && After(verify, users, run) == Step(verify, before, a)
            && WrongTimes(verify, users, run, account) ==
                 (if a.address == Some(account) && ChecksWrong(verify, before, a) then times + [a.at] else times)
  {
  }

  lemma NoneYet(u: User)
    ensures Sorted([]) && Spaced([]) && Tracks(u, [])
  {
  }

  lemma StepKeepsOthers(verify: Verify, users: Users, before: Users, a: Attempt, account: string)
    requires account in before && account in users && before.Keys == users.Keys
    requires before[account].disabled == users[account].disabled
    requires before[account].passwordHash == users[account].passwordHash
    requires a.address == Some(account) && CanSignIn(users, a.address) ==> !Right(verify, users[account], a.password)
    requires !(a.address == Some(account) && ChecksWrong(verify, before, a))
    ensures account in Step(verify, before, a) && Step(verify, before, a)[account] == before[account]
  {
  }

  lemma {:induction false} SpacedFarther(times: seq<int>, i: nat, k: nat)
    requires Spaced(times) && i + 5 * k < |times|
    ensures times[i] + 900_000_000 * k <= times[i + 5 * k]
  {
    if k > 0 {
      SpacedFarther(times, i, k - 1);
      assert times[i + 5 * (k - 1)] + Lock() <= times[i + 5 * (k - 1) + 5];
    }
  }

  /** How many of the times lie in a closed window. */
  function CountIn(times: seq<int>, first: int, last: int): nat {
    if times == [] then 0
    else CountIn(times[..|times| - 1], first, last) + (if first <= times[|times| - 1] <= last then 1 else 0)
  }

  lemma {:induction false} WindowEnds(times: seq<int>, first: int, last: int) returns (i: nat, j: nat)
    requires CountIn(times, first, last) > 0
    ensures i <= j < |times| && first <= times[i] && times[j] <= last
    ensures CountIn(times, first, last) <= j - i + 1
  {
    var n := |times| - 1;
    if CountIn(times[..n], first, last) > 0 {
      i, j := WindowEnds(times[..n], first, last);
      if first <= times[n] <= last {
        j := n;
      }
    } else {
      i, j := n, n;
    }
  }

  /** Guessing is slow: over any attempts at non-decreasing times, none of them
      right, at most 5 × (⌊length / 15 minutes⌋ + 1) wrong passwords are compared
      on an account in a closed window, whatever its failures and lock before. */
  lemma {:induction false} WrongPasswordsBounded(
    verify: Verify, users: Users, run: seq<Attempt>, account: string, start: int, length: nat)
    requires Ordered(run) && account in users && OnlyWrong(verify, users, run, account)
    ensures CountIn(WrongTimes(verify, users, run, account), start, start + length) <= 5 * (length / 900_000_000 + 1)
  {
    hide CountIn, WrongTimes, Ordered, OnlyWrong, Tracks, After, Sorted, Spaced;
    var times := WrongTimes(verify, users, run, account);
    WrongOnesAreSpaced(verify, users, run, account);
    if CountIn(times, start, start + length) > 0 {
      var i, j := WindowEnds(times, start, start + length);
      FewInWindow(times, i, j, length);
    }
  }

  lemma {:induction false} FewInWindow(times: seq<int>, i: nat, j: nat, length: nat)
    requires Sorted(times) && Spaced(times) && i <= j < |times| && times[j] - times[i] <= length
    ensures j - i < 5 * (length / 900_000_000 + 1)
  {
    var k := length / 900_000_000 + 1;
    if j - i >= 5 * k {
      assert times[i + 5 * k] <= times[j];
      hide Sorted, Spaced;
      SpacedFarther(times, i, k);
    }
  }

  /** `n` attempts: five at once, and five more whenever the lock ends. */
  function Bursts(account: string, password: string, n: nat): seq<Attempt> {
    seq(n, i requires 0 <= i < n => Attempt(Some(account), password, 900_000_000 * (i / 5)))
  }

  function BurstUser(u: User, n: nat): User {
    u.(failedLogins := n % 5, lockedUntil := if n < 5 then None else Some(900_000_000 * (n / 5)))
  }

  lemma BurstStep(u: User, n: nat)
    ensures !IsLocked(BurstUser(u, n), 900_000_000 * (n / 5))
    ensures Failed(BurstUser(u, n), 900_000_000 * (n / 5)) == BurstUser(u, n + 1)
  {
  }

  lemma {:induction false} BurstsAreChecked(verify: Verify, users: Users, account: string, password: string, n: nat)
    requires CanSignIn(users, Some(account)) && !Right(verify, users[account], password)
    requires users[account].failedLogins == 0 && users[account].lockedUntil.None?
    ensures var run := Bursts(account, password, n);
            var after, times := After(verify, users, run), WrongTimes(verify, users, run, account);
            && |times| == n && (forall i :: 0 <= i < n ==> times[i] == 900_000_000 * (i / 5))
            && account in after && after[account] == BurstUser(users[account], n)
  {
    var run := Bursts(account, password, n);
    if n > 0 {
      assert run[..n - 1] == Bursts(account, password, n - 1);
      BurstsAreChecked(verify, users, account, password, n - 1);
      hide After, WrongTimes, Bursts, IsLocked, Failed;
      BurstStep(users[account], n - 1);
      OneMoreTime(verify, users, run, account);
    }
  }

  lemma {:induction false} CountAll(times: seq<int>, first: int, last: int)
    requires forall i :: 0 <= i < |times| ==> first <= times[i] <= last
    ensures CountIn(times, first, last) == |times|
  {
    if times != [] {
      CountAll(times[..|times| - 1], first, last);
    }
  }

  /** The bound is reached: from an account without failures or lock, all of
      these attempts are compared, 5 × (k + 1) in a window of k locks. */
  lemma {:induction false} BoundIsReached(verify: Verify, users: Users, account: string, password: string, k: nat)
    requires CanSignIn(users, Some(account)) && !Right(verify, users[account], password)
    requires users[account].failedLogins == 0 && users[account].lockedUntil.None?
    ensures var run := Bursts(account, password, 5 * (k + 1));
            && Ordered(run) && OnlyWrong(verify, users, run, account)
            && CountIn(WrongTimes(verify, users, run, account), 0, 900_000_000 * k) == 5 * (k + 1)
  {
    hide After, WrongTimes;
    BurstsAreChecked(verify, users, account, password, 5 * (k + 1));
    CountAll(WrongTimes(verify, users, Bursts(account, password, 5 * (k + 1)), account), 0, 900_000_000 * k);
  }

  /** No account stays locked: in any run on an account that starts unlocked, an
      attempt a lock's length after the last is compared again, so the right
      password gets in. */
  lemma {:induction false} LockEnds(verify: Verify, users: Users, run: seq<Attempt>, account: string, now: int)
    requires account in users && !IsLocked(users[account], now)
    requires forall i :: 0 <= i < |run| ==> run[i].at + Lock() <= now
    ensures account in After(verify, users, run) && !IsLocked(After(verify, users, run)[account], now)
  {
    if run != [] {
      LockEnds(verify, users, run[..|run| - 1], account, now);
    }
  }
}
