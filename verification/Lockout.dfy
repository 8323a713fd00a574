/**
 Account lockout after failed logins. Time is in seconds and passed in; recording a failure
 reads the clock twice, once to check the lock and once to stamp it.
 */
module Lockout {
  import opened Options

  const MAX_FAILED_ATTEMPTS: nat := 5
  const LOCKOUT_DURATION: nat := 15 * 60

  datatype Entry = Entry(failedAttempts: nat, lockedUntil: Option<int>)

  type Accounts = map<string, Entry>

  datatype Event =
    | Failure(userID: string, at: int, stamp: int)
    | Check(userID: string, at: int)
    | Reset(userID: string)

  predicate Locked(accounts: Accounts, userID: string, now: int) {
    userID in accounts && accounts[userID].lockedUntil.Some? && now < accounts[userID].lockedUntil.value
  }

  function FailedAttempts(accounts: Accounts, userID: string): nat {
    if userID in accounts then accounts[userID].failedAttempts else 0
  }

  function After(accounts: Accounts, e: Event): Accounts {
    match e
    case Failure(u, at, stamp) =>
      if Locked(accounts, u, at) then accounts
      else
        var n := FailedAttempts(accounts, u) + 1;
        var until := if n >= MAX_FAILED_ATTEMPTS then Some(stamp + LOCKOUT_DURATION)
                     else if u in accounts then accounts[u].lockedUntil else None;
        accounts[u := Entry(n, until)]
    case Check(_, _) => accounts
    case Reset(u) => accounts - {u}
  }

  class LockoutManager {
    var accounts: Accounts

    constructor ()
      ensures accounts == map[]
    {
      accounts := map[];
    }

    method RecordFailedAttempt(userID: string, now: int, stamp: int) returns (status: nat)
      modifies this
      ensures accounts == After(old(accounts), Failure(userID, now, stamp))
      ensures status == if Locked(old(accounts), userID, now) || accounts[userID].failedAttempts >= 5 then 429 else 401
    {
      var entry := Entry(0, None);
      if userID in accounts {
        entry := accounts[userID];
      }
      if entry.lockedUntil.Some? && now < entry.lockedUntil.value {
        return 429;
      }
      entry := entry.(failedAttempts := entry.failedAttempts + 1);
      if entry.failedAttempts >= MAX_FAILED_ATTEMPTS {
        entry := entry.(lockedUntil := Some(stamp + LOCKOUT_DURATION));
      }
      accounts := accounts[userID := entry];
      return if entry.failedAttempts >= MAX_FAILED_ATTEMPTS then 429 else 401;
    }

    method CheckLockout(userID: string, now: int) returns (status: nat)
      ensures status == if Locked(accounts, userID, now) then 429 else 0
    {
      if userID !in accounts {
        return 0;
      }
      var entry := accounts[userID];
      if entry.lockedUntil.Some? && now < entry.lockedUntil.value {
        return 429;
      }
      return 0;
    }

    method ResetAttempts(userID: string)
      modifies this
      ensures accounts == After(old(accounts), Reset(userID))
    {
      accounts := accounts - {userID};
    }
  }

  // ----- Histories -----

  function Run(h: seq<Event>): Accounts {
    if h == [] then map[] else After(Run(h[..|h| - 1]), h[|h| - 1])
  }

  // The times of the failures of an account that were counted.
  function Counted(h: seq<Event>, u: string): seq<int> {
    if h == [] then []
    else
      var earlier, e := h[..|h| - 1], h[|h| - 1];
      Counted(earlier, u) +
        if e.Failure? && e.userID == u && !Locked(Run(earlier), u, e.at) then [e.at] else []
  }

  // The lock is stamped no earlier than it was checked, and the account was never reset.
  ghost predicate Watched(h: seq<Event>, u: string) {
    forall i :: 0 <= i < |h| && !h[i].Check? && h[i].userID == u ==> h[i].Failure? && h[i].at <= h[i].stamp
  }

  // From the fifth counted failure on, each next one is at least a lockout later.
  ghost predicate Spaced(times: seq<int>) {
    forall k :: 5 <= k < |times| ==> times[k - 1] + 15 * 60 <= times[k]
  }

  lemma {:induction false} CountedAreSpaced(h: seq<Event>, u: string)
    requires Watched(h, u)
    ensures Spaced(Counted(h, u))
    ensures FailedAttempts(Run(h), u) == |Counted(h, u)|
    ensures |Counted(h, u)| >= 5 ==>
              && u in Run(h) && Run(h)[u].lockedUntil.Some?
              && Counted(h, u)[|Counted(h, u)| - 1] + 15 * 60 <= Run(h)[u].lockedUntil.value
    ensures |Counted(h, u)| < 5 ==> u !in Run(h) || Run(h)[u].lockedUntil.None?
  {
    if h != [] {
      CountedAreSpaced(h[..|h| - 1], u);
    }
  }

  // Without a reset, nobody is locked out before the fifth counted failure.
  lemma FourFailuresDoNotLock(h: seq<Event>, u: string, now: int)
    requires Watched(h, u) && Locked(Run(h), u, now)
    ensures |Counted(h, u)| >= 5
  {
    CountedAreSpaced(h, u);
  }

  lemma {:induction false} SpacedSpans(times: seq<int>, i: nat, j: nat)
    requires Spaced(times) && 4 <= i <= j < |times|
    ensures times[j] - times[i] >= (j - i) * (15 * 60)
  {
    if i < j {
      SpacedSpans(times, i, j - 1);
    }
  }

  // Without a reset, n >= 5 counted failures span at least (n - 5) lockouts from the fifth on.
  lemma FailuresTakeTime(h: seq<Event>, u: string)
    requires Watched(h, u) && |Counted(h, u)| >= 5
    ensures var t := Counted(h, u); t[|t| - 1] - t[4] >= (|t| - 5) * (15 * 60)
  {
    CountedAreSpaced(h, u);
    SpacedSpans(Counted(h, u), 4, |Counted(h, u)| - 1);
  }

  // A failure during a lock neither counts nor extends it: leaving it out changes nothing.
  lemma {:induction false} LockedFailureIsIgnored(h: seq<Event>, u: string, at: int, stamp: int, later: seq<Event>)
    requires Locked(Run(h), u, at)
    ensures Run(h + [Failure(u, at, stamp)] + later) == Run(h + later)
  {
    var with := h + [Failure(u, at, stamp)];
    if later == [] {
      assert with + later == with && h + later == h && with[..|h|] == h;
    } else {
      var l' := later[..|later| - 1];
      assert (with + later)[..|with + later| - 1] == with + l' && (h + later)[..|h + later| - 1] == h + l';
      LockedFailureIsIgnored(h, u, at, stamp, l');
    }
  }

  // A reset starts the account afresh: whatever follows, it stands as if nothing had been before.
  lemma {:induction false} ResetForgets(h: seq<Event>, u: string, later: seq<Event>)
    ensures u in Run(h + [Reset(u)] + later) <==> u in Run(later)
    ensures u in Run(later) ==> Run(h + [Reset(u)] + later)[u] == Run(later)[u]
  {
    var since := h + [Reset(u)];
    if later == [] {
      assert since + later == since && since[..|h|] == h;
    } else {
      var l', e := later[..|later| - 1], later[|later| - 1];
      assert (since + later)[..|since + later| - 1] == since + l' && (since + later)[|since + later| - 1] == e;
      ResetForgets(h, u, l');
    }
  }

  // The account is locked until then at least, and stays at its maximum of failures.
  ghost predicate LockedUntil(accounts: Accounts, u: string, until: int) {
    && u in accounts && accounts[u].failedAttempts >= 5
    && accounts[u].lockedUntil.Some? && until <= accounts[u].lockedUntil.value
  }

  // The fifth counted failure, and every counted one after it, locks the account from its
  // stamp for the whole lockout, and nothing that follows but a reset shortens that.
  lemma {:induction false} LockHolds(h: seq<Event>, u: string, at: int, stamp: int, later: seq<Event>, now: int)
    requires !Locked(Run(h), u, at) && FailedAttempts(Run(h), u) >= 4
    requires Watched(later, u)
    ensures LockedUntil(Run(h + [Failure(u, at, stamp)] + later), u, stamp + 15 * 60)
    ensures now < stamp + 15 * 60 ==> Locked(Run(h + [Failure(u, at, stamp)] + later), u, now)
    ensures later == [] && Locked(Run(h + [Failure(u, at, stamp)] + later), u, now) ==> now < stamp + 15 * 60
  {
    var locked := h + [Failure(u, at, stamp)];
    if later == [] {
      assert locked + later == locked && locked[..|h|] == h;
    } else {
      var l', e := later[..|later| - 1], later[|later| - 1];
      assert (locked + later)[..|locked + later| - 1] == locked + l' && (locked + later)[|locked + later| - 1] == e;
      LockHolds(h, u, at, stamp, l', now);
    }
  }
}
