/**
 The per-user request limiter. Time is in nanoseconds and passed in.

 `Handle` is one request on the table of windows as a value; the method of class
 `RateLimiter` follows it. Over any history, a closed interval no longer than the window
 admits at most 2 * limit - 1 requests of a user, and that many can occur.
 */
module RateLimiter {
  import opened Numbers

  const SECOND: nat := 1_000_000_000

  datatype Config = Config(freeLimit: int, premiumLimit: int, windowDuration: nat)

  datatype Window = Window(count: nat, windowEnd: int)

  type Windows = map<string, Window>

  datatype Request = Request(userID: string, tier: string, time: int)

  // Rejected is status 429 with its Retry-After seconds (section 4 of RFC 6585, section
  // 10.2.3 of RFC 9110). Requests without a user are not limited.
  datatype Response = NotLimited | Accepted | Rejected(retryAfter: int)

  function Limit(c: Config, tier: string): int {
    if tier == "premium" || tier == "institutional" then c.premiumLimit else c.freeLimit
  }

  predicate NeedsFreshWindow(ws: Windows, userID: string, now: int) {
    userID !in ws || now > ws[userID].windowEnd
  }

  // The user's window once this request is counted.
  function CountedWindow(c: Config, ws: Windows, r: Request): Window {
    if NeedsFreshWindow(ws, r.userID, r.time)
    then Window(1, r.time + c.windowDuration)
    else Window(ws[r.userID].count + 1, ws[r.userID].windowEnd)
  }

  function After(c: Config, ws: Windows, r: Request): Windows {
    if r.userID == "" then ws else ws[r.userID := CountedWindow(c, ws, r)]
  }

  function Respond(c: Config, ws: Windows, r: Request): Response {
    if r.userID == "" then NotLimited
    else
      var w := CountedWindow(c, ws, r);
      if w.count > Limit(c, r.tier) then Rejected((w.windowEnd - r.time) / SECOND + 1) else Accepted
  }

  class RateLimiter {
    var windows: Windows
    const config: Config

    constructor (config: Config)
      ensures windows == map[] && this.config == config
    {
      windows, this.config := map[], config;
    }

    method RateLimit(userID: string, tier: string, now: int) returns (response: Response)
      modifies this
      ensures windows == After(config, old(windows), Request(userID, tier, now))
      ensures response == Respond(config, old(windows), Request(userID, tier, now))
    {
      if userID == "" {
        return NotLimited;
      }
      var limit := config.freeLimit;
      if tier == "premium" || tier == "institutional" {
        limit := config.premiumLimit;
      }
      if userID !in windows || now > windows[userID].windowEnd {
        windows := windows[userID := Window(0, now + config.windowDuration)];
      }
      var win := windows[userID];
      windows := windows[userID := win.(count := win.count + 1)];
      var remaining := win.windowEnd - now;
      if win.count + 1 > limit {
        return Rejected(remaining / SECOND + 1);
      }
      return Accepted;
    }
  }

  // ----- Histories -----

  function Run(c: Config, h: seq<Request>): Windows {
    if h == [] then map[] else After(c, Run(c, h[..|h| - 1]), h[|h| - 1])
  }

  ghost predicate Chronological(h: seq<Request>) {
    forall i, j :: 0 <= i < j < |h| ==> h[i].time <= h[j].time
  }

  // How many requests of the user were accepted at times from a to b.
  function AcceptedIn(c: Config, h: seq<Request>, u: string, a: int, b: int): nat {
    if h == [] then 0
    else
      var earlier, r := h[..|h| - 1], h[|h| - 1];
      AcceptedIn(c, earlier, u, a, b) +
        if r.userID == u && a <= r.time <= b && Respond(c, Run(c, earlier), r).Accepted? then 1 else 0
  }

  ghost predicate LimitedBy(c: Config, h: seq<Request>, u: string, limit: nat) {
    forall i :: 0 <= i < |h| && h[i].userID == u ==> Limit(c, h[i].tier) <= limit
  }

  // What the user's current window allows to have been accepted from a to b. A window that
  // opened before a has spent its first request before a.
  ghost predicate WithinBound(c: Config, ws: Windows, u: string, limit: nat, a: int, b: int, n: nat) {
    if u !in ws then n == 0
    else
      var start := ws[u].windowEnd - c.windowDuration;
      var current := Min(ws[u].count, limit);
      && ws[u].count >= 1
      && (start < a ==> n <= Min(ws[u].count - 1, limit - 1))
      && (a <= start <= b ==> n <= limit - 1 + current)
      && (b < start ==> n <= 2 * limit - 1)
  }

  lemma {:induction false} AcceptedWithinBound(c: Config, h: seq<Request>, u: string, limit: nat, a: int, b: int)
    requires Chronological(h) && LimitedBy(c, h, u, limit)
    requires u != "" && limit >= 1 && b - a <= c.windowDuration
    ensures WithinBound(c, Run(c, h), u, limit, a, b, AcceptedIn(c, h, u, a, b))
    ensures AcceptedIn(c, h, u, a, b) > 0 ==> a <= h[|h| - 1].time
    ensures u in Run(c, h) ==> Run(c, h)[u].windowEnd - c.windowDuration <= h[|h| - 1].time
  {
    if h != [] {
      AcceptedWithinBound(c, h[..|h| - 1], u, limit, a, b);
    }
  }

  lemma {:induction false} NoLimitNoneAccepted(c: Config, h: seq<Request>, u: string, a: int, b: int)
    requires u != "" && LimitedBy(c, h, u, 0)
    ensures AcceptedIn(c, h, u, a, b) == 0
    ensures u in Run(c, h) ==> Run(c, h)[u].count >= 1
  {
    if h != [] {
      NoLimitNoneAccepted(c, h[..|h| - 1], u, a, b);
    }
  }

  // Any closed interval no longer than the window holds at most 2 * limit - 1 accepted
  // requests (none when the limit is zero).
  lemma AtMostTwiceTheLimit(c: Config, h: seq<Request>, u: string, limit: nat, a: int, b: int)
    requires Chronological(h) && LimitedBy(c, h, u, limit)
    requires u != "" && b - a <= c.windowDuration
    ensures AcceptedIn(c, h, u, a, b) <= if limit == 0 then 0 else 2 * limit - 1
  {
    if limit == 0 {
      NoLimitNoneAccepted(c, h, u, a, b);
    } else {
      AcceptedWithinBound(c, h, u, limit, a, b);
    }
  }

  // ----- The bound is reached -----

  // A history of the free tier up to a time.
  ghost predicate FreeHistory(c: Config, h: seq<Request>, u: string, time: int) {
    c.freeLimit >= 0 && Chronological(h) && LimitedBy(c, h, u, c.freeLimit) && forall i :: 0 <= i < |h| ==> h[i].time <= time
  }

  lemma OneMore(c: Config, h: seq<Request>, r: Request, a: int, b: int)
    ensures Run(c, h + [r]) == After(c, Run(c, h), r)
    ensures AcceptedIn(c, h + [r], r.userID, a, b) == AcceptedIn(c, h, r.userID, a, b) +
              if a <= r.time <= b && Respond(c, Run(c, h), r).Accepted? then 1 else 0
  {
  }

  // The history with k further requests at one time, all accepted when the window has room.
  lemma {:induction false} Burst(c: Config, h: seq<Request>, u: string, time: int, k: nat, a: int, b: int)
    returns (h': seq<Request>)
    requires u != "" && c.freeLimit >= 1 && FreeHistory(c, h, u, time)
    requires var ws := Run(c, h);
      if NeedsFreshWindow(ws, u, time) then k <= c.freeLimit else ws[u].count + k <= c.freeLimit
    ensures FreeHistory(c, h', u, time)
    ensures AcceptedIn(c, h', u, a, b) == AcceptedIn(c, h, u, a, b) + if a <= time <= b then k else 0
    ensures var ws, ws' := Run(c, h), Run(c, h');
      if k == 0 then ws' == ws
      else u in ws' && ws'[u] == if NeedsFreshWindow(ws, u, time) then Window(k, time + c.windowDuration)
                                 else Window(ws[u].count + k, ws[u].windowEnd)
  {
    if k == 0 {
      h' := h;
    } else {
      var shorter := Burst(c, h, u, time, k - 1, a, b);
      var r := Request(u, "free", time);
      OneMore(c, shorter, r, a, b);
      h' := shorter + [r];
    }
  }

  // One request opens a window, the rest of its allowance comes at its last instant, and a
  // full allowance follows one tick later.
  lemma TwiceTheLimitLessOneOccurs(c: Config, u: string) returns (h: seq<Request>, a: int, b: int)
    requires u != "" && c.freeLimit >= 1 && c.windowDuration >= 1
    ensures Chronological(h) && LimitedBy(c, h, u, c.freeLimit) && b - a <= c.windowDuration
    ensures AcceptedIn(c, h, u, a, b) == 2 * c.freeLimit - 1
  {
    a, b := c.windowDuration, c.windowDuration + 1;
    var opener := Burst(c, [], u, 0, 1, a, b);
    var rest := Burst(c, opener, u, a, c.freeLimit - 1, a, b);
    h := Burst(c, rest, u, b, c.freeLimit, a, b);
  }

  // The allowance of a tier: two of the tiers have the larger one.
  ghost predicate IsAllowance(c: Config, tier: string, limit: int) {
    if tier == "premium" || tier == "institutional" then limit == c.premiumLimit else limit == c.freeLimit
  }

  // Of the requests a user makes within one window of its own, the n-th is accepted if and
  // only if the tier's allowance covers it, whatever others do meanwhile.
  lemma {:induction false} NthIsAcceptedIff(c: Config, h: seq<Request>, u: string, tier: string, limit: int, start: int, n: nat)
    requires u != "" && IsAllowance(c, tier, limit) && h != [] && Chronological(h)
    requires h[0] == Request(u, tier, start) && h[|h| - 1].time <= start + c.windowDuration
    requires forall i :: 0 <= i < |h| && h[i].userID == u ==> h[i].tier == tier
    requires n == RequestsOf(h, u)
    ensures u in Run(c, h) && Run(c, h)[u] == Window(n, start + c.windowDuration)
    ensures h[|h| - 1].userID == u ==> (Respond(c, Run(c, h[..|h| - 1]), h[|h| - 1]).Accepted? <==> n <= limit)
    ensures h[|h| - 1].userID == u && n > limit ==> Respond(c, Run(c, h[..|h| - 1]), h[|h| - 1]).Rejected?
  {
    var earlier := h[..|h| - 1];
    if earlier != [] {
      NthIsAcceptedIff(c, earlier, u, tier, limit, start, RequestsOf(earlier, u));
    } else {
      assert Run(c, earlier) == map[];
    }
  }

  function RequestsOf(h: seq<Request>, u: string): nat {
    if h == [] then 0 else RequestsOf(h[..|h| - 1], u) + if h[|h| - 1].userID == u then 1 else 0
  }

  // Requests without a user are let through and leave no trace.
  lemma AnonymousLeavesNoTrace(c: Config, h: seq<Request>, r: Request)
    requires r.userID == ""
    ensures Respond(c, Run(c, h), r) == NotLimited && Run(c, h + [r]) == Run(c, h)
  {
    assert (h + [r])[..|h|] == h;
  }

  // ----- Retry-After -----

  // Waiting k whole seconds lands in a fresh window if and only if k is at least the
  // advertised number, however many requests of other users arrive meanwhile.
  lemma RetryAfterIsLeastWait(c: Config, h: seq<Request>, r: Request, meanwhile: seq<Request>, k: int)
    requires Respond(c, Run(c, h), r).Rejected?
    requires forall i :: 0 <= i < |meanwhile| ==> meanwhile[i].userID != r.userID
    ensures NeedsFreshWindow(Run(c, h + [r] + meanwhile), r.userID, r.time + k * 1_000_000_000)
       <==> k >= Respond(c, Run(c, h), r).retryAfter
  {
    OthersLeaveWindow(c, h + [r], meanwhile, r.userID);
    assert (h + [r])[..|h|] == h;
    var remaining := CountedWindow(c, Run(c, h), r).windowEnd - r.time;
    assert k * SECOND > remaining <==> k >= remaining / SECOND + 1;
  }

  lemma {:induction false} OthersLeaveWindow(c: Config, h: seq<Request>, more: seq<Request>, u: string)
    requires u in Run(c, h)
    requires forall i :: 0 <= i < |more| ==> more[i].userID != u
    ensures u in Run(c, h + more) && Run(c, h + more)[u] == Run(c, h)[u]
  {
    if more == [] {
      assert h + more == h;
    } else {
      var earlier := more[..|more| - 1];
      assert (h + more)[..|h + more| - 1] == h + earlier;
      OthersLeaveWindow(c, h, earlier, u);
    }
  }

  // In a fresh window the first request is accepted whenever the tier allows any.
  lemma FreshWindowAccepts(c: Config, ws: Windows, r: Request)
    requires r.userID != "" && NeedsFreshWindow(ws, r.userID, r.time)
    ensures Respond(c, ws, r).Accepted? <==> Limit(c, r.tier) >= 1
    ensures After(c, ws, r)[r.userID].count == 1
  {
  }
}
