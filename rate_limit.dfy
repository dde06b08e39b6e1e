/** The per-client fixed-window rate limiter of Geo-Historian/server/routes.ts:
    a map from client IP to `{count, resetTime}`, at most 30 allowed calls per
    window of one hour, and the hourly sweep that forgets expired windows.
    The clock (`Date.now()`) is the parameter `now`, in milliseconds; the
    module-level map is a field of a `RateLimiter` object. */
module RateLimit {

  const MaxRequests := 30
  const WindowMs := 60 * 60 * 1000

  datatype Record = Record(count: int, resetTime: int)

  type Records = map<string, Record>

  /** The window of `ip` has expired, or never started, at time `now`. */
  predicate Expired(records: Records, ip: string, now: int) {
    ip !in records || now > records[ip].resetTime
  }

  /** What `checkRateLimit(ip)` at time `now` does to the map, and its verdict. */
  function Check(records: Records, ip: string, now: int): (r: (Records, bool))
    ensures r.0.Keys == records.Keys + {ip}
    ensures forall other :: other in records && other != ip ==> r.0[other] == records[other]
    ensures r.1 <==> Expired(records, ip, now) || records[ip].count < MaxRequests
    ensures Expired(records, ip, now) ==> r.0[ip] == Record(1, now + WindowMs)
    ensures !Expired(records, ip, now) && records[ip].count >= MaxRequests ==> r.0 == records
    ensures !Expired(records, ip, now) && records[ip].count < MaxRequests ==>
      r.0[ip] == records[ip].(count := records[ip].count + 1)
  {
    if Expired(records, ip, now) then
      (records[ip := Record(1, now + WindowMs)], true)
    else if records[ip].count >= MaxRequests then
      (records, false)
    else
      (records[ip := records[ip].(count := records[ip].count + 1)], true)
  }

  /** Every recorded count lies between 1 and the maximum. */
  ghost predicate Bounded(records: Records) {
    forall ip :: ip in records ==> 1 <= records[ip].count <= MaxRequests
  }

  lemma CheckKeepsBounded(records: Records, ip: string, now: int)
    requires Bounded(records)
    ensures Bounded(Check(records, ip, now).0)
  {
  }

  /** A sequence of calls from one client at the given times: the final map
      and the verdict of every call, in order. */
  function Run(records: Records, ip: string, times: seq<int>): (r: (Records, seq<bool>))
    ensures |r.1| == |times|
    decreases |times|
  {
    if times == [] then (records, [])
    else
      var last := Check(Run(records, ip, times[..|times| - 1]).0, ip, times[|times| - 1]);
      (last.0, Run(records, ip, times[..|times| - 1]).1 + [last.1])
  }

  function Allowed(verdicts: seq<bool>): (n: nat)
    ensures n <= |verdicts|
  {
    if verdicts == [] then 0 else Allowed(verdicts[..|verdicts| - 1]) + (if verdicts[|verdicts| - 1] then 1 else 0)
  }

  /** Within a window that is still open, the client's record keeps its reset
      time and the calls allowed are exactly those that raise the count. */
  lemma {:induction false} RunWithinWindow(records: Records, ip: string, times: seq<int>)
    requires ip in records && Bounded(records)
    requires forall k :: 0 <= k < |times| ==> times[k] <= records[ip].resetTime
    ensures ip in Run(records, ip, times).0
    ensures Run(records, ip, times).0[ip].resetTime == records[ip].resetTime
    ensures Run(records, ip, times).0[ip].count == records[ip].count + Allowed(Run(records, ip, times).1)
    ensures Bounded(Run(records, ip, times).0)
    decreases |times|
  {
    if times != [] {
      var prefix := times[..|times| - 1];
      RunWithinWindow(records, ip, prefix);
      CheckKeepsBounded(Run(records, ip, prefix).0, ip, times[|times| - 1]);
    }
  }

  /** At most 30 calls are allowed in one window: a client whose window is open
      gets at most `30 - count` more calls through before it closes. */
  lemma WindowCap(records: Records, ip: string, times: seq<int>)
    requires ip in records && Bounded(records)
    requires forall k :: 0 <= k < |times| ==> times[k] <= records[ip].resetTime
    ensures Allowed(Run(records, ip, times).1) <= MaxRequests - records[ip].count
  {
    RunWithinWindow(records, ip, times);
  }

  /** Running a first call and then the rest is running all of them. */
  lemma {:induction false} RunCons(records: Records, ip: string, t: int, rest: seq<int>)
    ensures Run(records, ip, [t] + rest).0 == Run(Check(records, ip, t).0, ip, rest).0
    ensures Run(records, ip, [t] + rest).1 == [Check(records, ip, t).1] + Run(Check(records, ip, t).0, ip, rest).1
    decreases |rest|
  {
    if rest == [] {
      assert ([t] + rest)[..0] == [];
    } else {
      var all := [t] + rest;
      var front := rest[..|rest| - 1];
      var first := Check(records, ip, t).0;
      assert all[..|all| - 1] == [t] + front;
      assert all[|all| - 1] == rest[|rest| - 1];
      RunCons(records, ip, t, front);
      var step := Check(Run(first, ip, front).0, ip, rest[|rest| - 1]);
      assert Run(records, ip, all) == (step.0, Run(records, ip, [t] + front).1 + [step.1]);
      assert Run(first, ip, rest) == (step.0, Run(first, ip, front).1 + [step.1]);
    }
  }

  lemma {:induction false} AllowedCons(v: bool, verdicts: seq<bool>)
    ensures Allowed([v] + verdicts) == (if v then 1 else 0) + Allowed(verdicts)
    decreases |verdicts|
  {
    if verdicts != [] {
      assert ([v] + verdicts)[..|verdicts|] == [v] + verdicts[..|verdicts| - 1];
      AllowedCons(v, verdicts[..|verdicts| - 1]);
    }
  }

  /** A window opened by a call at time `t` lets at most 30 calls through,
      that one included, up to its end at `t + 3600000`. */
  lemma FreshWindowCap(records: Records, ip: string, t: int, rest: seq<int>)
    requires Bounded(records) && Expired(records, ip, t)
    requires forall k :: 0 <= k < |rest| ==> rest[k] <= t + WindowMs
    ensures Allowed(Run(records, ip, [t] + rest).1) <= MaxRequests
  {
    RunCons(records, ip, t, rest);
    CheckKeepsBounded(records, ip, t);
    WindowCap(Check(records, ip, t).0, ip, rest);
    AllowedCons(true, Run(Check(records, ip, t).0, ip, rest).1);
  }

  /** A burst of 30 calls starting a fresh window is allowed as a whole ... */
  lemma {:induction false} BurstAllowed(records: Records, ip: string, now: int, n: nat)
    requires Expired(records, ip, now) && 1 <= n <= MaxRequests
    ensures Run(records, ip, seq(n, _ => now)).0[ip] == Record(n, now + WindowMs)
    ensures Run(records, ip, seq(n, _ => now)).1 == seq(n, _ => true)
  {
    if n > 1 {
      assert seq(n, _ => now)[..n - 1] == seq(n - 1, _ => now);
      BurstAllowed(records, ip, now, n - 1);
      assert seq(n - 1, _ => true) + [true] == seq(n, _ => true);
    } else {
      assert seq(1, _ => now)[..0] == [];
      assert seq(1, _ => true) == [true];
    }
  }

  /** ... and the 31st call of the same window is denied. */
  lemma ThirtyFirstDenied(records: Records, ip: string, now: int)
    requires Expired(records, ip, now)
    ensures Run(records, ip, seq(MaxRequests + 1, _ => now)).1 == seq(MaxRequests, _ => true) + [false]
  {
    assert seq(MaxRequests + 1, _ => now)[..MaxRequests] == seq(MaxRequests, _ => now);
    BurstAllowed(records, ip, now, MaxRequests);
  }

  /** Once the window has passed, a client is allowed again and starts a new window. */
  lemma AllowedAfterExpiry(records: Records, ip: string, later: int)
    requires ip in records && later > records[ip].resetTime
    ensures Check(records, ip, later).1
    ensures Check(records, ip, later).0[ip] == Record(1, later + WindowMs)
  {
  }

  // ---------------------------------------------------------------------
  // The periodic sweep
  // ---------------------------------------------------------------------

  /** The map after the sweep at time `now`: the records whose window has passed are gone. */
  function Swept(records: Records, now: int): (r: Records)
    ensures forall ip :: ip in r <==> ip in records && now <= records[ip].resetTime
    ensures forall ip :: ip in r ==> r[ip] == records[ip]
  {
    map ip | ip in records && now <= records[ip].resetTime :: records[ip]
  }

  /** The sweep cannot be observed by later calls: from the sweep's time on, the
      same calls are allowed or denied whether or not the sweep ran, and they
      leave the client's record in the same state. */
  lemma {:induction false} SweepUnobservable(records: Records, swept: int, ip: string, times: seq<int>)
    requires forall k :: 0 <= k < |times| ==> swept <= times[k]
    ensures Run(Swept(records, swept), ip, times).1 == Run(records, ip, times).1
    ensures times != [] ==>
      ip in Run(Swept(records, swept), ip, times).0 && ip in Run(records, ip, times).0 &&
      Run(Swept(records, swept), ip, times).0[ip] == Run(records, ip, times).0[ip]
    decreases |times|
  {
    if times != [] {
      var prefix := times[..|times| - 1];
      SweepUnobservable(records, swept, ip, prefix);
      if prefix == [] {
        assert Run(Swept(records, swept), ip, prefix).0 == Swept(records, swept);
        assert Run(records, ip, prefix).0 == records;
      }
    }
  }

  class RateLimiter {
    var records: Records

    ghost predicate Valid()
      reads this
    {
      Bounded(records)
    }

    constructor ()
      ensures Valid() && records == map[]
    {
      records := map[];
    }

    /** `checkRateLimit(ip)` at time `now`. */
    method CheckRateLimit(ip: string, now: int) returns (allowed: bool)
      requires Valid()
      modifies this
      ensures Valid()
      ensures (records, allowed) == Check(old(records), ip, now)
    {
      if ip !in records || now > records[ip].resetTime {
        records := records[ip := Record(1, now + WindowMs)];
        return true;
      }
      var record := records[ip];
      if record.count >= MaxRequests {
        return false;
      }
      records := records[ip := record.(count := record.count + 1)];
      allowed := true;
    }

    /** The hourly sweep: visits every entry present when it starts and deletes
        those whose window has passed. */
    method Sweep(now: int)
      requires Valid()
      modifies this
      ensures Valid()
      ensures records == Swept(old(records), now)
    {
      var entries := records.Keys;
      while entries != {}
        invariant entries <= old(records).Keys
        invariant forall ip :: ip in records <==>
          ip in old(records) && (ip in entries || now <= old(records)[ip].resetTime)
        invariant forall ip :: ip in records ==> records[ip] == old(records)[ip]
        decreases entries
      {
        var ip :| ip in entries;
        if now > records[ip].resetTime {
          records := records - {ip};
        }
        entries := entries - {ip};
      }
      assert records.Keys == Swept(old(records), now).Keys;
    }
  }
}
