/**
 * The rate-limit branch of the request middleware: a fixed one-minute
 * window per client address and API path, at most 60 requests per window,
 * kept in a process-wide map that an occasional sweep prunes of expired
 * windows.
 */
module Middleware {
  import opened Wrappers
  import Text
  import opened Numbers

  const Limit: nat := 60
  const WindowMs: nat := 60 * 1000

  /** A window: the requests let through so far and the instant it ends. */
  datatype Record = Record(count: int, resetTime: int)

  /** The rate-limit headers on a response that was let through. */
  datatype RateHeaders = RateHeaders(limit: nat, remaining: int, reset: int)

  /** What the middleware answers. */
  datatype Response =
    | Next(rate: Option<RateHeaders>)
    | TooManyRequests(retryAfter: int, limit: nat, remaining: nat, reset: int)

  /** The client address: the first non-empty forwarding header, else 'unknown'. */
  function ClientIp(forwardedFor: Option<string>, realIp: Option<string>, connectingIp: Option<string>): (ip: string)
    ensures Truthy(forwardedFor) ==> ip == forwardedFor.value
    ensures !Truthy(forwardedFor) && Truthy(realIp) ==> ip == realIp.value
    ensures !Truthy(forwardedFor) && !Truthy(realIp) && Truthy(connectingIp) ==> ip == connectingIp.value
    ensures !Truthy(forwardedFor) && !Truthy(realIp) && !Truthy(connectingIp) ==> ip == "unknown"
  {
    OrElse(forwardedFor, OrElse(realIp, OrElse(connectingIp, Some("unknown")))).value
  }

  /** The store key: the address and the path, joined by a colon. */
  function Key(ip: string, path: string): (k: string)
    ensures |k| == |ip| + 1 + |path| && k[..|ip|] == ip && k[|ip|] == ':' && k[|ip| + 1..] == path
  {
    ip + ":" + path
  }

  /** A window is live at `now` unless it ended strictly before. */
  predicate Live(m: map<string, Record>, key: string, now: int)
  {
    key in m && m[key].resetTime >= now
  }

  /** One request against the window of `key`: the records afterwards and the answer. */
  function Admit(m: map<string, Record>, key: string, now: int): (r: (map<string, Record>, Response))
    ensures !Live(m, key, now) ==>
              r.0 == m[key := Record(1, now + WindowMs)]
              && r.1 == Next(Some(RateHeaders(Limit, Limit - 1, now + WindowMs)))
    ensures Live(m, key, now) && m[key].count >= Limit ==>
              r.0 == m && r.1 == TooManyRequests(CeilDiv(m[key].resetTime - now, 1000), Limit, 0, m[key].resetTime)
    ensures Live(m, key, now) && m[key].count < Limit ==>
              r.0 == m[key := m[key].(count := m[key].count + 1)]
              && r.1 == Next(Some(RateHeaders(Limit, Limit - (m[key].count + 1), m[key].resetTime)))
    ensures r.1.Next? ==> key in r.0 && r.1.rate == Some(RateHeaders(Limit, Limit - r.0[key].count, r.0[key].resetTime))
    ensures forall k :: k != key ==> (k in r.0 <==> k in m) && (k in m ==> r.0[k] == m[k])
  {
    if !Live(m, key, now) then
      var window := Record(1, now + WindowMs);
      (m[key := window], Next(Some(RateHeaders(Limit, Limit - window.count, window.resetTime))))
    else if m[key].count >= Limit then
      (m, TooManyRequests(CeilDiv(m[key].resetTime - now, 1000), Limit, 0, m[key].resetTime))
    else
      var bumped := m[key].(count := m[key].count + 1);
      (m[key := bumped], Next(Some(RateHeaders(Limit, Limit - bumped.count, bumped.resetTime))))
  }

  /** Every stored window has let through between one and `Limit` requests. */
  predicate Valid(m: map<string, Record>)
  {
    forall k :: k in m ==> 1 <= m[k].count <= Limit
  }

  /** The path test and the keyed window: only `/api/` paths are counted. */
  function Step(m: map<string, Record>, path: string, ip: string, now: int): (r: (map<string, Record>, Response))
    ensures !Text.StartsWith(path, "/api/") ==> r == (m, Next(None))
    ensures Text.StartsWith(path, "/api/") ==> r == Admit(m, Key(ip, path), now)
  {
    if Text.StartsWith(path, "/api/") then Admit(m, Key(ip, path), now) else (m, Next(None))
  }

  /** A request keeps every count within `1 .. Limit`, so the advertised remaining count is never negative. */
  lemma StepKeepsValid(m: map<string, Record>, path: string, ip: string, now: int)
    requires Valid(m)
    ensures Valid(Step(m, path, ip, now).0)
    ensures Step(m, path, ip, now).1.Next? && Step(m, path, ip, now).1.rate.Some? ==>
              0 <= Step(m, path, ip, now).1.rate.value.remaining < Limit
  {
    if Text.StartsWith(path, "/api/") {
      AdmitKeepsValid(m, Key(ip, path), now);
    }
  }

  /** The windows the cleanup keeps: those that have not ended before `cleanupTime`. */
  function Pruned(m: map<string, Record>, cleanupTime: int): (p: map<string, Record>)
    ensures forall k :: k in p <==> k in m && m[k].resetTime >= cleanupTime
    ensures forall k :: k in p ==> p[k] == m[k]
  {
    map k | k in m && m[k].resetTime >= cleanupTime :: m[k]
  }

  lemma PrunedKeepsValid(m: map<string, Record>, cleanupTime: int)
    requires Valid(m)
    ensures Valid(Pruned(m, cleanupTime))
  {
  }

  /**
   * The cleanup is invisible to later requests: a window it removes has ended
   * before any request at or after the cleanup, so that request opens a fresh
   * window either way.
   */
  lemma {:induction false} PruneIsInvisible(m: map<string, Record>, cleanupTime: int, key: string, now: int)
    requires cleanupTime <= now
    ensures Admit(Pruned(m, cleanupTime), key, now).1 == Admit(m, key, now).1
    ensures Admit(Pruned(m, cleanupTime), key, now).0 == Pruned(Admit(m, key, now).0, cleanupTime)
  {
    var p := Pruned(m, cleanupTime);
    assert Live(p, key, now) <==> Live(m, key, now);
    var a := Admit(m, key, now).0;
    var b := Admit(p, key, now).0;
    assert key in a && a[key].resetTime >= now;
    forall k ensures k in b <==> k in Pruned(a, cleanupTime) {
    }
    assert b == Pruned(a, cleanupTime);
  }

  /** Requests for one key at the given instants, in order: the records afterwards and how many were let through. */
  function Serve(m: map<string, Record>, key: string, times: seq<int>): (r: (map<string, Record>, nat))
    decreases |times|
  {
    if times == [] then (m, 0)
    else
      var a := Admit(m, key, times[0]);
      var rest := Serve(a.0, key, times[1..]);
      (rest.0, rest.1 + (if a.1.Next? then 1 else 0))
  }

  /**
   * Within one window at most `Limit` requests pass: if none of the requests
   * comes after the window's end, the passes only add to the window's count,
   * which never exceeds `Limit`.
   */
  lemma {:induction false} ServeWithinWindow(m: map<string, Record>, key: string, times: seq<int>)
    requires Valid(m) && key in m
    requires forall i :: 0 <= i < |times| ==> times[i] <= m[key].resetTime
    ensures key in Serve(m, key, times).0
    ensures Serve(m, key, times).0[key].resetTime == m[key].resetTime
    ensures Serve(m, key, times).0[key].count == m[key].count + Serve(m, key, times).1 <= Limit
    decreases |times|
  {
    if times != [] {
      var a := Admit(m, key, times[0]);
      assert Live(m, key, times[0]);
      AdmitKeepsValid(m, key, times[0]);
      ServeWithinWindow(a.0, key, times[1..]);
    }
  }

  /** One keyed request keeps every count within `1 .. Limit`. */
  lemma AdmitKeepsValid(m: map<string, Record>, key: string, now: int)
    requires Valid(m)
    ensures Valid(Admit(m, key, now).0)
  {
    var r := Admit(m, key, now);
    forall k | k in r.0 ensures 1 <= r.0[k].count <= Limit {
      if k != key {
        assert r.0[k] == m[k];
      }
    }
  }

  /** A client without a window gets at most `Limit` requests through in the minute after its first one. */
  lemma FirstMinuteAdmitsAtMostLimit(m: map<string, Record>, key: string, times: seq<int>)
    requires Valid(m) && key !in m && |times| >= 1
    requires forall i :: 0 <= i < |times| ==> times[0] <= times[i] <= times[0] + WindowMs
    ensures Serve(m, key, times).1 <= Limit
  {
    var a := Admit(m, key, times[0]);
    AdmitKeepsValid(m, key, times[0]);
    assert forall i :: 0 <= i < |times[1..]| ==> times[1..][i] <= a.0[key].resetTime by {
      forall i | 0 <= i < |times[1..]| ensures times[1..][i] <= a.0[key].resetTime {
        assert times[1..][i] == times[i + 1];
      }
    }
    ServeWithinWindow(a.0, key, times[1..]);
  }

  /** The process-wide store of windows. */
  class RateLimiter {
    var records: map<string, Record>

    constructor ()
      ensures records == map[]
    {
      records := map[];
    }

    /** Removes every window that ended before `cleanupTime`. */
    method Cleanup(cleanupTime: int)
      modifies this
      ensures records == Pruned(old(records), cleanupTime)
    {
      var m0 := records;
      var pending := records.Keys;
      while pending != {}
        invariant pending <= m0.Keys
        invariant forall k :: k in records <==> k in m0 && (k in pending || m0[k].resetTime >= cleanupTime)
        invariant forall k :: k in records ==> records[k] == m0[k]
        decreases |pending|
      {
        var k :| k in pending;
        if records[k].resetTime < cleanupTime {
          records := records - {k};
        }
        pending := pending - {k};
      }
      assert records == Pruned(m0, cleanupTime);
    }

    /**
     * One pass of the middleware. `runCleanup` stands for the one-in-a-hundred
     * draw and `cleanupTime` for the clock read when it runs; a refused request
     * returns before the cleanup.
     */
    method Handle(path: string, forwardedFor: Option<string>, realIp: Option<string>, connectingIp: Option<string>,
                  now: int, runCleanup: bool, cleanupTime: int) returns (response: Response)
      modifies this
      ensures var s := Step(old(records), path, ClientIp(forwardedFor, realIp, connectingIp), now);
              && response == s.1
              && records == (if s.1.Next? && runCleanup then Pruned(s.0, cleanupTime) else s.0)
    {
      var s := Step(records, path, ClientIp(forwardedFor, realIp, connectingIp), now);
      records := s.0;
      response := s.1;
      if response.TooManyRequests? {
        return;
      }
      if runCleanup {
        Cleanup(cleanupTime);
      }
    }
  }
}
