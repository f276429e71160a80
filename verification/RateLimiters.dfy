/** The two sliding-window limiters of the server, over their dictionaries of timestamp lists. */
module RateLimiters {
  import opened Prelude
  import opened SlidingWindow

  /** Requests per source IP address. */
  class RateLimiter {
    const maxRequests: int
    const windowSeconds: real
    var requests: Store

    constructor (maxRequests: int, windowSeconds: real)
      ensures this.maxRequests == maxRequests && this.windowSeconds == windowSeconds
      ensures requests == map[]
    {
      this.maxRequests := maxRequests;
      this.windowSeconds := windowSeconds;
      requests := map[];
    }

    method CheckRateLimit(ip: Key, now: real) returns (allowed: bool, remaining: int)
      modifies this
      ensures Reply(allowed, remaining)
              == Decide(|Recent(Lookup(old(requests), ip), now - windowSeconds)|, maxRequests)
      ensures requests == StepStore(old(requests), Check(ip, now), windowSeconds, maxRequests)
      ensures var was := if ip in old(requests) then old(requests)[ip] else [];
              var used := |set i | 0 <= i < |was| && now - was[i] < windowSeconds|;
              (allowed <==> used < maxRequests) && remaining == if allowed then maxRequests - used - 1 else 0
      ensures ip in requests && (allowed ==> requests[ip] != [] && requests[ip][|requests[ip]| - 1] == now)
      ensures forall k :: k != ip ==> (k in requests <==> k in old(requests))
                                      && (k in requests ==> requests[k] == old(requests)[k])
    {
      RecentCount(Lookup(requests, ip), now, windowSeconds);
      var cutoff := now - windowSeconds;
      requests := requests[ip := Recent(Lookup(requests, ip), cutoff)];
      var currentCount := |requests[ip]|;
      if currentCount >= maxRequests {
        return false, 0;
      }
      requests := requests[ip := requests[ip] + [now]];
      return true, maxRequests - currentCount - 1;
    }

    /** First loop of the sweep: shorten every list that keeps an entry, collect the other keys. */
    method PruneLists(cutoff: real) returns (stale: seq<Key>)
      modifies this
      ensures requests.Keys == old(requests).Keys
      ensures forall ip :: ip in stale <==> ip in old(requests) && Recent(old(requests)[ip], cutoff) == []
      ensures forall i, j :: 0 <= i < j < |stale| ==> stale[i] != stale[j]
      ensures forall ip :: ip in requests && ip !in stale ==> requests[ip] == Recent(old(requests)[ip], cutoff)
    {
      stale := [];
      ghost var before := requests;
      var todo := requests.Keys;
      while todo != {}
        invariant todo <= before.Keys == requests.Keys
        invariant forall ip :: ip in todo ==> requests[ip] == before[ip]
        invariant forall ip :: ip in stale <==> ip in before && ip !in todo && Recent(before[ip], cutoff) == []
        invariant forall i, j :: 0 <= i < j < |stale| ==> stale[i] != stale[j]
        invariant forall ip :: ip in before && ip !in todo && ip !in stale ==>
            requests[ip] == Recent(before[ip], cutoff)
        decreases |todo|
      {
        var ip :| ip in todo;
        var recent := Recent(requests[ip], cutoff);
        if recent == [] {
          stale := stale + [ip];
        } else {
          requests := requests[ip := recent];
        }
        todo := todo - {ip};
      }
    }

    /** Second loop of the sweep: delete the collected keys. */
    method DropKeys(stale: seq<Key>)
      requires forall ip :: ip in stale ==> ip in requests
      requires forall i, j :: 0 <= i < j < |stale| ==> stale[i] != stale[j]
      modifies this
      ensures forall ip :: ip in requests <==> ip in old(requests) && ip !in stale
      ensures forall ip :: ip in requests ==> requests[ip] == old(requests)[ip]
      ensures |requests| == |old(requests)| - |stale|
    {
      ghost var before := requests;
      for i := 0 to |stale|
        invariant forall j :: i <= j < |stale| ==> stale[j] in requests
        invariant forall ip :: ip in requests <==> ip in before && ip !in stale[..i]
        invariant forall ip :: ip in requests ==> requests[ip] == before[ip]
        invariant |requests| == |before| - i
      {
        ghost var here := requests;
        requests := map ip | ip in requests && ip != stale[i] :: requests[ip];
        assert requests.Keys == here.Keys - {stale[i]};
        assert |requests| == |requests.Keys| && |here| == |here.Keys|;
      }
      assert stale[..|stale|] == stale;
    }

    method CleanupStaleIps(now: real) returns (removed: nat)
      modifies this
      ensures requests == StepStore(old(requests), Sweep(now), windowSeconds, maxRequests)
      ensures removed == |old(requests)| - |requests|
      ensures forall ip :: ip in requests <==>
          ip in old(requests)
          && exists i :: 0 <= i < |old(requests)[ip]| && now - old(requests)[ip][i] < windowSeconds
      ensures forall ip :: ip in requests ==> requests[ip] == Recent(old(requests)[ip], now - windowSeconds)
    {
      hide Recent;
      forall ip | ip in requests
        ensures Recent(requests[ip], now - windowSeconds) != []
                <==> exists i :: 0 <= i < |requests[ip]| && now - requests[ip][i] < windowSeconds
      {
        SomeRecent(requests[ip], now, windowSeconds);
      }
      ghost var before := requests;
      var stale := PruneLists(now - windowSeconds);
      assert |requests| == |requests.Keys| && |before| == |before.Keys|;
      DropKeys(stale);
      return |stale|;
    }
  }

  /** Output attestations per execution. */
  class OutputAttestationRateLimiter {
    const maxPerWindow: int
    const windowSeconds: real
    var records: Store

    constructor (maxPerWindow: int, windowSeconds: real)
      ensures this.maxPerWindow == maxPerWindow && this.windowSeconds == windowSeconds
      ensures records == map[]
    {
      this.maxPerWindow := maxPerWindow;
      this.windowSeconds := windowSeconds;
      records := map[];
    }

    method CheckAndRecord(executionId: Key, now: real) returns (allowed: bool)
      modifies this
      ensures allowed
              == Decide(|Recent(Lookup(old(records), executionId), now - windowSeconds)|, maxPerWindow).allowed
      ensures records == StepStore(old(records), Check(executionId, now), windowSeconds, maxPerWindow)
      ensures var was := if executionId in old(records) then old(records)[executionId] else [];
              allowed <==> |set i | 0 <= i < |was| && now - was[i] < windowSeconds| < maxPerWindow
      ensures executionId in records
              && (allowed ==> records[executionId] != [] && records[executionId][|records[executionId]| - 1] == now)
      ensures forall k :: k != executionId ==> (k in records <==> k in old(records))
                                               && (k in records ==> records[k] == old(records)[k])
    {
      RecentCount(Lookup(records, executionId), now, windowSeconds);
      var timestamps := Lookup(records, executionId);
      timestamps := Recent(timestamps, now - windowSeconds);
      if |timestamps| >= maxPerWindow {
        records := records[executionId := timestamps];
        return false;
      }
      timestamps := timestamps + [now];
      records := records[executionId := timestamps];
      return true;
    }
  }
}
