/**
 * The anti-replay cache shared by the /execute and /output endpoints. It forgets expired
 * nonces on every call; the reference below it is a log that forgets nothing.
 */
module NonceCache {
  import opened Prelude

  type Nonce = string
  type Cache = map<Nonce, real>

  datatype Endpoint = Execute | Output

  /** A nonce reaching the cache check of an endpoint, with the clock reading of the call. */
  datatype Request = Request(endpoint: Endpoint, nonce: Nonce, now: real)

  function Unexpired(cache: Cache, cutoff: real): Cache {
    map nonce | nonce in cache && cache[nonce] > cutoff :: cache[nonce]
  }

  function StepCache(cache: Cache, nonce: Nonce, now: real, ttl: real): Cache {
    var kept := Unexpired(cache, now - ttl);
    if nonce in kept then kept else kept[nonce := now]
  }

  class NonceCache {
    const ttlSeconds: real
    var cache: Cache

    /** The source raises ValueError below one second. */
    constructor (ttlSeconds: real)
      requires ttlSeconds >= 1.0
      ensures this.ttlSeconds == ttlSeconds && cache == map[]
    {
      this.ttlSeconds := ttlSeconds;
      cache := map[];
    }

    method CleanupExpired(now: real) returns (removed: nat)
      modifies this
      ensures cache == Unexpired(old(cache), now - ttlSeconds)
      ensures removed == |old(cache)| - |cache|
    {
      var cutoff := now - ttlSeconds;
      ghost var before := cache;
      var todo := set nonce | nonce in cache && cache[nonce] <= cutoff;
      removed := 0;
      while todo != {}
        invariant todo <= cache.Keys <= before.Keys
        invariant forall nonce :: nonce in todo ==> before[nonce] <= cutoff
        invariant forall nonce :: nonce in before && nonce !in cache ==> before[nonce] <= cutoff
        invariant forall nonce :: nonce in cache ==> cache[nonce] == before[nonce]
        invariant forall nonce :: nonce in cache && nonce !in todo ==> cache[nonce] > cutoff
        invariant |cache| == |before| - removed
        decreases |todo|
      {
        var nonce :| nonce in todo;
        ghost var here := cache;
        cache := map n | n in cache && n != nonce :: cache[n];
        assert cache.Keys == here.Keys - {nonce};
        assert |cache| == |cache.Keys| && |here| == |here.Keys|;
        removed := removed + 1;
        todo := todo - {nonce};
      }
      assert cache == Unexpired(before, cutoff);
    }

    method CheckAndStore(nonce: Nonce, now: real) returns (isNew: bool)
      modifies this
      ensures isNew == (nonce !in Unexpired(old(cache), now - ttlSeconds))
      ensures cache == StepCache(old(cache), nonce, now, ttlSeconds)
      ensures isNew <==> !(nonce in old(cache) && now - old(cache)[nonce] < ttlSeconds)
      ensures forall n :: n in cache <==> n == nonce || (n in old(cache) && now - old(cache)[n] < ttlSeconds)
      ensures forall n :: n in cache ==> cache[n] == if n == nonce && isNew then now else old(cache)[n]
    {
      var _ := CleanupExpired(now);
      if nonce in cache {
        return false;
      }
      cache := cache[nonce := now];
      return true;
    }
  }

  // A run of the cache, by position.

  function CacheAfter(requests: seq<Request>, n: nat, ttl: real): Cache
    requires n <= |requests|
  {
    if n == 0 then map[]
    else StepCache(CacheAfter(requests, n - 1, ttl), requests[n - 1].nonce, requests[n - 1].now, ttl)
  }

  /** The cache's answer to request `n`. */
  predicate Accepts(requests: seq<Request>, n: nat, ttl: real)
    requires n < |requests|
  {
    requests[n].nonce !in Unexpired(CacheAfter(requests, n, ttl), requests[n].now - ttl)
  }

  /** The answers of a run, in order. */
  function Answers(cache: Cache, requests: seq<Request>, ttl: real): (answers: seq<bool>)
    ensures |answers| == |requests|
    decreases |requests|
  {
    if requests == [] then []
    else
      var r := requests[0];
      [r.nonce !in Unexpired(cache, r.now - ttl)] + Answers(StepCache(cache, r.nonce, r.now, ttl), requests[1..], ttl)
  }

  /** Request `i` carried the nonce of request `n`, less than the TTL ago by the clock of `n`. */
  predicate Young(requests: seq<Request>, i: nat, n: nat, ttl: real)
    requires i < |requests| && n < |requests|
  {
    requests[i].nonce == requests[n].nonce && requests[n].now - requests[i].now < ttl
  }

  /** The reference, which forgets nothing: no accepted request of this nonce is young. */
  ghost predicate New(requests: seq<Request>, n: nat, ttl: real)
    requires n < |requests|
    decreases n
  {
    forall i :: 0 <= i < n && New(requests, i, ttl) ==> !Young(requests, i, n, ttl)
  }

  /** Some request between `i` and `n` read the clock a TTL or more past request `i`. */
  ghost predicate Overtaken(requests: seq<Request>, i: nat, n: nat, ttl: real)
    requires n <= |requests|
  {
    exists k :: i < k < n && requests[k].now - requests[i].now >= ttl
  }

  /** Clock readings do not go back. */
  ghost predicate InOrder(requests: seq<Request>) {
    forall i, j :: 0 <= i < j < |requests| ==> requests[i].now <= requests[j].now
  }

  // What the cache knows.

  /** Request `i` was accepted, and no request before `n` overtook it. */
  ghost predicate Live(requests: seq<Request>, i: int, n: nat, ttl: real)
    requires n <= |requests|
  {
    0 <= i < n && Accepts(requests, i, ttl) && !Overtaken(requests, i, n, ttl)
  }

  ghost predicate Sourced(requests: seq<Request>, n: nat, ttl: real, nonce: Nonce)
    requires n <= |requests|
  {
    exists i :: Live(requests, i, n, ttl) && requests[i].nonce == nonce
  }

  /** The cache holds exactly the nonces of the live requests, with their times. */
  ghost predicate Holds(requests: seq<Request>, n: nat, ttl: real, cache: Cache)
    requires n <= |requests|
  {
    && (forall i :: Live(requests, i, n, ttl) ==>
          requests[i].nonce in cache && cache[requests[i].nonce] == requests[i].now)
    && (forall nonce :: nonce in cache ==> Sourced(requests, n, ttl, nonce))
  }

  lemma OvertakenNext(requests: seq<Request>, i: nat, n: nat, ttl: real)
    requires i < n < |requests|
    ensures Overtaken(requests, i, n + 1, ttl)
            <==> Overtaken(requests, i, n, ttl) || requests[n].now - requests[i].now >= ttl
  {
    if Overtaken(requests, i, n, ttl) {
      var k :| i < k < n && requests[k].now - requests[i].now >= ttl;
      assert i < k < n + 1;
    }
  }

  lemma LiveNext(requests: seq<Request>, i: int, n: nat, ttl: real)
    requires n < |requests|
    ensures Live(requests, i, n + 1, ttl)
            <==> if 0 <= i < n then Live(requests, i, n, ttl) && requests[n].now - requests[i].now < ttl
                 else i == n && Accepts(requests, n, ttl)
  {
    if 0 <= i < n {
      OvertakenNext(requests, i, n, ttl);
    }
  }

  /** One request leaves the live entries in the cache, with the accepted one added, */
  lemma {:induction false} LiveStay(requests: seq<Request>, i: int, n: nat, ttl: real, cache: Cache)
    requires n < |requests| && cache == CacheAfter(requests, n, ttl) && Holds(requests, n, ttl, cache)
    requires Live(requests, i, n + 1, ttl)
    ensures var next := StepCache(cache, requests[n].nonce, requests[n].now, ttl);
            requests[i].nonce in next && next[requests[i].nonce] == requests[i].now
  {
    LiveNext(requests, i, n, ttl);
  }

  /** and no others. */
  lemma {:induction false} OnlyLiveStay(requests: seq<Request>, n: nat, ttl: real, cache: Cache, nonce: Nonce)
    requires n < |requests| && cache == CacheAfter(requests, n, ttl) && Holds(requests, n, ttl, cache)
    requires nonce in StepCache(cache, requests[n].nonce, requests[n].now, ttl)
    ensures Sourced(requests, n + 1, ttl, nonce)
  {
    if nonce in Unexpired(cache, requests[n].now - ttl) {
      assert Sourced(requests, n, ttl, nonce);
      var i :| Live(requests, i, n, ttl) && requests[i].nonce == nonce;
      LiveNext(requests, i, n, ttl);
      assert Live(requests, i, n + 1, ttl);
    } else {
      LiveNext(requests, n, n, ttl);
      assert Live(requests, n, n + 1, ttl);
    }
  }

  lemma {:induction false} HoldsNext(requests: seq<Request>, n: nat, ttl: real)
    requires n < |requests| && Holds(requests, n, ttl, CacheAfter(requests, n, ttl))
    ensures Holds(requests, n + 1, ttl, CacheAfter(requests, n + 1, ttl))
  {
    var cache, next := CacheAfter(requests, n, ttl), CacheAfter(requests, n + 1, ttl);
    forall i | Live(requests, i, n + 1, ttl)
      ensures requests[i].nonce in next && next[requests[i].nonce] == requests[i].now
    {
      LiveStay(requests, i, n, ttl, cache);
    }
    forall nonce | nonce in next
      ensures Sourced(requests, n + 1, ttl, nonce)
    {
      OnlyLiveStay(requests, n, ttl, cache, nonce);
    }
  }

  lemma NothingYet(requests: seq<Request>, ttl: real)
    ensures Holds(requests, 0, ttl, map[])
  {
  }

  lemma {:induction false} CacheHolds(requests: seq<Request>, n: nat, ttl: real)
    requires n <= |requests|
    ensures Holds(requests, n, ttl, CacheAfter(requests, n, ttl))
  {
    hide Holds;
    if n == 0 {
      NothingYet(requests, ttl);
    } else {
      CacheHolds(requests, n - 1, ttl);
      HoldsNext(requests, n - 1, ttl);
    }
  }

  /**
   * For every run, whatever the clock: a nonce is accepted exactly when every earlier
   * acceptance of it is a TTL old, by the clock of this request or of one in between.
   */
  lemma AcceptsIff(requests: seq<Request>, n: nat, ttl: real)
    requires n < |requests|
    ensures Accepts(requests, n, ttl)
            <==> forall i :: 0 <= i < n && Accepts(requests, i, ttl) && Young(requests, i, n, ttl) ==>
                   Overtaken(requests, i, n, ttl)
  {
    CacheHolds(requests, n, ttl);
    var cache := CacheAfter(requests, n, ttl);
    if !Accepts(requests, n, ttl) {
      assert Sourced(requests, n, ttl, requests[n].nonce);
      var i :| Live(requests, i, n, ttl) && requests[i].nonce == requests[n].nonce;
      assert Young(requests, i, n, ttl);
    } else {
      forall i | 0 <= i < n && Accepts(requests, i, ttl) && Young(requests, i, n, ttl)
        ensures Overtaken(requests, i, n, ttl)
      {
        assert !Live(requests, i, n, ttl);
      }
    }
  }

  lemma {:induction false} AnswersAt(requests: seq<Request>, n: nat, k: nat, ttl: real)
    requires n + k < |requests|
    ensures var answers := Answers(CacheAfter(requests, n, ttl), requests[n..], ttl);
            answers[k] == Accepts(requests, n + k, ttl)
    decreases |requests| - n
  {
    assert requests[n..][1..] == requests[n + 1..];
    if n + 1 < |requests| {
      AnswersAt(requests, n + 1, if k > 0 then k - 1 else 0, ttl);
    }
  }

  // Agreement with the reference.

  /** If some accepted request of this nonce is young, then one of them was not overtaken. */
  ghost predicate Remembers(requests: seq<Request>, n: nat, ttl: real)
    requires n < |requests|
  {
    (exists i :: 0 <= i < n && New(requests, i, ttl) && Young(requests, i, n, ttl)) ==>
    exists i :: 0 <= i < n && New(requests, i, ttl) && Young(requests, i, n, ttl) && !Overtaken(requests, i, n, ttl)
  }

  lemma {:induction false} AgreesAtIff(requests: seq<Request>, n: nat, ttl: real)
    requires n < |requests| && forall i :: 0 <= i < n ==> Accepts(requests, i, ttl) == New(requests, i, ttl)
    ensures Accepts(requests, n, ttl) == New(requests, n, ttl) <==> Remembers(requests, n, ttl)
  {
    AcceptsIff(requests, n, ttl);
  }

  /**
   * The exact condition, for every clock: the first `n` answers are those of a log that
   * forgets nothing iff no request came while all its young acceptances had been overtaken.
   */
  lemma {:induction false} AgreesWithFullLogIff(requests: seq<Request>, n: nat, ttl: real)
    requires n <= |requests|
    ensures (forall i :: 0 <= i < n ==> Accepts(requests, i, ttl) == New(requests, i, ttl))
            <==> (forall i :: 0 <= i < n ==> Remembers(requests, i, ttl))
  {
    if n > 0 {
      AgreesWithFullLogIff(requests, n - 1, ttl);
      if forall i :: 0 <= i < n - 1 ==> Remembers(requests, i, ttl) {
        AgreesAtIff(requests, n - 1, ttl);
      }
    }
  }

  /** Two requests carry one nonce, with readings less than a TTL apart in either direction. */
  predicate Close(requests: seq<Request>, i: nat, n: nat, ttl: real)
    requires i < |requests| && n < |requests|
  {
    requests[i].nonce == requests[n].nonce && -ttl < requests[n].now - requests[i].now < ttl
  }

  /** Acceptances of one nonce are at least a TTL apart. */
  ghost predicate Spaced(requests: seq<Request>, ttl: real) {
    forall i, j :: 0 <= i < j < |requests| && Accepts(requests, i, ttl) && Accepts(requests, j, ttl) ==>
      !Close(requests, i, j, ttl)
  }

  /** If an acceptance of this nonce is close, then a young acceptance of it has not been overtaken. */
  ghost predicate RemembersClose(requests: seq<Request>, n: nat, ttl: real)
    requires n < |requests|
  {
    (exists i :: 0 <= i < n && Accepts(requests, i, ttl) && Close(requests, i, n, ttl)) ==>
    exists i :: 0 <= i < n && Accepts(requests, i, ttl) && Young(requests, i, n, ttl) && !Overtaken(requests, i, n, ttl)
  }

  /** No close acceptance before request `n`, if it is accepted itself. */
  ghost predicate SpacedAt(requests: seq<Request>, n: nat, ttl: real)
    requires n < |requests|
  {
    Accepts(requests, n, ttl) ==> forall i :: 0 <= i < n && Accepts(requests, i, ttl) ==> !Close(requests, i, n, ttl)
  }

  lemma SpacedAtIff(requests: seq<Request>, n: nat, ttl: real)
    requires n < |requests|
    ensures SpacedAt(requests, n, ttl) <==> RemembersClose(requests, n, ttl)
  {
    AcceptsIff(requests, n, ttl);
  }

  /**
   * The exact condition for the cache's promise, for every clock: acceptances of one nonce
   * are a TTL apart iff no request comes close to an acceptance of its nonce after all the
   * young ones have been overtaken.
   */
  lemma SpacedIff(requests: seq<Request>, ttl: real)
    ensures Spaced(requests, ttl) <==> forall n :: 0 <= n < |requests| ==> RemembersClose(requests, n, ttl)
  {
    hide Accepts, Close, RemembersClose;
    forall n | 0 <= n < |requests|
      ensures SpacedAt(requests, n, ttl) <==> RemembersClose(requests, n, ttl)
    {
      SpacedAtIff(requests, n, ttl);
    }
    if forall n :: 0 <= n < |requests| ==> RemembersClose(requests, n, ttl) {
      forall i, j | 0 <= i < j < |requests| && Accepts(requests, i, ttl) && Accepts(requests, j, ttl)
        ensures !Close(requests, i, j, ttl)
      {
        assert SpacedAt(requests, j, ttl);
      }
    } else {
      assert exists n :: 0 <= n < |requests| && !SpacedAt(requests, n, ttl);
    }
  }

  lemma InOrderRemembers(requests: seq<Request>, n: nat, ttl: real)
    requires InOrder(requests) && n < |requests|
    ensures forall i :: 0 <= i < n && Young(requests, i, n, ttl) ==> !Overtaken(requests, i, n, ttl)
    ensures Remembers(requests, n, ttl)
  {
  }

  /**
   * For every run in clock order over both endpoints, a nonce is accepted exactly when the
   * never-forgetting log holds no acceptance of it less than the TTL ago.
   */
  lemma {:induction false} CacheDecidesLikeFullLog(requests: seq<Request>, ttl: real)
    requires InOrder(requests)
    ensures var answers := Answers(map[], requests, ttl);
            forall n :: 0 <= n < |requests| ==> answers[n] == New(requests, n, ttl)
  {
    forall n | 0 <= n < |requests|
      ensures Remembers(requests, n, ttl)
    {
      InOrderRemembers(requests, n, ttl);
    }
    AgreesWithFullLogIff(requests, |requests|, ttl);
    assert requests[0..] == requests;
    forall n | 0 <= n < |requests|
      ensures Answers(map[], requests, ttl)[n] == New(requests, n, ttl)
    {
      AnswersAt(requests, 0, n, ttl);
    }
  }

  /** Two acceptances of one nonce, on whichever endpoints, are at least the TTL apart. */
  lemma {:induction false} AcceptancesSpaced(requests: seq<Request>, i: nat, j: nat, ttl: real)
    requires InOrder(requests) && i < j < |requests| && requests[i].nonce == requests[j].nonce
    requires Answers(map[], requests, ttl)[i] && Answers(map[], requests, ttl)[j]
    ensures requests[j].now - requests[i].now >= ttl
  {
    assert requests[0..] == requests;
    AnswersAt(requests, 0, i, ttl);
    AnswersAt(requests, 0, j, ttl);
    AcceptsIff(requests, j, ttl);
    InOrderRemembers(requests, j, ttl);
  }

  /**
   * With a late clock reading in between, the cache accepts a nonce twice within one TTL,
   * where the reference rejects it: all its young acceptances have been overtaken.
   */
  lemma OutOfOrderClockAcceptsReplay()
    ensures var requests := [Request(Execute, "n", 0.0), Request(Output, "m", 300.0), Request(Output, "n", 299.0)];
            && Answers(map[], requests, 300.0) == [true, true, true]
            && !New(requests, 2, 300.0) && !Remembers(requests, 2, 300.0)
            && Close(requests, 0, 2, 300.0) && !RemembersClose(requests, 2, 300.0)
  {
    var r0, r1, r2 := Request(Execute, "n", 0.0), Request(Output, "m", 300.0), Request(Output, "n", 299.0);
    var requests := [r0, r1, r2];
    assert requests[1..] == [r1, r2] && [r1, r2][1..] == [r2] && [r2][1..] == [];
    var c1 := StepCache(map[], "n", 0.0, 300.0);
    var c2 := StepCache(c1, "m", 300.0, 300.0);
    assert "n" !in c2;
    assert Answers(c2, [r2], 300.0) == [true];
    assert Answers(c1, [r1, r2], 300.0) == [true, true];
    assert New(requests, 0, 300.0) && Young(requests, 0, 2, 300.0);
    assert requests[1].now - requests[0].now >= 300.0;
    assert requests[0..] == requests;
    AnswersAt(requests, 0, 0, 300.0);
    assert Accepts(requests, 0, 300.0) && Close(requests, 0, 2, 300.0);
  }
}
