/**
 * The sliding-window rule shared by the two rate limiters, next to a limiter that
 * keeps every accepted request for ever. Times are the clock readings of the calls.
 */
module SlidingWindow {
  import opened Prelude

  type Key = string
  type Store = map<Key, seq<real>>

  datatype Reply = Reply(allowed: bool, remaining: int)

  /** A call of the limiter, or the periodic sweep of stale keys, at the time it read the clock. */
  datatype Event =
    | Check(key: Key, now: real)
    | Sweep(now: real)

  /** The timestamps after the cutoff, in order. */
  function Recent(ts: seq<real>, cutoff: real): seq<real> {
    if ts == [] then []
    else if ts[0] > cutoff then [ts[0]] + Recent(ts[1..], cutoff)
    else Recent(ts[1..], cutoff)
  }

  function Lookup(store: Store, key: Key): seq<real> {
    if key in store then store[key] else []
  }

  function Decide(used: int, max: int): Reply {
    if used >= max then Reply(false, 0) else Reply(true, max - used - 1)
  }

  /** What one check leaves stored for its key: the list without expired entries, and the call if allowed. */
  function Stored(ts: seq<real>, now: real, window: real, max: int): seq<real> {
    var recent := Recent(ts, now - window);
    if |recent| >= max then recent else recent + [now]
  }

  function Swept(store: Store, cutoff: real): Store {
    map key | key in store && Recent(store[key], cutoff) != [] :: Recent(store[key], cutoff)
  }

  function StepStore(store: Store, e: Event, window: real, max: int): Store {
    match e
    case Check(key, now) => store[key := Stored(Lookup(store, key), now, window, max)]
    case Sweep(now) => Swept(store, now - window)
  }

  // A run of the limiter, by position.

  function StoreAfter(events: seq<Event>, n: nat, window: real, max: int): Store
    requires n <= |events|
  {
    if n == 0 then map[] else StepStore(StoreAfter(events, n - 1, window, max), events[n - 1], window, max)
  }

  /** The limiter's answer to check `n`. */
  function ReplyAt(events: seq<Event>, n: nat, window: real, max: int): Reply
    requires n < |events| && events[n].Check?
  {
    Decide(|Recent(Lookup(StoreAfter(events, n, window, max), events[n].key), events[n].now - window)|, max)
  }

  predicate Allows(events: seq<Event>, n: nat, window: real, max: int)
    requires n < |events|
  {
    events[n].Check? && ReplyAt(events, n, window, max).allowed
  }

  predicate IsCheck(events: seq<Event>, i: int, key: Key) {
    0 <= i < |events| && events[i].Check? && events[i].key == key
  }

  /** Event `i` lies less than a window before `now`. */
  predicate Young(events: seq<Event>, i: nat, now: real, window: real)
    requires i < |events|
  {
    now - events[i].now < window
  }

  /** The event prunes this key's list. */
  predicate Prunes(e: Event, key: Key) {
    e.Sweep? || e.key == key
  }

  /** Some event between `i` and `n` pruned the key by a clock reading a window or more past event `i`. */
  ghost predicate Overtaken(events: seq<Event>, i: nat, n: nat, key: Key, window: real)
    requires n <= |events|
  {
    exists k :: i < k < n && Prunes(events[k], key) && events[k].now - events[i].now >= window
  }

  // The reference: a limiter that forgets nothing.

  /** It allows a check while fewer than `max` of the allowed checks of its key are young. */
  ghost predicate FullAllows(events: seq<Event>, n: nat, window: real, max: int)
    requires n < |events|
    decreases n
  {
    events[n].Check? &&
    |set i | 0 <= i < n && FullAllows(events, i, window, max) && IsCheck(events, i, events[n].key)
             && Young(events, i, events[n].now, window)| < max
  }

  /** The allowed checks of this key that count against a check of it at `now`, after `n` events. */
  ghost function Counted(events: seq<Event>, n: nat, key: Key, now: real, window: real, max: int): set<int>
    requires n <= |events|
  {
    set i | 0 <= i < n && FullAllows(events, i, window, max) && IsCheck(events, i, key) && Young(events, i, now, window)
  }

  ghost function FullReplyAt(events: seq<Event>, n: nat, window: real, max: int): Reply
    requires n < |events| && events[n].Check?
  {
    Decide(|Counted(events, n, events[n].key, events[n].now, window, max)|, max)
  }

  /** Those of them that nothing overtook. */
  ghost function Remembered(events: seq<Event>, n: nat, key: Key, now: real, window: real, max: int): set<int>
    requires n <= |events|
  {
    set i | i in Counted(events, n, key, now, window, max) && !Overtaken(events, i, n, key, window)
  }

  /** Clock readings do not go back. */
  ghost predicate InOrder(events: seq<Event>) {
    forall i, j :: 0 <= i < j < |events| ==> events[i].now <= events[j].now
  }

  // Pruning.

  lemma {:induction false} RecentTwice(ts: seq<real>, c1: real, c2: real)
    requires c1 <= c2
    ensures Recent(Recent(ts, c1), c2) == Recent(ts, c2)
  {
    if ts != [] {
      RecentTwice(ts[1..], c1, c2);
      if ts[0] > c1 {
        assert Recent(ts, c1)[1..] == Recent(ts[1..], c1);
      }
    }
  }

  lemma {:induction false} RecentAppend(ts: seq<real>, t: real, cutoff: real)
    ensures Recent(ts + [t], cutoff) == if t > cutoff then Recent(ts, cutoff) + [t] else Recent(ts, cutoff)
  {
    if ts == [] {
      assert ts + [t] == [t];
    } else {
      assert (ts + [t])[1..] == ts[1..] + [t];
      RecentAppend(ts[1..], t, cutoff);
    }
  }

  lemma {:induction false} RecentCount(ts: seq<real>, now: real, window: real)
    ensures |Recent(ts, now - window)| == |set i | 0 <= i < |ts| && now - ts[i] < window|
  {
    var all := set i | 0 <= i < |ts| && now - ts[i] < window;
    if ts == [] {
      assert all == {};
    } else {
      var n := |ts| - 1;
      var front := ts[..n];
      RecentCount(front, now, window);
      RecentAppend(front, ts[n], now - window);
      assert front + [ts[n]] == ts;
      var before := set i | 0 <= i < n && now - front[i] < window;
      assert all == if now - ts[n] < window then before + {n} else before;
    }
  }

  lemma {:induction false} SomeRecent(ts: seq<real>, now: real, window: real)
    ensures Recent(ts, now - window) != [] <==> exists i :: 0 <= i < |ts| && now - ts[i] < window
  {
    RecentCount(ts, now, window);
    var young := set i | 0 <= i < |ts| && now - ts[i] < window;
    if i :| 0 <= i < |ts| && now - ts[i] < window {
      assert i in young;
    }
    if young != {} {
      var i :| i in young;
    }
  }

  lemma {:induction false} RecentShortens(ts: seq<real>, cutoff: real)
    ensures |Recent(ts, cutoff)| <= |ts|
  {
    if ts != [] {
      RecentShortens(ts[1..], cutoff);
    }
  }

  // What the lists hold.

  /** The times of the first `m` events that were allowed for the key and that nothing before `n` overtook. */
  ghost function Kept(events: seq<Event>, m: nat, n: nat, key: Key, window: real, max: int): seq<real>
    requires m <= n <= |events|
    decreases m
  {
    if m == 0 then []
    else
      Kept(events, m - 1, n, key, window, max)
      + (if IsLive(events, m - 1, n, key, window, max) then [events[m - 1].now] else [])
  }

  ghost predicate IsLive(events: seq<Event>, i: int, n: nat, key: Key, window: real, max: int)
    requires n <= |events|
  {
    0 <= i < n && IsCheck(events, i, key) && Allows(events, i, window, max) && !Overtaken(events, i, n, key, window)
  }

  lemma OvertakenNext(events: seq<Event>, i: nat, n: nat, key: Key, window: real)
    requires i < n < |events|
    ensures Overtaken(events, i, n + 1, key, window)
            <==> Overtaken(events, i, n, key, window)
                 || (Prunes(events[n], key) && events[n].now - events[i].now >= window)
  {
    if Overtaken(events, i, n, key, window) {
      var k :| i < k < n && Prunes(events[k], key) && events[k].now - events[i].now >= window;
      assert i < k < n + 1;
    }
  }

  lemma KeptStep(events: seq<Event>, m: nat, n: nat, key: Key, window: real, max: int)
    requires m < n <= |events|
    ensures Kept(events, m + 1, n, key, window, max)
            == if IsLive(events, m, n, key, window, max) then Kept(events, m, n, key, window, max) + [events[m].now]
               else Kept(events, m, n, key, window, max)
  {
    var before := Kept(events, m, n, key, window, max);
    assert before + [] == before;
  }

  /** One more event prunes the key's list, or leaves it alone. */
  lemma {:induction false} KeptNext(events: seq<Event>, m: nat, n: nat, key: Key, window: real, max: int)
    requires m <= n < |events|
    ensures Kept(events, m, n + 1, key, window, max)
            == if Prunes(events[n], key) then Recent(Kept(events, m, n, key, window, max), events[n].now - window)
               else Kept(events, m, n, key, window, max)
    decreases m
  {
    hide IsLive, Prunes, Kept, Recent;
    if m == 0 {
      NoneKept(events, n, key, window, max, events[n].now - window);
    } else {
      KeptNext(events, m - 1, n, key, window, max);
      LiveNext(events, m - 1, n, key, window, max);
      KeptStep(events, m - 1, n, key, window, max);
      KeptStep(events, m - 1, n + 1, key, window, max);
      RecentAppend(Kept(events, m - 1, n, key, window, max), events[m - 1].now, events[n].now - window);
    }
  }

  lemma NoneKept(events: seq<Event>, n: nat, key: Key, window: real, max: int, cutoff: real)
    requires n < |events|
    ensures Kept(events, 0, n, key, window, max) == Kept(events, 0, n + 1, key, window, max) == [] == Recent([], cutoff)
  {
  }

  lemma LiveNext(events: seq<Event>, i: nat, n: nat, key: Key, window: real, max: int)
    requires i < n < |events|
    ensures IsLive(events, i, n + 1, key, window, max)
            <==> IsLive(events, i, n, key, window, max)
                 && !(Prunes(events[n], key) && events[n].now - events[i].now >= window)
  {
    OvertakenNext(events, i, n, key, window);
  }

  lemma {:induction false} LastIsLive(events: seq<Event>, n: nat, key: Key, window: real, max: int)
    requires n < |events|
    ensures IsLive(events, n, n + 1, key, window, max)
            <==> IsCheck(events, n, key)
                 && |Recent(Lookup(StoreAfter(events, n, window, max), key), events[n].now - window)| < max
  {
  }

  lemma {:induction false} StepLookup(store: Store, e: Event, key: Key, window: real, max: int)
    ensures Lookup(StepStore(store, e, window, max), key)
            == var left := if Prunes(e, key) then Recent(Lookup(store, key), e.now - window) else Lookup(store, key);
               if e.Check? && e.key == key && |Recent(Lookup(store, key), e.now - window)| < max then left + [e.now]
               else left
  {
  }

  lemma {:induction false} NothingStored(events: seq<Event>, key: Key, window: real, max: int)
    ensures Lookup(StoreAfter(events, 0, window, max), key) == [] == Kept(events, 0, 0, key, window, max)
  {
  }

  /** For every run, whatever the clock: the stored list of each key is the kept times. */
  lemma {:induction false} StoreIsKept(events: seq<Event>, n: nat, key: Key, window: real, max: int)
    requires n <= |events|
    ensures Lookup(StoreAfter(events, n, window, max), key) == Kept(events, n, n, key, window, max)
    decreases n
  {
    hide IsLive, Recent, StepStore, Prunes, Lookup, Kept;
    if n == 0 {
      NothingStored(events, key, window, max);
    } else {
      StoreIsKept(events, n - 1, key, window, max);
      KeptStep(events, n - 1, n, key, window, max);
      KeptNext(events, n - 1, n - 1, key, window, max);
      LastIsLive(events, n - 1, key, window, max);
      StepLookup(StoreAfter(events, n - 1, window, max), events[n - 1], key, window, max);
    }
  }

  /** The allowed checks that the limiter itself counts. */
  ghost function LiveYoung(events: seq<Event>, m: nat, n: nat, key: Key, now: real, window: real, max: int): set<int>
    requires m <= n <= |events|
  {
    set i | 0 <= i < m && IsLive(events, i, n, key, window, max) && Young(events, i, now, window)
  }

  lemma {:induction false} NothingKept(events: seq<Event>, n: nat, key: Key, now: real, window: real, max: int)
    requires n <= |events|
    ensures LiveYoung(events, 0, n, key, now, window, max) == {}
    ensures Recent(Kept(events, 0, n, key, window, max), now - window) == []
  {
  }

  lemma LiveYoungNext(events: seq<Event>, m: nat, n: nat, key: Key, now: real, window: real, max: int)
    requires m < n <= |events|
    ensures LiveYoung(events, m + 1, n, key, now, window, max)
            == LiveYoung(events, m, n, key, now, window, max)
               + (if IsLive(events, m, n, key, window, max) && Young(events, m, now, window) then {m} else {})
    ensures m !in LiveYoung(events, m, n, key, now, window, max)
  {
    hide IsLive, Young;
  }

  lemma {:induction false} RecentKept(events: seq<Event>, m: nat, n: nat, key: Key, now: real, window: real, max: int)
    requires m <= n <= |events|
    ensures |Recent(Kept(events, m, n, key, window, max), now - window)|
            == |LiveYoung(events, m, n, key, now, window, max)|
    decreases m
  {
    hide IsLive, LiveYoung, Recent, Kept;
    if m == 0 {
      NothingKept(events, n, key, now, window, max);
    } else {
      RecentKept(events, m - 1, n, key, now, window, max);
      LiveYoungNext(events, m - 1, n, key, now, window, max);
      KeptStep(events, m - 1, n, key, window, max);
      RecentAppend(Kept(events, m - 1, n, key, window, max), events[m - 1].now, now - window);
    }
  }

  /** For every run, whatever the clock: what a check is decided by. */
  lemma ReplyIs(events: seq<Event>, n: nat, window: real, max: int)
    requires n < |events| && events[n].Check?
    ensures ReplyAt(events, n, window, max)
            == Decide(|LiveYoung(events, n, n, events[n].key, events[n].now, window, max)|, max)
  {
    StoreIsKept(events, n, events[n].key, window, max);
    RecentKept(events, n, n, events[n].key, events[n].now, window, max);
  }

  // Agreement with the reference.

  ghost predicate SameDecisions(events: seq<Event>, n: nat, window: real, max: int)
    requires n <= |events|
  {
    forall i :: 0 <= i < n ==> Allows(events, i, window, max) == FullAllows(events, i, window, max)
  }

  /** Fewer than `max` remembered checks means that nothing that counts was forgotten. */
  ghost predicate KeepsCount(events: seq<Event>, n: nat, window: real, max: int)
    requires n < |events|
  {
    events[n].Check? ==>
      var key, now := events[n].key, events[n].now;
      |Remembered(events, n, key, now, window, max)| < max ==>
      Counted(events, n, key, now, window, max) == Remembered(events, n, key, now, window, max)
  }

  /** If `max` checks count, then `max` of them are remembered. */
  ghost predicate KeepsLimit(events: seq<Event>, n: nat, window: real, max: int)
    requires n < |events|
  {
    events[n].Check? ==>
      var key, now := events[n].key, events[n].now;
      |Counted(events, n, key, now, window, max)| >= max ==> |Remembered(events, n, key, now, window, max)| >= max
  }

  lemma SubsetSizes(a: set<int>, b: set<int>)
    requires a <= b
    ensures |a| <= |b| && (|a| == |b| <==> a == b)
  {
    var rest := b - a;
    assert b == a + rest;
  }

  lemma {:induction false} AgreesAtIff(events: seq<Event>, n: nat, window: real, max: int)
    requires n < |events| && SameDecisions(events, n, window, max)
    ensures (events[n].Check? ==> ReplyAt(events, n, window, max) == FullReplyAt(events, n, window, max))
            <==> KeepsCount(events, n, window, max)
    ensures Allows(events, n, window, max) == FullAllows(events, n, window, max) <==> KeepsLimit(events, n, window, max)
    ensures KeepsCount(events, n, window, max) ==> KeepsLimit(events, n, window, max)
  {
    if events[n].Check? {
      var key, now := events[n].key, events[n].now;
      ReplyIs(events, n, window, max);
      var all, kept := Counted(events, n, key, now, window, max), Remembered(events, n, key, now, window, max);
      assert LiveYoung(events, n, n, key, now, window, max) == kept;
      assert FullAllows(events, n, window, max) <==> |all| < max;
      SubsetSizes(kept, all);
    }
  }

  /** The exact condition, for every clock: the limiter's decisions are those of a full history. */
  lemma {:induction false} DecidesLikeFullHistoryIff(events: seq<Event>, n: nat, window: real, max: int)
    requires n <= |events|
    ensures SameDecisions(events, n, window, max)
            <==> forall i :: 0 <= i < n ==> KeepsLimit(events, i, window, max)
    decreases n
  {
    hide KeepsCount, KeepsLimit, Allows, FullAllows;
    if n > 0 {
      DecidesLikeFullHistoryIff(events, n - 1, window, max);
      if SameDecisions(events, n - 1, window, max) {
        AgreesAtIff(events, n - 1, window, max);
      }
    }
  }

  ghost predicate SameReplies(events: seq<Event>, n: nat, window: real, max: int)
    requires n <= |events|
  {
    forall i :: 0 <= i < n && events[i].Check? ==>
      ReplyAt(events, i, window, max) == FullReplyAt(events, i, window, max)
  }

  lemma SameRepliesSameDecisions(events: seq<Event>, n: nat, window: real, max: int)
    requires n <= |events| && SameReplies(events, n, window, max)
    ensures SameDecisions(events, n, window, max)
  {
    forall i | 0 <= i < n
      ensures Allows(events, i, window, max) == FullAllows(events, i, window, max)
    {
      if events[i].Check? {
        assert FullAllows(events, i, window, max)
          <==> |Counted(events, i, events[i].key, events[i].now, window, max)| < max by {
          FullAllowsIs(events, i, window, max);
        }
      }
    }
  }

  lemma {:induction false} FullAllowsIs(events: seq<Event>, n: nat, window: real, max: int)
    requires n < |events| && events[n].Check?
    ensures FullAllows(events, n, window, max)
            <==> |Counted(events, n, events[n].key, events[n].now, window, max)| < max
  {
  }

  /** And for the replies, with their `remaining`. */
  lemma {:induction false} RepliesLikeFullHistoryIff(events: seq<Event>, n: nat, window: real, max: int)
    requires n <= |events|
    ensures SameReplies(events, n, window, max)
            <==> forall i :: 0 <= i < n ==> KeepsCount(events, i, window, max)
    decreases n
  {
    hide KeepsCount, KeepsLimit, SameDecisions, ReplyAt, FullReplyAt;
    if n > 0 {
      RepliesLikeFullHistoryIff(events, n - 1, window, max);
      if SameReplies(events, n - 1, window, max) {
        SameRepliesSameDecisions(events, n - 1, window, max);
        AgreesAtIff(events, n - 1, window, max);
      }
    }
  }

  lemma InOrderKeeps(events: seq<Event>, n: nat, window: real, max: int)
    requires InOrder(events) && n < |events|
    ensures KeepsCount(events, n, window, max)
  {
    if events[n].Check? {
      var key, now := events[n].key, events[n].now;
      forall i | i in Counted(events, n, key, now, window, max)
        ensures !Overtaken(events, i, n, key, window)
      {
      }
    }
  }

  /** For every run in clock order, pruning and sweeping change no decision and no `remaining`. */
  lemma PrunedLimiterDecidesLikeFullHistory(events: seq<Event>, window: real, max: int)
    requires InOrder(events)
    ensures SameReplies(events, |events|, window, max) && SameDecisions(events, |events|, window, max)
  {
    forall n | 0 <= n < |events|
      ensures KeepsCount(events, n, window, max)
    {
      InOrderKeeps(events, n, window, max);
    }
    RepliesLikeFullHistoryIff(events, |events|, window, max);
    SameRepliesSameDecisions(events, |events|, window, max);
  }

  // How many calls a window can hold.

  /** The checks of a key that the limiter allowed in the half-open window from `from`. */
  ghost function AllowedIn(events: seq<Event>, n: nat, key: Key, from: real, window: real, max: int): set<int>
    requires n <= |events|
  {
    set i | 0 <= i < n && IsCheck(events, i, key) && Allows(events, i, window, max)
            && from <= events[i].now < from + window
  }

  ghost predicate NoWindowOverfull(events: seq<Event>, n: nat, window: real, max: nat)
    requires n <= |events|
  {
    forall key, from :: |AllowedIn(events, n, key, from, window, max)| <= max
  }

  /** Some window around the reading of check `n` is full before it: it holds `max` allowed checks of its key. */
  ghost predicate AtLimit(events: seq<Event>, n: nat, window: real, max: nat)
    requires n < |events| && events[n].Check?
  {
    exists from :: from <= events[n].now < from + window
                   && |AllowedIn(events, n, events[n].key, from, window, max)| >= max
  }

  /** At a check with a full window around it, `max` young allowed checks have not been overtaken. */
  ghost predicate RemembersLimit(events: seq<Event>, n: nat, window: real, max: nat)
    requires n < |events|
  {
    events[n].Check? && AtLimit(events, n, window, max) ==>
      |LiveYoung(events, n, n, events[n].key, events[n].now, window, max)| >= max
  }

  lemma AllowedInNext(events: seq<Event>, n: nat, key: Key, from: real, window: real, max: nat)
    requires n < |events|
    ensures n !in AllowedIn(events, n, key, from, window, max)
    ensures AllowedIn(events, n + 1, key, from, window, max)
            == AllowedIn(events, n, key, from, window, max)
               + (if IsCheck(events, n, key) && Allows(events, n, window, max) && from <= events[n].now < from + window
                  then {n} else {})
  {
    hide Allows, IsCheck;
  }

  lemma {:induction false} OverfullStays(events: seq<Event>, n: nat, window: real, max: nat)
    requires n < |events| && NoWindowOverfull(events, n + 1, window, max)
    ensures NoWindowOverfull(events, n, window, max)
  {
    hide AllowedIn;
    forall key, from
      ensures |AllowedIn(events, n, key, from, window, max)| <= max
    {
      AllowedInNext(events, n, key, from, window, max);
      SubsetSizes(AllowedIn(events, n, key, from, window, max), AllowedIn(events, n + 1, key, from, window, max));
    }
  }

  /** A check that is allowed while a window around it is full overfills that window. */
  lemma {:induction false} FullWindowRefuses(events: seq<Event>, n: nat, window: real, max: nat)
    requires n < |events| && NoWindowOverfull(events, n + 1, window, max)
    ensures RemembersLimit(events, n, window, max)
  {
    hide AllowedIn, LiveYoung;
    if events[n].Check? && AtLimit(events, n, window, max) {
      var key := events[n].key;
      var from :| from <= events[n].now < from + window && |AllowedIn(events, n, key, from, window, max)| >= max;
      ReplyIs(events, n, window, max);
      AllowedInNext(events, n, key, from, window, max);
      assert |AllowedIn(events, n + 1, key, from, window, max)| <= max;
    }
  }

  lemma {:induction false} RefusalKeepsBound(events: seq<Event>, n: nat, window: real, max: nat)
    requires n < |events| && NoWindowOverfull(events, n, window, max) && RemembersLimit(events, n, window, max)
    ensures NoWindowOverfull(events, n + 1, window, max)
  {
    hide AllowedIn, LiveYoung;
    var next := n + 1;
    forall key, from
      ensures |AllowedIn(events, next, key, from, window, max)| <= max
    {
      AllowedInNext(events, n, key, from, window, max);
      assert |AllowedIn(events, n, key, from, window, max)| <= max;
      if IsCheck(events, n, key) {
        ReplyIs(events, n, window, max);
      }
    }
  }

  /**
   * The exact condition, for every clock: no interval of the window's length ever holds more
   * than `max` calls of one key that the limiter allowed, iff every check that came when
   * such an interval around it was full still found `max` young calls remembered.
   */
  lemma {:induction false} NoWindowOverflowsIff(events: seq<Event>, n: nat, window: real, max: nat)
    requires n <= |events|
    ensures NoWindowOverfull(events, n, window, max)
            <==> forall i :: 0 <= i < n ==> RemembersLimit(events, i, window, max)
    decreases n
  {
    hide NoWindowOverfull, RemembersLimit;
    if n == 0 {
      NoWindowYet(events, n, window, max);
    } else {
      NoWindowOverflowsIff(events, n - 1, window, max);
      if NoWindowOverfull(events, n, window, max) {
        OverfullStays(events, n - 1, window, max);
        FullWindowRefuses(events, n - 1, window, max);
      } else if NoWindowOverfull(events, n - 1, window, max) && RemembersLimit(events, n - 1, window, max) {
        RefusalKeepsBound(events, n - 1, window, max);
      }
    }
  }

  lemma {:induction false} NoWindowYet(events: seq<Event>, n: nat, window: real, max: nat)
    requires n == 0
    ensures NoWindowOverfull(events, n, window, max)
  {
    assert forall key, from :: AllowedIn(events, n, key, from, window, max) == {};
  }

  /** In clock order nothing young is overtaken, so everything in the window is remembered. */
  lemma InOrderRemembersLimit(events: seq<Event>, n: nat, window: real, max: nat)
    requires InOrder(events) && n < |events|
    ensures RemembersLimit(events, n, window, max)
  {
    hide Allows;
    if events[n].Check? && AtLimit(events, n, window, max) {
      var key, now := events[n].key, events[n].now;
      var from :| from <= now < from + window && |AllowedIn(events, n, key, from, window, max)| >= max;
      var inside, live := AllowedIn(events, n, key, from, window, max), LiveYoung(events, n, n, key, now, window, max);
      assert inside <= live;
      SubsetSizes(inside, live);
    }
  }

  /** So the promise holds of every run in clock order. */
  lemma NoWindowOverflowsInOrder(events: seq<Event>, key: Key, from: real, window: real, max: nat)
    requires InOrder(events)
    ensures |AllowedIn(events, |events|, key, from, window, max)| <= max
  {
    forall i | 0 <= i < |events|
      ensures RemembersLimit(events, i, window, max)
    {
      InOrderRemembersLimit(events, i, window, max);
    }
    NoWindowOverflowsIff(events, |events|, window, max);
  }

  /**
   * Otherwise it can fail: the sweep drops an entry that is still inside the window of the
   * third call, whose clock reading is older, and a window of one call holds two.
   */
  lemma {:induction false} OutOfOrderClockOverflows(events: seq<Event>)
    requires events == [Check("a", 1.0), Sweep(11.0), Check("a", 5.0)]
    ensures AllowedIn(events, 3, "a", 1.0, 10.0, 1) == {0, 2}
    ensures !FullAllows(events, 2, 10.0, 1)
    ensures !RemembersLimit(events, 2, 10.0, 1) && !KeepsLimit(events, 2, 10.0, 1)
  {
    var s1 := StepStore(map[], events[0], 10.0, 1);
    assert StoreAfter(events, 0, 10.0, 1) == map[];
    assert StoreAfter(events, 1, 10.0, 1) == s1 && Lookup(s1, "a") == [1.0];
    var s2 := StepStore(s1, events[1], 10.0, 1);
    assert StoreAfter(events, 2, 10.0, 1) == s2 && Lookup(s2, "a") == [];
    assert Allows(events, 0, 10.0, 1) && Allows(events, 2, 10.0, 1);
    FullAllowsIs(events, 0, 10.0, 1);
    assert Counted(events, 0, "a", 1.0, 10.0, 1) == {};
    FullAllowsIs(events, 2, 10.0, 1);
    assert Counted(events, 2, "a", 5.0, 10.0, 1) == {0};
    assert Prunes(events[1], "a") && events[1].now - events[0].now >= 10.0;
    assert Overtaken(events, 0, 2, "a", 10.0);
    assert Remembered(events, 2, "a", 5.0, 10.0, 1) == {};
    assert LiveYoung(events, 2, 2, "a", 5.0, 10.0, 1) == {};
    assert AllowedIn(events, 2, "a", 1.0, 10.0, 1) == {0};
  }

  /** Over any run the list kept for a key stays within `max` entries. */
  lemma {:induction false} StoredListsBounded(events: seq<Event>, n: nat, window: real, max: nat)
    requires n <= |events|
    ensures forall key :: |Lookup(StoreAfter(events, n, window, max), key)| <= max
  {
    if n > 0 {
      StoredListsBounded(events, n - 1, window, max);
      forall key
        ensures |Lookup(StoreAfter(events, n, window, max), key)| <= max
      {
        RecentShortens(Lookup(StoreAfter(events, n - 1, window, max), key), events[n - 1].now - window);
        StepLookup(StoreAfter(events, n - 1, window, max), events[n - 1], key, window, max);
      }
    }
  }

  /** How many of `n` further calls for one key, all at the instant `now`, are allowed. */
  function AllowedAt(ts: seq<real>, now: real, window: real, max: int, n: nat): nat
    decreases n
  {
    if n == 0 then 0
    else
      (if |Recent(ts, now - window)| < max then 1 else 0)
      + AllowedAt(Stored(ts, now, window, max), now, window, max, n - 1)
  }

  lemma {:induction false} AllowedAtCount(ts: seq<real>, now: real, window: real, max: int, n: nat)
    requires window > 0.0
    ensures var free := max - |Recent(ts, now - window)|;
            AllowedAt(ts, now, window, max, n) == if free <= 0 then 0 else if n <= free then n else free
    decreases n
  {
    if n > 0 {
      var recent := Recent(ts, now - window);
      RecentTwice(ts, now - window, now - window);
      RecentAppend(recent, now, now - window);
      AllowedAtCount(Stored(ts, now, window, max), now, window, max, n - 1);
    }
  }

  /** The reported `remaining` is how many more calls at that instant would be allowed. */
  lemma {:induction false} RemainingIsExact(ts: seq<real>, now: real, window: real, max: int, n: nat)
    requires window > 0.0
    ensures var reply := Decide(|Recent(ts, now - window)|, max);
            reply.remaining >= 0
            && AllowedAt(Stored(ts, now, window, max), now, window, max, n)
               == if n <= reply.remaining then n else reply.remaining
  {
    var recent := Recent(ts, now - window);
    RecentTwice(ts, now - window, now - window);
    RecentAppend(recent, now, now - window);
    AllowedAtCount(Stored(ts, now, window, max), now, window, max, n);
  }
}
