/** `TradeLockService` as an object: its fields, and one method per stretch of code
    between two awaits, each proved to take the corresponding step. */
module TradeLockService {
  import opened TradeLock

  class Service {
    var userLocks: map<UserId, Req>
    var idempotencyCache: map<IdempotencyKey, CacheEntry>
    var tradeCounter: nat
    /** `Date.now()` */
    var now: int
    /** The calls of `executeTrade` so far, and where each is suspended. */
    var requests: map<Req, Request>
    var phase: map<Req, Phase>
    ghost var started: map<Req, TradeId>
    ghost var cachedUntil: map<Req, int>

    ghost function View(): State
      reads this
    {
      State(userLocks, idempotencyCache, tradeCounter, now, requests, phase, started, cachedUntil)
    }

    ghost predicate Valid()
      reads this
    {
      Inv(View())
    }

    constructor (clock: int)
      ensures Valid() && View() == Init(clock)
    {
      userLocks, idempotencyCache, tradeCounter, now := map[], map[], 0, clock;
      requests, phase, started, cachedUntil := map[], map[], map[], map[];
    }

    /** `executeTrade(request)` up to its first await, for a request that passed validation. */
    method ExecuteTrade(r: Req, request: Request)
      requires Valid() && Enabled(View(), Submit(r, request))
      modifies this
      ensures Valid() && View() == Apply(old(View()), Submit(r, request))
    {
      hide Inv;
      StepKeepsInv(View(), Submit(r, request));
      requests := requests[r := request];
      if request.key in idempotencyCache && now < idempotencyCache[request.key].expiresAt {
        phase := phase[r := Done(idempotencyCache[request.key].result)];
        return;
      }
      idempotencyCache := idempotencyCache - {request.key};
      if request.user in userLocks {
        phase := phase[r := Waiting(userLocks[request.user])];
      } else {
        EnterLockedSection(r, request);
      }
    }

    /** `withUserLock` after the await, down to the first await inside `fn`. */
    method EnterLockedSection(r: Req, request: Request)
      modifies this
      ensures View() == Enter(old(View()), r, request)
    {
      userLocks := userLocks[request.user := r];
      if request.key in idempotencyCache && now < idempotencyCache[request.key].expiresAt {
        phase := phase[r := Finishing(idempotencyCache[request.key].result)];
      } else {
        tradeCounter := tradeCounter + 1;
        var trade := TradeId(tradeCounter, now);
        started := started[r := trade];
        phase := phase[r := Trading(trade)];
      }
    }

    method ResumeAfterLock(r: Req)
      requires Valid() && Enabled(View(), Resume(r))
      modifies this
      ensures Valid() && View() == Apply(old(View()), Resume(r))
    {
      hide Inv;
      StepKeepsInv(View(), Resume(r));
      EnterLockedSection(r, requests[r]);
    }

    method PerformTradeReturns(r: Req)
      requires Valid() && Enabled(View(), TradeReturns(r))
      modifies this
      ensures Valid() && View() == Apply(old(View()), TradeReturns(r))
    {
      hide Inv;
      StepKeepsInv(View(), TradeReturns(r));
      phase := phase[r := Traded(phase[r].trade)];
    }

    /** `this.idempotencyCache.set(...)` with a life of 24 hours. */
    method StoreResult(r: Req)
      requires Valid() && Enabled(View(), CacheResult(r))
      modifies this
      ensures Valid() && View() == Apply(old(View()), CacheResult(r))
    {
      hide Inv;
      StepKeepsInv(View(), CacheResult(r));
      var trade := phase[r].trade;
      idempotencyCache := idempotencyCache[requests[r].key := CacheEntry(trade, now + DAY_MS)];
      cachedUntil := cachedUntil[r := now + DAY_MS];
      phase := phase[r := Finishing(trade)];
    }

    /** The `finally` block of `withUserLock`. */
    method ReleaseLock(r: Req)
      requires Valid() && Enabled(View(), Release(r))
      modifies this
      ensures Valid() && View() == Apply(old(View()), Release(r))
    {
      hide Inv;
      StepKeepsInv(View(), Release(r));
      phase := phase[r := Done(phase[r].result)];
      var user := requests[r].user;
      if user in userLocks && userLocks[user] == r {
        userLocks := userLocks - {user};
      }
    }

    /** `cleanupExpiredCache()`: one entry after the other. */
    method CleanupExpiredCache()
      requires Valid()
      modifies this
      ensures Valid() && View() == Apply(old(View()), Cleanup)
    {
      hide Inv;
      StepKeepsInv(View(), Cleanup);
      ghost var before := View();
      var keys := idempotencyCache.Keys;
      while keys != {}
        invariant keys <= idempotencyCache.Keys <= before.cache.Keys
        invariant View() == before.(cache := idempotencyCache)
        invariant forall k :: k in idempotencyCache ==> idempotencyCache[k] == before.cache[k]
        invariant forall k :: k in before.cache && k !in keys ==>
          (k in idempotencyCache <==> now < before.cache[k].expiresAt)
        decreases keys
      {
        var k :| k in keys;
        keys := keys - {k};
        if now >= idempotencyCache[k].expiresAt {
          idempotencyCache := idempotencyCache - {k};
        }
      }
      assert idempotencyCache == Apply(before, Cleanup).cache;
    }
  }
}
