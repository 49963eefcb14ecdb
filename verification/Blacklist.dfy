/** The blacklist of markets and tokens, and its lock-free projection: two Bloom filters in front of
    exact tables. */
module Blacklists {
  import opened MachineInts
  import Bloom = BloomFilters

  /** Identifiers are their UTF-8 bytes. */
  type Id = seq<bv8>


  datatype Scope = DataPath | TradingPath | Full {
    function Rank(): nat {
      match this
      case DataPath => 0
      case TradingPath => 1
      case Full => 2
    }

    predicate AtLeast(other: Scope) { Rank() >= other.Rank() }
  }

  datatype Reason =
    | ConsecutiveFokFailures
    | TradeFailedAfterMatched
    | DepthDrop
    | TickChange
    | Manual
    | DataNotFound

  datatype Key = Market(id: Id) | Token(id: Id)

  datatype Info = Info(
    scope: Scope,
    reason: Reason,
    expiresAt: Option<int>,
    createdAt: int,
    missCount: int)
  {
    predicate IsPermanent() { expiresAt.None? }

    predicate IsExpired(now: int) { expiresAt.Some? && now >= expiresAt.value }
  }

  type Entries = map<Key, Info>

  datatype CheckResult = Clear | Blocked(reason: Reason, scope: Scope, expiresAt: Option<int>)

  // ── Live answers ───────────────────────────────────────────────────────────

  function Check(es: Entries, market: Id, required: Scope, now: int): CheckResult {
    if Market(market) in es && !es[Market(market)].IsExpired(now) && es[Market(market)].scope.AtLeast(required)
    then Blocked(es[Market(market)].reason, es[Market(market)].scope, es[Market(market)].expiresAt)
    else Clear
  }

  predicate TokenBlacklisted(es: Entries, token: Id, now: int) {
    Token(token) in es && !es[Token(token)].IsExpired(now)
  }

  /** Dropping an entry once its lookup finds it expired. */
  function EvictIfExpired(es: Entries, k: Key, now: int): Entries {
    if k in es && es[k].IsExpired(now) then es - {k} else es
  }

  // ── Updates ────────────────────────────────────────────────────────────────

  /** The expiry of a temporary entry; durations beyond chrono's millisecond range become an hour. */
  function ExpiryAfter(now: int, secs: u64): int {
    now + (if secs <= I64_MAX / 1000 then secs else 3600) * NANOS_PER_SEC
  }

  function AddTemporary(es: Entries, k: Key, scope: Scope, reason: Reason, secs: u64, misses: u32, now: int): Entries {
    var until := ExpiryAfter(now, secs);
    var count := Min(misses, I32_MAX);
    if k in es then
      var e := es[k];
      if e.IsPermanent() then es
      else es[k := e.(scope := if scope.Rank() > e.scope.Rank() then scope else e.scope,
                      expiresAt := if until > e.expiresAt.value then Some(until) else e.expiresAt,
                      missCount := count)]
    else es[k := Info(scope, reason, Some(until), now, count)]
  }

  function AddPermanent(es: Entries, market: Id, reason: Reason, now: int): Entries {
    es[Market(market) := Info(Full, reason, None, now, 0)]
  }

  function Remove(es: Entries, market: Id): Entries { es - {Market(market)} }

  function CollectGarbage(es: Entries, now: int): Entries {
    map k | k in es && (es[k].IsPermanent() || !es[k].IsExpired(now)) :: es[k]
  }

  datatype AutoPolicy = AutoPolicy(missThreshold: u32, durationSecs: u64)

  predicate AutoApplies(es: Entries, p: AutoPolicy, market: Id, misses: u32) {
    misses >= p.missThreshold && Market(market) !in es
  }

  function MaybeAutoBlacklist(es: Entries, p: AutoPolicy, market: Id, misses: u32, now: int): Entries {
    if AutoApplies(es, p, market, misses)
    then AddTemporary(es, Market(market), TradingPath, ConsecutiveFokFailures, p.durationSecs, misses, now)
    else es
  }

  /** Configured permanent keys are added where absent and never replace an entry. */
  function MergePermanent(es: Entries, keys: seq<Key>, now: int): Entries {
    if keys == [] then es
    else
      var before, k := MergePermanent(es, keys[..|keys| - 1], now), keys[|keys| - 1];
      if k in before then before else before[k := Info(Full, Manual, None, now, 0)]
  }

  // ── What the updates guarantee ─────────────────────────────────────────────

  /** Garbage collection and lazy eviction are invisible: every later answer is the same. */
  lemma CollectionInvisible(es: Entries, now: int, later: int, id: Id, required: Scope, k: Key)
    requires later >= now
    ensures Check(CollectGarbage(es, now), id, required, later) == Check(es, id, required, later)
    ensures TokenBlacklisted(CollectGarbage(es, now), id, later) == TokenBlacklisted(es, id, later)
    ensures Check(EvictIfExpired(es, k, now), id, required, later) == Check(es, id, required, later)
    ensures TokenBlacklisted(EvictIfExpired(es, k, now), id, later) == TokenBlacklisted(es, id, later)
  {
  }

  /** A temporary addition never weakens an existing block, at any later instant. */
  lemma TemporaryNeverDowngrades(es: Entries, k: Key, scope: Scope, reason: Reason, secs: u64, misses: u32,
                                 now: int, id: Id, required: Scope, later: int)
    requires Check(es, id, required, later).Blocked?
    ensures var r := Check(AddTemporary(es, k, scope, reason, secs, misses, now), id, required, later);
            r.Blocked? && r.scope.AtLeast(Check(es, id, required, later).scope)
            && r.reason == Check(es, id, required, later).reason
  {
  }

  /** A temporary market block of positive length takes effect at the requested scope if and only if
      the market has no permanent entry of a narrower scope. */
  lemma TemporaryTakesEffect(es: Entries, market: Id, scope: Scope, reason: Reason, secs: u64, misses: u32, now: int)
    requires secs > 0
    ensures Check(AddTemporary(es, Market(market), scope, reason, secs, misses, now), market, scope, now).Blocked?
      <==> !(Market(market) in es && es[Market(market)].IsPermanent() && !es[Market(market)].scope.AtLeast(scope))
  {
  }

  /** Over all instants: the block is in force exactly until the later of the old and the new expiry, at the wider
      of the two scopes and for the older reason.  A permanent entry is left as it is. */
  lemma TemporaryBlocksUntil(es: Entries, market: Id, scope: Scope, reason: Reason, secs: u64, misses: u32, now: int,
                             required: Scope, later: int)
    requires secs <= I64_MAX / 1000
    ensures var k := Market(market);
            var r := Check(AddTemporary(es, k, scope, reason, secs, misses, now), market, required, later);
            var until := now + secs * 1_000_000_000;
      if k !in es then
        r == if later < until && scope.AtLeast(required) then Blocked(reason, scope, Some(until)) else Clear
      else if es[k].IsPermanent() then r == Check(es, market, required, later)
      else
        && (r.Blocked? <==>
             && (later < until || later < es[k].expiresAt.value)
             && (scope.AtLeast(required) || es[k].scope.AtLeast(required)))
        && (r.Blocked? ==> r.reason == es[k].reason && r.scope.AtLeast(scope) && r.scope.AtLeast(es[k].scope))
    ensures var k, es' := Market(market), AddTemporary(es, Market(market), scope, reason, secs, misses, now);
      k in es' && es'[k].missCount == if k in es && es[k].IsPermanent() then es[k].missCount else Min(misses, I32_MAX)
  {
  }

  /** A permanent block holds at every scope and every instant, and touches no other market. */
  lemma PermanentBlocksForever(es: Entries, market: Id, reason: Reason, now: int, required: Scope, later: int, other: Id)
    ensures Check(AddPermanent(es, market, reason, now), market, required, later) == Blocked(reason, Full, None)
    ensures other != market ==>
      Check(AddPermanent(es, market, reason, now), other, required, later) == Check(es, other, required, later)
  {
  }

  /** Removing a market's entry clears it at every instant, and touches no other market. */
  lemma RemovedIsClear(es: Entries, market: Id, required: Scope, later: int, other: Id)
    ensures Check(Remove(es, market), market, required, later) == Clear
    ensures other != market ==> Check(Remove(es, market), other, required, later) == Check(es, other, required, later)
  {
  }

  /** An automatic block of a market without entry lasts for the configured time, on the trading path only, and
      names the failures; the miss count is kept with it. */
  lemma AutoBlocksFor(es: Entries, p: AutoPolicy, market: Id, misses: u32, now: int, required: Scope, later: int)
    requires misses >= p.missThreshold && Market(market) !in es && p.durationSecs <= I64_MAX / 1000
    ensures var es', until := MaybeAutoBlacklist(es, p, market, misses, now), now + p.durationSecs * 1_000_000_000;
      && Check(es', market, required, later) ==
           (if later < until && required != Full then Blocked(ConsecutiveFokFailures, TradingPath, Some(until)) else Clear)
      && es'[Market(market)].missCount == Min(misses, I32_MAX)
  {
  }

  /** Reaching the miss threshold blocks the trading path if and only if the market has no entry at
      all, or already has a live entry that blocks it.  An expired entry that was not collected yet
      (or a narrower one) makes the automatic block a no-op. */
  lemma AutoBlacklistBlocks(es: Entries, p: AutoPolicy, market: Id, misses: u32, now: int)
    requires misses >= p.missThreshold && p.durationSecs > 0
    ensures Check(MaybeAutoBlacklist(es, p, market, misses, now), market, TradingPath, now).Blocked?
      <==> Market(market) !in es || Check(es, market, TradingPath, now).Blocked?
  {
  }

  /** The stale-entry case does occur: the market stays tradable although the threshold is met. */
  lemma AutoBlacklistSkipsExpired(p: AutoPolicy, market: Id, misses: u32, now: int)
    requires misses >= p.missThreshold
    ensures exists es: Entries ::
      Market(market) in es && Check(MaybeAutoBlacklist(es, p, market, misses, now), market, TradingPath, now).Clear?
  {
    var es: Entries := map[Market(market) := Info(TradingPath, ConsecutiveFokFailures, Some(now), now, 0)];
    assert Market(market) in es
      && Check(MaybeAutoBlacklist(es, p, market, misses, now), market, TradingPath, now).Clear?;
  }

  /** Reloading the configuration keeps every runtime entry and covers every configured key. */
  lemma {:induction false} MergeKeepsEntries(es: Entries, keys: seq<Key>, now: int)
    ensures forall k :: k in es ==> k in MergePermanent(es, keys, now) && MergePermanent(es, keys, now)[k] == es[k]
    ensures forall k :: k in keys ==> k in MergePermanent(es, keys, now)
    ensures forall k :: k in MergePermanent(es, keys, now) ==> k in es || k in keys
    ensures forall k :: k in keys && k !in es ==> MergePermanent(es, keys, now)[k] == Info(Full, Manual, None, now, 0)
  {
    if keys != [] {
      MergeKeepsEntries(es, keys[..|keys| - 1], now);
    }
  }

  // ── The published projection ───────────────────────────────────────────────

  datatype Block = Block(market: Id, reason: Reason, scope: Scope)

  datatype Snapshot = Snapshot(
    marketBloom: Bloom.Words,
    tokenBloom: Bloom.Words,
    blocks: seq<Block>,
    tokens: seq<Id>)

  /** The first block recorded for `market`. */
  function FindBlock(bs: seq<Block>, market: Id): Option<Block> {
    if bs == [] then None else if bs[0].market == market then Some(bs[0]) else FindBlock(bs[1..], market)
  }

  function BlockDetail(s: Snapshot, market: Id): Option<(Reason, Scope)> {
    if !Bloom.MayContain(s.marketBloom, market) then None
    else
      match FindBlock(s.blocks, market)
      case None => None
      case Some(b) => Some((b.reason, b.scope))
  }

  predicate SnapshotBlacklistsToken(s: Snapshot, token: Id) {
    Bloom.MayContain(s.tokenBloom, token) && token in s.tokens
  }

  /** The live answer in the shape of the snapshot's. */
  function LiveDetail(es: Entries, market: Id, now: int): Option<(Reason, Scope)> {
    match Check(es, market, TradingPath, now)
    case Clear => None
    case Blocked(reason, scope, _) => Some((reason, scope))
  }

  /** The snapshot answers every query as the live map does at instant `now`. */
  ghost predicate Projects(s: Snapshot, es: Entries, now: int) {
    && (forall m: Id :: BlockDetail(s, m) == LiveDetail(es, m, now))
    && (forall t: Id :: SnapshotBlacklistsToken(s, t) == TokenBlacklisted(es, t, now))
  }

  /** The tables and filters describe exactly the live entries among `done`. */
  ghost predicate Covers(s: Snapshot, es: Entries, done: set<Key>, now: int) {
    && (forall b :: b in s.blocks ==> Market(b.market) in done && LiveDetail(es, b.market, now) == Some((b.reason, b.scope)))
    && (forall m: Id :: Market(m) in done && LiveDetail(es, m, now).Some? ==>
         Bloom.MayContain(s.marketBloom, m) && exists b :: b in s.blocks && b.market == m)
    && (forall t: Id :: t in s.tokens ==> Token(t) in done && TokenBlacklisted(es, t, now))
    && (forall t: Id :: Token(t) in done && TokenBlacklisted(es, t, now) ==>
         Bloom.MayContain(s.tokenBloom, t) && t in s.tokens)
  }

  lemma {:induction false} FindBlockFinds(bs: seq<Block>, market: Id)
    ensures FindBlock(bs, market).Some? <==> exists b :: b in bs && b.market == market
    ensures FindBlock(bs, market).Some? ==> FindBlock(bs, market).value in bs && FindBlock(bs, market).value.market == market
  {
    if bs != [] {
      FindBlockFinds(bs[1..], market);
      assert forall b :: b in bs <==> b == bs[0] || b in bs[1..];
    }
  }

  /** Full coverage is a faithful projection, whatever false positives the filters have and whatever
      order the tables were filled in. */
  lemma CoverageProjects(s: Snapshot, es: Entries, now: int)
    requires Covers(s, es, es.Keys, now)
    ensures Projects(s, es, now)
  {
    forall m: Id ensures BlockDetail(s, m) == LiveDetail(es, m, now) {
      FindBlockFinds(s.blocks, m);
    }
  }

  /** A projection taken at `now` stays on the safe side while entries only expire: whatever is
      blocked later was blocked in it, for the same reason and scope. */
  lemma StaleProjectionIsSafe(s: Snapshot, es: Entries, now: int, later: int, id: Id)
    requires Projects(s, es, now) && later >= now
    ensures LiveDetail(es, id, later).Some? ==> BlockDetail(s, id) == LiveDetail(es, id, later)
    ensures TokenBlacklisted(es, id, later) ==> SnapshotBlacklistsToken(s, id)
  {
    assert BlockDetail(s, id) == LiveDetail(es, id, now);
    assert SnapshotBlacklistsToken(s, id) == TokenBlacklisted(es, id, now);
  }

  lemma BloomGrows(w: Bloom.Words, id: Id)
    ensures Bloom.MayContain(Bloom.Insert(w, id), id)
    ensures forall o: Id :: Bloom.MayContain(w, o) ==> Bloom.MayContain(Bloom.Insert(w, id), o)
  {
    Bloom.NoFalseNegatives(w, id, id);
    forall o: Id ensures Bloom.MayContain(w, o) ==> Bloom.MayContain(Bloom.Insert(w, id), o) {
      Bloom.NoFalseNegatives(w, id, o);
    }
  }

  lemma CoverMarket(s: Snapshot, es: Entries, done: set<Key>, m: Id, now: int, s': Snapshot)
    requires Covers(s, es, done, now) && Market(m) in es && !es[Market(m)].IsExpired(now)
    requires s' == s.(marketBloom := Bloom.Insert(s.marketBloom, m),
                      blocks := if es[Market(m)].scope.AtLeast(TradingPath)
                                then s.blocks + [Block(m, es[Market(m)].reason, es[Market(m)].scope)]
                                else s.blocks)
    ensures Covers(s', es, done + {Market(m)}, now)
  {
    BloomGrows(s.marketBloom, m);
    assert forall b :: b in s.blocks ==> b in s'.blocks;
    if es[Market(m)].scope.AtLeast(TradingPath) {
      assert Block(m, es[Market(m)].reason, es[Market(m)].scope) in s'.blocks;
    }
  }

  lemma CoverToken(s: Snapshot, es: Entries, done: set<Key>, t: Id, now: int, s': Snapshot)
    requires Covers(s, es, done, now) && TokenBlacklisted(es, t, now)
    requires s' == s.(tokenBloom := Bloom.Insert(s.tokenBloom, t), tokens := s.tokens + [t])
    ensures Covers(s', es, done + {Token(t)}, now)
  {
    BloomGrows(s.tokenBloom, t);
  }

  lemma DropOne(es: Entries, k: Key)
    requires k in es
    ensures |es - {k}| == |es| - 1
  {
    assert (es - {k}).Keys == es.Keys - {k};
    assert |es.Keys - {k}| == |es.Keys| - 1;
  }

  class BlacklistManager {
    var entries: Entries
    var policy: AutoPolicy

    constructor (keys: seq<Key>, p: AutoPolicy, now: int)
      ensures entries == MergePermanent(map[], keys, now) && policy == p
    {
      entries := map[];
      policy := p;
      new;
      MergePermanentEntries(keys, now);
    }

    method MergePermanentEntries(keys: seq<Key>, now: int)
      modifies this`entries
      ensures entries == MergePermanent(old(entries), keys, now)
    {
      for i := 0 to |keys|
        invariant entries == MergePermanent(old(entries), keys[..i], now)
      {
        assert keys[..i + 1][..i] == keys[..i];
        if keys[i] !in entries {
          entries := entries[keys[i] := Info(Full, Manual, None, now, 0)];
        }
      }
      assert keys[..|keys|] == keys;
    }

    method CheckMarket(market: Id, required: Scope, now: int) returns (r: CheckResult)
      modifies this`entries
      ensures r == Check(old(entries), market, required, now)
      ensures entries == EvictIfExpired(old(entries), Market(market), now)
    {
      var key := Market(market);
      if key in entries {
        var e := entries[key];
        if e.IsExpired(now) {
          entries := entries - {key};
          return Clear;
        }
        if e.scope.AtLeast(required) {
          return Blocked(e.reason, e.scope, e.expiresAt);
        }
      }
      return Clear;
    }

    method IsTokenBlacklisted(token: Id, now: int) returns (r: bool)
      modifies this`entries
      ensures r == TokenBlacklisted(old(entries), token, now)
      ensures entries == EvictIfExpired(old(entries), Token(token), now)
    {
      var key := Token(token);
      if key in entries {
        if entries[key].IsExpired(now) {
          entries := entries - {key};
          return false;
        }
        return true;
      }
      return false;
    }

    method Temporary(k: Key, scope: Scope, reason: Reason, secs: u64, misses: u32, now: int) returns (e: Info)
      modifies this`entries
      ensures entries == AddTemporary(old(entries), k, scope, reason, secs, misses, now)
      ensures k in entries && e == entries[k]
    {
      var until := ExpiryAfter(now, secs);
      if k in entries {
        e := entries[k];
        if e.IsPermanent() {
          return;
        }
        if scope.Rank() > e.scope.Rank() {
          e := e.(scope := scope);
        }
        if until > e.expiresAt.value {
          e := e.(expiresAt := Some(until));
        }
        e := e.(missCount := Min(misses, I32_MAX));
      } else {
        e := Info(scope, reason, Some(until), now, Min(misses, I32_MAX));
      }
      entries := entries[k := e];
    }

    method Permanent(market: Id, reason: Reason, now: int)
      modifies this`entries
      ensures entries == AddPermanent(old(entries), market, reason, now)
    {
      entries := entries[Market(market) := Info(Full, reason, None, now, 0)];
    }

    method Delete(market: Id) returns (removed: bool)
      modifies this`entries
      ensures entries == Remove(old(entries), market)
      ensures removed == (Market(market) in old(entries))
    {
      removed := Market(market) in entries;
      entries := entries - {Market(market)};
    }

    /** Visits the entries in an arbitrary order, drops the expired ones and counts them. */
    method Gc(now: int) returns (evicted: nat)
      modifies this`entries
      ensures entries == CollectGarbage(old(entries), now)
      ensures evicted == |old(entries)| - |entries|
      ensures forall k :: k in old(entries) && k !in entries ==> old(entries)[k].IsExpired(now)
    {
      evicted := 0;
      var keys := entries.Keys;
      while keys != {}
        invariant keys <= entries.Keys <= old(entries).Keys
        invariant forall k :: k in entries ==> entries[k] == old(entries)[k] && (k in keys || !entries[k].IsExpired(now))
        invariant forall k :: k in old(entries) && k !in entries ==> old(entries)[k].IsExpired(now)
        invariant evicted == |old(entries)| - |entries|
        decreases |keys|
      {
        var k :| k in keys;
        if !entries[k].IsPermanent() && entries[k].IsExpired(now) {
          DropOne(entries, k);
          entries := entries - {k};
          evicted := evicted + 1;
        }
        keys := keys - {k};
      }
    }

    method AutoBlacklist(market: Id, misses: u32, now: int) returns (e: Option<Info>)
      modifies this`entries
      ensures entries == MaybeAutoBlacklist(old(entries), policy, market, misses, now)
      ensures e.Some? <==> AutoApplies(old(entries), policy, market, misses)
    {
      if misses < policy.missThreshold || Market(market) in entries {
        return None;
      }
      var added := Temporary(Market(market), TradingPath, ConsecutiveFokFailures, policy.durationSecs, misses, now);
      return Some(added);
    }

    /** Adds one live or expired entry to the filters and tables under construction. */
    static method ProjectEntry(markets: Bloom.BloomFilter512, tokens: Bloom.BloomFilter512, b: seq<Block>, t: seq<Id>,
                               es: Entries, k: Key, ghost done: set<Key>, now: int)
      returns (b': seq<Block>, t': seq<Id>)
      requires markets.Valid() && tokens.Valid() && markets.bits != tokens.bits && k in es
      requires Covers(Snapshot(markets.bits[..], tokens.bits[..], b, t), es, done, now)
      modifies markets.bits, tokens.bits
      ensures Covers(Snapshot(markets.bits[..], tokens.bits[..], b', t'), es, done + {k}, now)
    {
      ghost var before := Snapshot(markets.bits[..], tokens.bits[..], b, t);
      b', t' := b, t;
      if es[k].IsExpired(now) {
        return;
      }
      match k {
        case Market(m) =>
          markets.Add(m);
          if es[k].scope.AtLeast(TradingPath) {
            b' := b + [Block(m, es[k].reason, es[k].scope)];
          }
          CoverMarket(before, es, done, m, now, Snapshot(markets.bits[..], tokens.bits[..], b', t'));
        case Token(token) =>
          tokens.Add(token);
          t' := t + [token];
          CoverToken(before, es, done, token, now, Snapshot(markets.bits[..], tokens.bits[..], b', t'));
      }
    }

    /** Walks the entries in an arbitrary order, as iterating a concurrent map does. */
    method BuildSnapshot(now: int) returns (s: Snapshot)
      ensures Projects(s, entries, now)
    {
      var es := entries;
      var markets := new Bloom.BloomFilter512();
      var tokens := new Bloom.BloomFilter512();
      var b: seq<Block>, t: seq<Id> := [], [];
      var keys := es.Keys;
      while keys != {}
        invariant keys <= es.Keys
        invariant markets.Valid() && tokens.Valid() && markets.bits != tokens.bits
        invariant fresh(markets.bits) && fresh(tokens.bits)
        invariant Covers(Snapshot(markets.bits[..], tokens.bits[..], b, t), es, es.Keys - keys, now)
        decreases |keys|
      {
        var k :| k in keys;
        b, t := ProjectEntry(markets, tokens, b, t, es, k, es.Keys - keys, now);
        assert es.Keys - (keys - {k}) == es.Keys - keys + {k};
        keys := keys - {k};
      }
      s := Snapshot(markets.bits[..], tokens.bits[..], b, t);
      assert es.Keys - keys == es.Keys;
      CoverageProjects(s, es, now);
    }
  }
}
