/** Two sources share one transport: the trading engine and the web control plane each hold a token
    set, and the router carries their union. */
module Subscriptions {
  import opened ShardRouting

  datatype Source = EngineSource | WebSource

  datatype Subs = Subs(engine: set<TokenId>, web: set<TokenId>) {
    function Of(s: Source): set<TokenId> { if s.EngineSource? then engine else web }

    function Other(s: Source): set<TokenId> { if s.EngineSource? then web else engine }

    function With(s: Source, ts: set<TokenId>): Subs { if s.EngineSource? then Subs(ts, web) else Subs(engine, ts) }

    function Union(): set<TokenId> { engine + web }
  }

  // ── The reference counts ───────────────────────────────────────────────────

  /** Tokens added to a source, and those of them that newly entered the union. */
  function Add(s: Subs, source: Source, ts: seq<TokenId>): (Subs, seq<TokenId>) {
    if ts == [] then (s, [])
    else
      var (b, newly) := Add(s, source, ts[..|ts| - 1]);
      var t := ts[|ts| - 1];
      var inUnion := t in b.Of(source) || t in b.Other(source);
      (b.With(source, b.Of(source) + {t}), if t !in b.Of(source) && !inUnion then newly + [t] else newly)
  }

  /** Tokens removed from a source, and those of them that left the union. */
  function Drop(s: Subs, source: Source, ts: seq<TokenId>): (Subs, seq<TokenId>) {
    if ts == [] then (s, [])
    else
      var (b, gone) := Drop(s, source, ts[..|ts| - 1]);
      var t := ts[|ts| - 1];
      if t in b.Of(source)
      then (b.With(source, b.Of(source) - {t}), if t !in b.Other(source) then gone + [t] else gone)
      else (b, gone)
  }

  function ToSubscribe(s: Subs, source: Source, desired: set<TokenId>): set<TokenId> {
    desired - s.Of(source) - s.Other(source)
  }

  function ToUnsubscribe(s: Subs, source: Source, desired: set<TokenId>): set<TokenId> {
    s.Of(source) - desired - s.Other(source)
  }

  /** Adding reports exactly the tokens that were in neither set. */
  lemma {:induction false} AddReportsNew(s: Subs, source: Source, ts: seq<TokenId>)
    ensures var (s', newly) := Add(s, source, ts);
      && s' == s.With(source, s.Of(source) + Elements(ts))
      && s'.Union() == s.Union() + Elements(ts)
      && Elements(newly) == Elements(ts) - s.Union()
  {
    if ts != [] {
      AddReportsNew(s, source, ts[..|ts| - 1]);
      ElementsSplit(ts);
      var newly, newly' := Add(s, source, ts[..|ts| - 1]).1, Add(s, source, ts).1;
      if newly' != newly { ElementsSplit(newly'); }
    }
  }

  /** Removing reports exactly the tokens the source held and the other does not. */
  lemma {:induction false} DropReportsGone(s: Subs, source: Source, ts: seq<TokenId>)
    ensures var (s', gone) := Drop(s, source, ts);
      && s' == s.With(source, s.Of(source) - Elements(ts))
      && Elements(gone) == (s.Of(source) * Elements(ts)) - s.Other(source)
      && s'.Union() == s.Union() - Elements(gone)
  {
    if ts != [] {
      DropReportsGone(s, source, ts[..|ts| - 1]);
      ElementsSplit(ts);
      var gone, gone' := Drop(s, source, ts[..|ts| - 1]).1, Drop(s, source, ts).1;
      if gone' != gone { ElementsSplit(gone'); }
    }
  }

  /** Applying both differences of a sync to the old union gives the new union; in between, the
      transport carries both. */
  lemma SyncSets(s: Subs, source: Source, desired: set<TokenId>)
    ensures var u, u' := s.Union(), s.With(source, desired).Union();
      && u + ToSubscribe(s, source, desired) == u + u'
      && u + ToSubscribe(s, source, desired) - ToUnsubscribe(s, source, desired) == u'
  {
  }

  // ── The manager ────────────────────────────────────────────────────────────

  datatype Manager = Manager(subs: Subs, router: Router)

  /** One call; a sync also fixes the orders in which its two hash-set differences are visited. */
  datatype Call =
    | Subscribe(source: Source, tokens: seq<TokenId>)
    | Unsubscribe(source: Source, tokens: seq<TokenId>)
    | Sync(source: Source, tokens: seq<TokenId>, adds: seq<TokenId>, removes: seq<TokenId>)

  ghost predicate Possible(m: Manager, c: Call) {
    c.Sync? ==>
      && Elements(c.adds) == ToSubscribe(m.subs, c.source, Elements(c.tokens))
      && Elements(c.removes) == ToUnsubscribe(m.subs, c.source, Elements(c.tokens))
  }

  function AssignIfAny(r: Router, max: nat, ts: seq<TokenId>): Router { if ts == [] then r else Assign(r, max, ts) }

  function RemoveIfAny(r: Router, ts: seq<TokenId>): Router { if ts == [] then r else Remove(r, ts) }

  ghost function Apply(m: Manager, max: nat, c: Call): Manager {
    match c
    case Subscribe(source, ts) =>
      var (s, newly) := Add(m.subs, source, ts);
      Manager(s, AssignIfAny(m.router, max, newly))
    case Unsubscribe(source, ts) =>
      var (s, gone) := Drop(m.subs, source, ts);
      Manager(s, RemoveIfAny(m.router, gone))
    case Sync(source, ts, adds, removes) =>
      Manager(m.subs.With(source, Elements(ts)), RemoveIfAny(AssignIfAny(m.router, max, adds), removes))
  }

  ghost function Run(m: Manager, max: nat, cs: seq<Call>): Manager {
    if cs == [] then m else Apply(Run(m, max, cs[..|cs| - 1]), max, cs[|cs| - 1])
  }

  ghost predicate PossibleRun(m: Manager, max: nat, cs: seq<Call>) {
    cs != [] ==> PossibleRun(m, max, cs[..|cs| - 1]) && Possible(Run(m, max, cs[..|cs| - 1]), cs[|cs| - 1])
  }

  const START: Manager := Manager(Subs({}, {}), EMPTY)

  /** The transport carries the union of both sources, partitioned consistently over shards within
      capacity, and every shard has been told exactly its set. */
  ghost predicate Refines(m: Manager, max: nat) {
    m.router.assignments.Keys == m.subs.Union() && Consistent(m.router, max) && Published(m.router)
  }

  /** Tokens on the transport at once while `c` runs: a sync adds before it removes. */
  ghost function Needed(m: Manager, max: nat, c: Call): nat { |m.subs.Union() + Apply(m, max, c).subs.Union()| }

  ghost function Peak(m: Manager, max: nat, cs: seq<Call>): nat {
    if cs == [] then |m.subs.Union()|
    else
      var p, n := Peak(m, max, cs[..|cs| - 1]), Needed(Run(m, max, cs[..|cs| - 1]), max, cs[|cs| - 1]);
      if n > p then n else p
  }

  lemma AssignIfAnyCorrect(r: Router, max: nat, ts: seq<TokenId>, peak: nat)
    requires Consistent(r, max) && max > 0 && Published(r) && Tight(r, max, peak)
    ensures var r' := AssignIfAny(r, max, ts);
      && Consistent(r', max) && Published(r')
      && r'.assignments.Keys == r.assignments.Keys + Elements(ts)
      && Tight(r', max, NewPeak(peak, r'))
  {
    if ts != [] { AssignCorrect(r, max, ts, peak); }
  }

  lemma RemoveIfAnyCorrect(r: Router, max: nat, ts: seq<TokenId>, peak: nat)
    requires Consistent(r, max) && Published(r) && Tight(r, max, peak)
    ensures var r' := RemoveIfAny(r, ts);
      && Consistent(r', max) && Published(r')
      && r'.assignments.Keys == r.assignments.Keys - Elements(ts)
      && Tight(r', max, peak)
  {
    if ts != [] { RemoveCorrect(r, max, ts, peak); }
  }

  lemma KeyCount(m: map<TokenId, nat>, s: set<TokenId>)
    requires m.Keys == s
    ensures |m| == |s|
  {
  }

  lemma SubscribeKeeps(m: Manager, max: nat, source: Source, ts: seq<TokenId>, peak: nat)
    requires max > 0 && Refines(m, max) && Tight(m.router, max, peak)
    ensures var c := Subscribe(source, ts); var n := Needed(m, max, c);
            Refines(Apply(m, max, c), max) && Tight(Apply(m, max, c).router, max, if n > peak then n else peak)
  {
    var c := Subscribe(source, ts);
    var m' := Apply(m, max, c);
    AddReportsNew(m.subs, source, ts);
    AssignIfAnyCorrect(m.router, max, Add(m.subs, source, ts).1, peak);
    KeyCount(m'.router.assignments, m.subs.Union() + m'.subs.Union());
  }

  lemma UnsubscribeKeeps(m: Manager, max: nat, source: Source, ts: seq<TokenId>, peak: nat)
    requires max > 0 && Refines(m, max) && Tight(m.router, max, peak)
    ensures var c := Unsubscribe(source, ts); var n := Needed(m, max, c);
            Refines(Apply(m, max, c), max) && Tight(Apply(m, max, c).router, max, if n > peak then n else peak)
  {
    var c := Unsubscribe(source, ts);
    DropReportsGone(m.subs, source, ts);
    RemoveIfAnyCorrect(m.router, max, Drop(m.subs, source, ts).1, peak);
    assert m.subs.Union() + Apply(m, max, c).subs.Union() == m.subs.Union();
    KeyCount(m.router.assignments, m.subs.Union());
  }

  lemma SyncKeeps(m: Manager, max: nat, c: Call, peak: nat)
    requires max > 0 && Refines(m, max) && Tight(m.router, max, peak) && c.Sync? && Possible(m, c)
    ensures var n := Needed(m, max, c);
            Refines(Apply(m, max, c), max) && Tight(Apply(m, max, c).router, max, if n > peak then n else peak)
  {
    var mid := AssignIfAny(m.router, max, c.adds);
    SyncSets(m.subs, c.source, Elements(c.tokens));
    AssignIfAnyCorrect(m.router, max, c.adds, peak);
    RemoveIfAnyCorrect(mid, max, c.removes, NewPeak(peak, mid));
    KeyCount(mid.assignments, m.subs.Union() + Apply(m, max, c).subs.Union());
  }

  lemma CallKeeps(m: Manager, max: nat, c: Call, peak: nat)
    requires max > 0 && Refines(m, max) && Tight(m.router, max, peak) && Possible(m, c)
    ensures var n := Needed(m, max, c);
            Refines(Apply(m, max, c), max) && Tight(Apply(m, max, c).router, max, if n > peak then n else peak)
  {
    match c {
      case Subscribe(source, ts) => SubscribeKeeps(m, max, source, ts, peak);
      case Unsubscribe(source, ts) => UnsubscribeKeeps(m, max, source, ts, peak);
      case Sync(_, _, _, _) => SyncKeeps(m, max, c, peak);
    }
  }

  lemma {:induction false} RunKeeps(max: nat, cs: seq<Call>)
    requires max > 0 && PossibleRun(START, max, cs)
    ensures Refines(Run(START, max, cs), max)
    ensures Tight(Run(START, max, cs).router, max, Peak(START, max, cs))
  {
    if cs != [] {
      RunKeeps(max, cs[..|cs| - 1]);
      CallKeeps(Run(START, max, cs[..|cs| - 1]), max, cs[|cs| - 1], Peak(START, max, cs[..|cs| - 1]));
    }
  }

  /** After any sequence of calls from either source, in any hash order, the transport refines the
      union of the two sets, and the number of shards ever spawned is exactly what the largest number
      of simultaneous tokens needs. */
  lemma TransportRefinesUnion(max: nat, cs: seq<Call>)
    requires max > 0 && PossibleRun(START, max, cs)
    ensures Refines(Run(START, max, cs), max)
    ensures |Run(START, max, cs).router.shards| == CeilDiv(Peak(START, max, cs), max)
  {
    RunKeeps(max, cs);
    TightIsCeiling(|Run(START, max, cs).router.shards|, max, Peak(START, max, cs));
  }

  /** A call grows the shard count exactly to what its overlap of old and new union needs. */
  lemma ShardGrowth(m: Manager, max: nat, c: Call, peak: nat)
    requires max > 0 && Refines(m, max) && Tight(m.router, max, peak) && Possible(m, c)
    ensures var before, after := |m.router.shards|, |Apply(m, max, c).router.shards|;
            var needed := CeilDiv(Needed(m, max, c), max);
            after == if needed > before then needed else before
  {
    var n := Needed(m, max, c);
    CallKeeps(m, max, c, peak);
    TightIsCeiling(|m.router.shards|, max, peak);
    TightIsCeiling(|Apply(m, max, c).router.shards|, max, if n > peak then n else peak);
    if n > peak { CeilDivMonotone(peak, n, max); } else { CeilDivMonotone(n, peak, max); }
  }

  lemma CeilDivMonotone(a: nat, b: nat, max: nat)
    requires max > 0 && a <= b
    ensures CeilDiv(a, max) <= CeilDiv(b, max)
  {
    CeilDivBounds(a, max);
    CeilDivBounds(b, max);
    ScaleStrict(CeilDiv(b, max), CeilDiv(a, max), max);
  }

  lemma OverlapNeedsBoth(m: Manager, source: Source, a: TokenId, b: TokenId)
    requires a != b && m.subs.Of(source) == {a} && m.subs.Other(source) == {}
    ensures var c := Sync(source, [b], [b], [a]);
            Possible(m, c) && Apply(m, 1, c).subs.Union() == {b} && Needed(m, 1, c) == 2
  {
    SyncSubs(m, 1, Sync(source, [b], [b], [a]));
    LoneElement(a);
    LoneElement(b);
    LoneUnions(m.subs, source, a, b);
    PairSize(a, b);
  }

  lemma SyncSubs(m: Manager, max: nat, c: Call)
    requires c.Sync?
    ensures Apply(m, max, c).subs == m.subs.With(c.source, Elements(c.tokens))
  {
  }

  lemma LoneUnions(s: Subs, source: Source, a: TokenId, b: TokenId)
    requires a != b && s.Of(source) == {a} && s.Other(source) == {}
    ensures s.Union() == {a} && s.With(source, {b}).Union() == {b}
    ensures ToSubscribe(s, source, {b}) == {b} && ToUnsubscribe(s, source, {b}) == {a}
  {
  }

  lemma LoneElement(t: TokenId)
    ensures Elements([t]) == {t}
  {
  }

  lemma PairSize(a: TokenId, b: TokenId)
    requires a != b
    ensures |{a} + {b}| == 2
  {
    assert {a} + {b} == {a, b};
  }

  /** Because a sync adds before it removes, the count is not the one that the union between calls
      needs: replacing a lone token by another, with one token per shard, spawns a second shard. */
  lemma SyncOverlapCosts(m: Manager, source: Source, a: TokenId, b: TokenId)
    requires Refines(m, 1) && Tight(m.router, 1, 1) && a != b
    requires m.subs.Union() == {a} && m.subs.Of(source) == {a} && m.subs.Other(source) == {}
    ensures var c := Sync(source, [b], [b], [a]);
      && Possible(m, c)
      && |m.router.shards| == 1 && |m.subs.Union()| == 1
      && |Apply(m, 1, c).subs.Union()| == 1 && |Apply(m, 1, c).router.shards| == 2
  {
    OverlapNeedsBoth(m, source, a, b);
    ShardGrowth(m, 1, Sync(source, [b], [b], [a]), 1);
    TightIsCeiling(|m.router.shards|, 1, 1);
  }

  /** The web plane can never take a token off the transport that the engine holds. */
  lemma EngineBaselineProtected(m: Manager, max: nat, c: Call, peak: nat, t: TokenId)
    requires max > 0 && Refines(m, max) && Tight(m.router, max, peak) && Possible(m, c)
    requires c.source == WebSource && t in m.subs.engine
    ensures t in Apply(m, max, c).router.assignments && t in Apply(m, max, c).subs.engine
  {
    CallKeeps(m, max, c, peak);
    match c {
      case Subscribe(source, ts) => AddReportsNew(m.subs, source, ts);
      case Unsubscribe(source, ts) => DropReportsGone(m.subs, source, ts);
      case Sync(_, _, _, _) =>
    }
    assert t in Apply(m, max, c).subs.Union();
  }

  // ── The in-place object ────────────────────────────────────────────────────

  class ClobWsManager {
    const router: ShardRouter
    var engine: set<TokenId>
    var web: set<TokenId>

    ghost function State(): Subs
      reads this
    {
      Subs(engine, web)
    }

    ghost predicate Valid()
      reads this, router
    {
      router.Valid() && router.assignments.Keys == State().Union()
    }

    constructor (maxPerShard: nat)
      ensures Valid() && State() == Subs({}, {}) && fresh(router)
      ensures router.maxPerShard == if maxPerShard > 1 then maxPerShard else 1
    {
      router := new ShardRouter(maxPerShard);
      engine := {};
      web := {};
    }

    method AddTokens(source: Source, tokens: seq<TokenId>) returns (newly: seq<TokenId>)
      modifies this
      ensures (State(), newly) == Add(old(State()), source, tokens)
    {
      newly := [];
      for i := 0 to |tokens|
        invariant (State(), newly) == Add(old(State()), source, tokens[..i])
      {
        assert tokens[..i + 1][..i] == tokens[..i];
        var t := tokens[i];
        var target, other := if source.EngineSource? then engine else web, if source.EngineSource? then web else engine;
        var inUnion := t in target || t in other;
        if t !in target && !inUnion {
          newly := newly + [t];
        }
        if source.EngineSource? { engine := engine + {t}; } else { web := web + {t}; }
      }
      assert tokens[..|tokens|] == tokens;
    }

    method DropTokens(source: Source, tokens: seq<TokenId>) returns (gone: seq<TokenId>)
      modifies this
      ensures (State(), gone) == Drop(old(State()), source, tokens)
    {
      gone := [];
      for i := 0 to |tokens|
        invariant (State(), gone) == Drop(old(State()), source, tokens[..i])
      {
        assert tokens[..i + 1][..i] == tokens[..i];
        var t := tokens[i];
        var target, other := if source.EngineSource? then engine else web, if source.EngineSource? then web else engine;
        if t in target {
          if t !in other {
            gone := gone + [t];
          }
          if source.EngineSource? { engine := engine - {t}; } else { web := web - {t}; }
        }
      }
      assert tokens[..|tokens|] == tokens;
    }

    method SubscribeTokens(source: Source, tokens: seq<TokenId>)
      requires Valid()
      modifies this, router
      ensures Valid()
      ensures State() == old(State()).With(source, old(State()).Of(source) + Elements(tokens))
    {
      AddReportsNew(State(), source, tokens);
      ghost var before := State().Union();
      var newly := AddTokens(source, tokens);
      assert State().Union() == before + Elements(newly);
      if newly != [] {
        router.AssignTokens(newly);
      } else {
        assert Elements(newly) == {};
      }
    }

    method UnsubscribeTokens(source: Source, tokens: seq<TokenId>)
      requires Valid()
      modifies this, router
      ensures Valid()
      ensures State() == old(State()).With(source, old(State()).Of(source) - Elements(tokens))
      ensures |router.shards| == old(|router.shards|)
    {
      DropReportsGone(State(), source, tokens);
      var gone := DropTokens(source, tokens);
      if gone != [] {
        router.RemoveTokens(gone);
      }
    }

    /** Visit a hash set in some order. */
    static method InSomeOrder(s: set<TokenId>) returns (ts: seq<TokenId>)
      ensures Elements(ts) == s && |ts| == |s|
    {
      var rest := s;
      ts := [];
      while rest != {}
        invariant rest <= s && Elements(ts) == s - rest && |ts| == |s| - |rest|
        decreases |rest|
      {
        var t :| t in rest;
        ts := ts + [t];
        ElementsSplit(ts);
        assert ts[..|ts| - 1] + [t] == ts;
        rest := rest - {t};
      }
    }

    method Reconcile(adds: seq<TokenId>, removes: seq<TokenId>)
      requires router.Valid()
      modifies router
      ensures router.Valid()
      ensures router.assignments.Keys == old(router.assignments.Keys) + Elements(adds) - Elements(removes)
    {
      if adds != [] {
        router.AssignTokens(adds);
      }
      if removes != [] {
        router.RemoveTokens(removes);
      }
    }

    method Replace(source: Source, desired: set<TokenId>)
      modifies this`engine, this`web
      ensures State() == old(State()).With(source, desired)
    {
      if source.EngineSource? { engine := desired; } else { web := desired; }
    }

    method SyncTokens(source: Source, tokens: seq<TokenId>)
      requires Valid()
      modifies this, router
      ensures Valid()
      ensures State() == old(State()).With(source, Elements(tokens))
    {
      var desired := set t | t in tokens;
      var target, other := if source.EngineSource? then engine else web, if source.EngineSource? then web else engine;
      var adds := InSomeOrder(desired - target - other);
      var removes := InSomeOrder(target - desired - other);
      SyncSets(State(), source, desired);
      Replace(source, desired);
      Reconcile(adds, removes);
    }
  }
}
