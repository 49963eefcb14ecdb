/** Token-to-shard routing: an assignment map kept consistent with per-shard token sets, and the full
    set republished to every shard a call touched. */
module ShardRouting {

  type TokenId = string

  datatype Slot = Slot(tokens: set<TokenId>, published: set<TokenId>)

  datatype Router = Router(assignments: map<TokenId, nat>, shards: seq<Slot>)

  const EMPTY: Router := Router(map[], [])

  // ── Operations on the value ────────────────────────────────────────────────

  /** Index of the first shard with spare capacity, or the number of shards if all are full. */
  function FirstFree(shards: seq<Slot>, max: nat): (i: nat)
    ensures i <= |shards|
    ensures i < |shards| ==> |shards[i].tokens| < max
    ensures forall j :: 0 <= j < i ==> |shards[j].tokens| >= max
  {
    if shards == [] then 0
    else if |shards[0].tokens| < max then 0
    else 1 + FirstFree(shards[1..], max)
  }

  /** A fresh shard starts with an empty set, already published. */
  function WithSpare(r: Router, max: nat): Router {
    if FirstFree(r.shards, max) < |r.shards| then r else r.(shards := r.shards + [Slot({}, {})])
  }

  function AssignOne(r: Router, max: nat, t: TokenId): Router {
    if t in r.assignments then r
    else
      var i, s := FirstFree(r.shards, max), WithSpare(r, max);
      Router(s.assignments[t := i], s.shards[i := s.shards[i].(tokens := s.shards[i].tokens + {t})])
  }

  function RemoveOne(r: Router, t: TokenId): Router {
    if t !in r.assignments then r
    else
      var i := r.assignments[t];
      Router(
        r.assignments - {t},
        if i < |r.shards| then r.shards[i := r.shards[i].(tokens := r.shards[i].tokens - {t})] else r.shards)
  }

  function AssignLoop(r: Router, max: nat, ts: seq<TokenId>): Router {
    if ts == [] then r else AssignOne(AssignLoop(r, max, ts[..|ts| - 1]), max, ts[|ts| - 1])
  }

  function RemoveLoop(r: Router, ts: seq<TokenId>): Router {
    if ts == [] then r else RemoveOne(RemoveLoop(r, ts[..|ts| - 1]), ts[|ts| - 1])
  }

  /** Shards whose set a call changed. */
  function AssignDirty(r: Router, max: nat, ts: seq<TokenId>): set<nat> {
    if ts == [] then {}
    else
      var before := AssignLoop(r, max, ts[..|ts| - 1]);
      AssignDirty(r, max, ts[..|ts| - 1])
      + if ts[|ts| - 1] in before.assignments then {} else {FirstFree(before.shards, max)}
  }

  function RemoveDirty(r: Router, ts: seq<TokenId>): set<nat> {
    if ts == [] then {}
    else
      var before, t := RemoveLoop(r, ts[..|ts| - 1]), ts[|ts| - 1];
      RemoveDirty(r, ts[..|ts| - 1])
      + if t in before.assignments && before.assignments[t] < |before.shards| then {before.assignments[t]} else {}
  }

  function Publish(r: Router, dirty: set<nat>): Router {
    r.(shards := seq(|r.shards|, i requires 0 <= i < |r.shards| =>
      if i in dirty then r.shards[i].(published := r.shards[i].tokens) else r.shards[i]))
  }

  function Assign(r: Router, max: nat, ts: seq<TokenId>): Router {
    Publish(AssignLoop(r, max, ts), AssignDirty(r, max, ts))
  }

  function Remove(r: Router, ts: seq<TokenId>): Router { Publish(RemoveLoop(r, ts), RemoveDirty(r, ts)) }

  // ── Invariant ──────────────────────────────────────────────────────────────

  function Load(shards: seq<Slot>): nat {
    if shards == [] then 0 else Load(shards[..|shards| - 1]) + |shards[|shards| - 1].tokens|
  }

  ghost function Owned(m: map<TokenId, nat>, i: nat): set<TokenId> { set t | t in m && m[t] == i }

  ghost predicate InRange(m: map<TokenId, nat>, n: nat) { forall t :: t in m ==> m[t] < n }

  ghost predicate Owners(m: map<TokenId, nat>, shards: seq<Slot>) {
    forall i :: 0 <= i < |shards| ==> shards[i].tokens == Owned(m, i)
  }

  ghost predicate Fits(shards: seq<Slot>, max: nat) { forall i :: 0 <= i < |shards| ==> |shards[i].tokens| <= max }

  /** The shard sets partition the assigned tokens as the map says, and none exceeds the capacity. */
  ghost predicate Consistent(r: Router, max: nat) {
    && InRange(r.assignments, |r.shards|)
    && Owners(r.assignments, r.shards)
    && Fits(r.shards, max)
    && |r.assignments| == Load(r.shards)
  }

  /** Outside `dirty` every shard has been told its current set. */
  ghost predicate PublishedBut(r: Router, dirty: set<nat>) {
    forall i :: 0 <= i < |r.shards| && i !in dirty ==> r.shards[i].published == r.shards[i].tokens
  }

  ghost predicate Published(r: Router) { PublishedBut(r, {}) }

  /** `peak` tokens have been assigned at once, and the shard count is what that number needs. */
  ghost predicate Tight(r: Router, max: nat, peak: nat) {
    && |r.assignments| <= peak <= |r.shards| * max
    && (|r.shards| > 0 ==> (|r.shards| - 1) * max < peak)
  }

  function NewPeak(peak: nat, r: Router): nat { if |r.assignments| > peak then |r.assignments| else peak }

  function CeilDiv(a: nat, b: nat): nat
    requires b > 0
  {
    (a + b - 1) / b
  }

  lemma CeilDivBounds(a: nat, b: nat)
    requires b > 0
    ensures CeilDiv(a, b) * b >= a
    ensures a > 0 ==> (CeilDiv(a, b) - 1) * b < a
    ensures a == 0 ==> CeilDiv(a, b) == 0
  {
    var q, r := (a + b - 1) / b, (a + b - 1) % b;
    assert a + b - 1 == q * b + r;
    assert (q - 1) * b == q * b - b;
  }

  lemma ScaleStrict(m: nat, n: nat, b: nat)
    requires b > 0
    ensures m < n ==> m * b <= (n - 1) * b
  {
  }

  /** The bounds of `Tight` pin the shard count to the ceiling of the peak over the capacity. */
  lemma TightIsCeiling(n: nat, max: nat, peak: nat)
    requires max > 0 && peak <= n * max && (n > 0 ==> (n - 1) * max < peak)
    ensures n == CeilDiv(peak, max)
  {
    var q := CeilDiv(peak, max);
    CeilDivBounds(peak, max);
    ScaleStrict(n, q, max);
    ScaleStrict(q, n, max);
  }

  // ── Loads ──────────────────────────────────────────────────────────────────

  lemma {:induction false} LoadUpdate(shards: seq<Slot>, i: nat, s: Slot)
    requires i < |shards|
    ensures Load(shards[i := s]) == Load(shards) - |shards[i].tokens| + |s.tokens|
  {
    var n := |shards| - 1;
    if i < n {
      LoadUpdate(shards[..n], i, s);
      assert shards[i := s][..n] == shards[..n][i := s];
    } else {
      assert shards[i := s][..n] == shards[..n];
    }
  }

  lemma LoadSpawn(shards: seq<Slot>)
    ensures Load(shards + [Slot({}, {})]) == Load(shards)
  {
    assert (shards + [Slot({}, {})])[..|shards|] == shards;
  }

  lemma {:induction false} LoadBounded(shards: seq<Slot>, max: nat)
    requires Fits(shards, max)
    ensures Load(shards) <= |shards| * max
    ensures (forall i :: 0 <= i < |shards| ==> |shards[i].tokens| == max) ==> Load(shards) == |shards| * max
  {
    if shards != [] {
      LoadBounded(shards[..|shards| - 1], max);
      assert |shards| * max == (|shards| - 1) * max + max;
    }
  }

  // ── Preservation ───────────────────────────────────────────────────────────

  lemma SpareKeeps(r: Router, max: nat)
    requires Consistent(r, max) && max > 0
    ensures Consistent(WithSpare(r, max), max)
    ensures FirstFree(r.shards, max) < |WithSpare(r, max).shards|
    ensures |WithSpare(r, max).shards[FirstFree(r.shards, max)].tokens| < max
  {
    LoadSpawn(r.shards);
    assert Owned(r.assignments, |r.shards|) == {};
  }

  lemma OwnedInsert(m: map<TokenId, nat>, t: TokenId, i: nat, j: nat)
    requires t !in m
    ensures Owned(m[t := i], j) == if i == j then Owned(m, j) + {t} else Owned(m, j)
  {
  }

  lemma OwnedDelete(m: map<TokenId, nat>, t: TokenId, j: nat)
    requires t in m
    ensures Owned(m - {t}, j) == if m[t] == j then Owned(m, j) - {t} else Owned(m, j)
  {
  }

  /** Adding one token to a shard with spare capacity. */
  lemma PlaceConsistent(s: Router, max: nat, t: TokenId, i: nat, r': Router)
    requires Consistent(s, max) && t !in s.assignments && i < |s.shards| && |s.shards[i].tokens| < max
    requires r' == Router(s.assignments[t := i], s.shards[i := s.shards[i].(tokens := s.shards[i].tokens + {t})])
    ensures Consistent(r', max) && |r'.assignments| == |s.assignments| + 1
    ensures r'.assignments.Keys == s.assignments.Keys + {t}
  {
    LoadUpdate(s.shards, i, s.shards[i].(tokens := s.shards[i].tokens + {t}));
    forall j | 0 <= j < |s.shards| ensures r'.shards[j].tokens == Owned(r'.assignments, j) {
      OwnedInsert(s.assignments, t, i, j);
    }
  }

  lemma AssignOneConsistent(r: Router, max: nat, t: TokenId)
    requires Consistent(r, max) && max > 0
    ensures Consistent(AssignOne(r, max, t), max)
    ensures AssignOne(r, max, t).assignments.Keys == r.assignments.Keys + {t}
    ensures |AssignOne(r, max, t).assignments| == |r.assignments| + if t in r.assignments then 0 else 1
  {
    if t !in r.assignments {
      SpareKeeps(r, max);
      PlaceConsistent(WithSpare(r, max), max, t, FirstFree(r.shards, max), AssignOne(r, max, t));
    }
  }

  /** The arithmetic of one assignment: `n` shards and `held` tokens before, `n'` and `held'` after. */
  lemma TightStep(n: nat, n': nat, held: nat, held': nat, max: nat, peak: nat)
    requires held <= peak <= n * max && (n > 0 ==> (n - 1) * max < peak)
    requires held' <= n' * max && held <= held'
    requires n' == n || (n' == n + 1 && held == n * max && held' == held + 1)
    ensures var p := if held' > peak then held' else peak;
            held' <= p <= n' * max && (n' > 0 ==> (n' - 1) * max < p)
  {
  }

  /** Spawning happens only when all shards are full, so the new count is a new peak. */
  lemma AssignOneLoads(r: Router, max: nat, t: TokenId)
    requires Consistent(r, max) && max > 0
    ensures var r' := AssignOne(r, max, t);
      && |r.assignments| <= |r'.assignments| <= |r'.shards| * max
      && (|r'.shards| == |r.shards|
          || (|r'.shards| == |r.shards| + 1 && |r.assignments| == |r.shards| * max && |r'.assignments| == |r.assignments| + 1))
  {
    AssignOneConsistent(r, max, t);
    LoadBounded(AssignOne(r, max, t).shards, max);
    LoadBounded(r.shards, max);
  }

  lemma AssignOneTight(r: Router, max: nat, t: TokenId, peak: nat)
    requires Consistent(r, max) && max > 0 && Tight(r, max, peak)
    ensures var r' := AssignOne(r, max, t);
            Tight(r', max, NewPeak(peak, r'))
  {
    var r' := AssignOne(r, max, t);
    AssignOneLoads(r, max, t);
    TightStep(|r.shards|, |r'.shards|, |r.assignments|, |r'.assignments|, max, peak);
  }

  lemma RemoveOneConsistent(r: Router, max: nat, t: TokenId)
    requires Consistent(r, max)
    ensures Consistent(RemoveOne(r, t), max)
    ensures RemoveOne(r, t).assignments.Keys == r.assignments.Keys - {t}
    ensures |RemoveOne(r, t).shards| == |r.shards|
  {
    if t in r.assignments {
      var i, r' := r.assignments[t], RemoveOne(r, t);
      assert t in Owned(r.assignments, i);
      LoadUpdate(r.shards, i, r.shards[i].(tokens := r.shards[i].tokens - {t}));
      forall j | 0 <= j < |r.shards| ensures r'.shards[j].tokens == Owned(r'.assignments, j) {
        OwnedDelete(r.assignments, t, j);
      }
    }
  }

  ghost function Elements(ts: seq<TokenId>): set<TokenId> { set t | t in ts }

  lemma ElementsSplit(ts: seq<TokenId>)
    requires ts != []
    ensures Elements(ts) == Elements(ts[..|ts| - 1]) + {ts[|ts| - 1]}
  {
  }

  lemma AssignOnePublished(r: Router, max: nat, t: TokenId, dirty: set<nat>)
    requires PublishedBut(r, dirty)
    ensures PublishedBut(AssignOne(r, max, t), dirty + if t in r.assignments then {} else {FirstFree(r.shards, max)})
  {
  }

  lemma {:induction false} AssignLoopKeeps(r: Router, max: nat, ts: seq<TokenId>)
    requires Consistent(r, max) && max > 0
    ensures Consistent(AssignLoop(r, max, ts), max)
    ensures AssignLoop(r, max, ts).assignments.Keys == r.assignments.Keys + Elements(ts)
  {
    if ts != [] {
      var before, t := ts[..|ts| - 1], ts[|ts| - 1];
      AssignLoopKeeps(r, max, before);
      AssignOneConsistent(AssignLoop(r, max, before), max, t);
      ElementsSplit(ts);
      assert AssignLoop(r, max, ts) == AssignOne(AssignLoop(r, max, before), max, t);
    }
  }

  lemma {:induction false} AssignLoopPublished(r: Router, max: nat, ts: seq<TokenId>)
    requires Published(r)
    ensures PublishedBut(AssignLoop(r, max, ts), AssignDirty(r, max, ts))
  {
    if ts != [] {
      var before, t := ts[..|ts| - 1], ts[|ts| - 1];
      AssignLoopPublished(r, max, before);
      AssignOnePublished(AssignLoop(r, max, before), max, t, AssignDirty(r, max, before));
    }
  }

  lemma {:induction false} AssignLoopTight(r: Router, max: nat, ts: seq<TokenId>, peak: nat)
    requires Consistent(r, max) && max > 0 && Published(r) && Tight(r, max, peak)
    ensures Tight(AssignLoop(r, max, ts), max, NewPeak(peak, AssignLoop(r, max, ts)))
    ensures |AssignLoop(r, max, ts).assignments| >= |r.assignments|
  {
    if ts != [] {
      var before, t := ts[..|ts| - 1], ts[|ts| - 1];
      AssignLoopTight(r, max, before, peak);
      AssignLoopKeeps(r, max, before);
      var b := AssignLoop(r, max, before);
      AssignOneConsistent(b, max, t);
      AssignOneTight(b, max, t, NewPeak(peak, b));
    }
  }

  lemma {:induction false} RemoveLoopKeeps(r: Router, max: nat, ts: seq<TokenId>)
    requires Consistent(r, max) && Published(r)
    ensures var r' := RemoveLoop(r, ts);
      && Consistent(r', max)
      && PublishedBut(r', RemoveDirty(r, ts))
      && r'.assignments.Keys == r.assignments.Keys - Elements(ts)
      && |r'.shards| == |r.shards|
  {
    if ts != [] {
      var before, t := ts[..|ts| - 1], ts[|ts| - 1];
      RemoveLoopKeeps(r, max, before);
      RemoveOneConsistent(RemoveLoop(r, before), max, t);
      RemoveOnePublished(RemoveLoop(r, before), RemoveDirty(r, before), t);
      ElementsSplit(ts);
    }
  }

  lemma RemoveOnePublished(r: Router, dirty: set<nat>, t: TokenId)
    requires PublishedBut(r, dirty)
    ensures PublishedBut(RemoveOne(r, t), dirty + if t in r.assignments && r.assignments[t] < |r.shards| then {r.assignments[t]} else {})
  {
  }

  lemma {:induction false} LoadPublish(shards: seq<Slot>, shards': seq<Slot>)
    requires |shards| == |shards'|
    requires forall i :: 0 <= i < |shards| ==> shards'[i].tokens == shards[i].tokens
    ensures Load(shards') == Load(shards)
  {
    if shards != [] {
      LoadPublish(shards[..|shards| - 1], shards'[..|shards| - 1]);
    }
  }

  lemma PublishKeeps(r: Router, max: nat, dirty: set<nat>)
    requires Consistent(r, max) && PublishedBut(r, dirty)
    ensures Consistent(Publish(r, dirty), max) && Published(Publish(r, dirty))
  {
    LoadPublish(r.shards, Publish(r, dirty).shards);
  }

  /** Assigning adds exactly the given tokens, keeps the partition, the capacity and full publication,
      and grows the shard count only as far as the number of simultaneous tokens demands. */
  lemma AssignCorrect(r: Router, max: nat, ts: seq<TokenId>, peak: nat)
    requires Consistent(r, max) && max > 0 && Published(r) && Tight(r, max, peak)
    ensures var r' := Assign(r, max, ts);
      && Consistent(r', max) && Published(r')
      && r'.assignments.Keys == r.assignments.Keys + Elements(ts)
      && Tight(r', max, NewPeak(peak, r'))
  {
    AssignLoopKeeps(r, max, ts);
    AssignLoopPublished(r, max, ts);
    AssignLoopTight(r, max, ts, peak);
    PublishKeeps(AssignLoop(r, max, ts), max, AssignDirty(r, max, ts));
  }

  /** Removing takes out exactly the given tokens and keeps everything else, shard count included. */
  lemma RemoveCorrect(r: Router, max: nat, ts: seq<TokenId>, peak: nat)
    requires Consistent(r, max) && Published(r) && Tight(r, max, peak)
    ensures var r' := Remove(r, ts);
      && Consistent(r', max) && Published(r')
      && r'.assignments.Keys == r.assignments.Keys - Elements(ts)
      && |r'.shards| == |r.shards|
      && Tight(r', max, peak)
  {
    RemoveLoopKeeps(r, max, ts);
    PublishKeeps(RemoveLoop(r, ts), max, RemoveDirty(r, ts));
    Subset(Remove(r, ts).assignments.Keys, r.assignments.Keys);
  }

  lemma {:induction false} Subset<T>(a: set<T>, b: set<T>)
    requires a <= b
    ensures |a| <= |b|
  {
    if a != {} {
      var x :| x in a;
      Subset(a - {x}, b - {x});
    }
  }

  // ── The in-place object ────────────────────────────────────────────────────

  class ShardRouter {
    const maxPerShard: nat
    var assignments: map<TokenId, nat>
    var shards: seq<Slot>
    /** Most tokens ever assigned at once. */
    ghost var peak: nat

    ghost function Value(): Router
      reads this
    {
      Router(assignments, shards)
    }

    ghost predicate Valid()
      reads this
    {
      && maxPerShard > 0
      && Consistent(Value(), maxPerShard)
      && Published(Value())
      && Tight(Value(), maxPerShard, peak)
    }

    constructor (max: nat)
      ensures Valid() && Value() == EMPTY && peak == 0
      ensures maxPerShard == if max > 1 then max else 1
    {
      maxPerShard := if max > 1 then max else 1;
      assignments := map[];
      shards := [];
      peak := 0;
    }

    method PickShard() returns (id: nat)
      requires maxPerShard > 0
      modifies this`shards
      ensures id == old(FirstFree(shards, maxPerShard)) && Value() == WithSpare(old(Value()), maxPerShard)
    {
      id := 0;
      while id < |shards| && |shards[id].tokens| >= maxPerShard
        invariant id <= |shards|
        invariant FirstFree(shards, maxPerShard) == id + FirstFree(shards[id..], maxPerShard)
      {
        assert shards[id..][1..] == shards[id + 1..];
        id := id + 1;
      }
      if id < |shards| {
        return;
      }
      shards := shards + [Slot({}, {})];
    }

    method PublishDirty(dirty: set<nat>)
      modifies this`shards
      ensures Value() == Publish(old(Value()), dirty)
    {
      ghost var r := Value();
      for i := 0 to |shards|
        invariant |shards| == |r.shards|
        invariant forall j :: 0 <= j < i ==> shards[j] == Publish(r, dirty).shards[j]
        invariant forall j :: i <= j < |shards| ==> shards[j] == r.shards[j]
      {
        if i in dirty {
          shards := shards[i := shards[i].(published := shards[i].tokens)];
        }
      }
    }

    method AssignToken(t: TokenId) returns (dirty: set<nat>)
      requires maxPerShard > 0 && Consistent(Value(), maxPerShard)
      modifies this`assignments, this`shards
      ensures Value() == AssignOne(old(Value()), maxPerShard, t)
      ensures dirty == if t in old(assignments) then {} else {old(FirstFree(shards, maxPerShard))}
    {
      if t in assignments {
        return {};
      }
      SpareKeeps(Value(), maxPerShard);
      var id := PickShard();
      assignments := assignments[t := id];
      shards := shards[id := shards[id].(tokens := shards[id].tokens + {t})];
      return {id};
    }

    method AssignEach(tokens: seq<TokenId>) returns (dirty: set<nat>)
      requires maxPerShard > 0 && Consistent(Value(), maxPerShard)
      modifies this`assignments, this`shards
      ensures Value() == AssignLoop(old(Value()), maxPerShard, tokens)
      ensures dirty == AssignDirty(old(Value()), maxPerShard, tokens)
    {
      ghost var r := Value();
      dirty := {};
      for i := 0 to |tokens|
        invariant Value() == AssignLoop(r, maxPerShard, tokens[..i])
        invariant dirty == AssignDirty(r, maxPerShard, tokens[..i])
      {
        assert tokens[..i + 1][..i] == tokens[..i];
        AssignLoopKeeps(r, maxPerShard, tokens[..i]);
        var changed := AssignToken(tokens[i]);
        dirty := dirty + changed;
      }
      assert tokens[..|tokens|] == tokens;
    }

    method AssignTokens(tokens: seq<TokenId>)
      requires Valid()
      modifies this
      ensures Valid() && Value() == Assign(old(Value()), maxPerShard, tokens)
      ensures assignments.Keys == old(assignments.Keys) + Elements(tokens)
      ensures peak == NewPeak(old(peak), Value())
    {
      AssignCorrect(Value(), maxPerShard, tokens, peak);
      var dirty := AssignEach(tokens);
      PublishDirty(dirty);
      peak := NewPeak(peak, Value());
    }

    method RemoveToken(t: TokenId) returns (dirty: set<nat>)
      modifies this`assignments, this`shards
      ensures Value() == RemoveOne(old(Value()), t)
      ensures dirty ==
        if t in old(assignments) && old(assignments)[t] < |old(shards)| then {old(assignments)[t]} else {}
    {
      if t !in assignments {
        return {};
      }
      var id := assignments[t];
      assignments := assignments - {t};
      if id < |shards| {
        shards := shards[id := shards[id].(tokens := shards[id].tokens - {t})];
        return {id};
      }
      return {};
    }

    method RemoveTokens(tokens: seq<TokenId>)
      requires Valid()
      modifies this
      ensures Valid() && Value() == Remove(old(Value()), tokens)
      ensures assignments.Keys == old(assignments.Keys) - Elements(tokens)
      ensures |shards| == old(|shards|) && peak == old(peak)
    {
      ghost var r := Value();
      var dirty: set<nat> := {};
      for i := 0 to |tokens|
        invariant Value() == RemoveLoop(r, tokens[..i])
        invariant dirty == RemoveDirty(r, tokens[..i])
        invariant peak == old(peak)
      {
        assert tokens[..i + 1][..i] == tokens[..i];
        var changed := RemoveToken(tokens[i]);
        dirty := dirty + changed;
      }
      assert tokens[..|tokens|] == tokens;
      RemoveCorrect(r, maxPerShard, tokens, peak);
      PublishDirty(dirty);
    }
  }
}
