/** The settlement oracle: sources vote on a market's outcome and a quorum decides. */
module VotingOracles {
  import opened MachineInts

  datatype Vote = Vote(source: string, yes: bool)

  /** What one source came back with: a vote, no resolution yet, or a failed query. */
  datatype Outcome = Answer(vote: Vote) | Silent | Fault

  datatype DownStrategy = ConservativeReject | ManualAck

  datatype Reason =
    | Insufficient(yes: nat, no: nat, need: nat)
    | NoVotes(strategy: DownStrategy, errors: u32)

  datatype Verdict =
    | Resolved(yes: bool, votes: seq<Vote>)
    | Disputed(votes: seq<Vote>)
    | Unresolved(reason: Reason)

  // ── Deciding ───────────────────────────────────────────────────────────────

  function CountOf(votes: seq<Vote>, yes: bool): nat {
    if votes == [] then 0
    else CountOf(votes[..|votes| - 1], yes) + if votes[|votes| - 1].yes == yes then 1 else 0
  }

  function Tally(votes: seq<Vote>, quorum: nat): Verdict {
    var yes, no := CountOf(votes, true), CountOf(votes, false);
    if yes >= quorum then Resolved(true, votes)
    else if no >= quorum then Resolved(false, votes)
    else if |votes| >= quorum then Disputed(votes)
    else Unresolved(Insufficient(yes, no, quorum))
  }

  function Votes(round: seq<Outcome>): seq<Vote> {
    if round == [] then []
    else
      var last := round[|round| - 1];
      Votes(round[..|round| - 1]) + if last.Answer? then [last.vote] else []
  }

  function Errors(round: seq<Outcome>): u32 {
    if round == [] then 0
    else if round[|round| - 1].Fault? then WrapU32(Errors(round[..|round| - 1]) + 1)
    else Errors(round[..|round| - 1])
  }

  function Decide(round: seq<Outcome>, quorum: nat, down: DownStrategy): Verdict {
    var verdict := Tally(Votes(round), quorum);
    if verdict.Unresolved? && Votes(round) == [] then Unresolved(NoVotes(down, Errors(round))) else verdict
  }

  lemma {:induction false} CountsPartition(votes: seq<Vote>)
    ensures CountOf(votes, true) + CountOf(votes, false) == |votes|
  {
    if votes != [] { CountsPartition(votes[..|votes| - 1]); }
  }

  // ── Verdicts of a round ────────────────────────────────────────────────────

  /** The sources that answered yes, or no. */
  function Answers(round: seq<Outcome>, yes: bool): nat {
    if round == [] then 0
    else
      var last := round[|round| - 1];
      Answers(round[..|round| - 1], yes) + if last.Answer? && last.vote.yes == yes then 1 else 0
  }

  /** The sources whose query failed. */
  function Faults(round: seq<Outcome>): nat {
    if round == [] then 0 else Faults(round[..|round| - 1]) + if round[|round| - 1].Fault? then 1 else 0
  }

  lemma CountNext(votes: seq<Vote>, v: Vote, yes: bool)
    ensures CountOf(votes + [v], yes) == CountOf(votes, yes) + if v.yes == yes then 1 else 0
  {
    assert (votes + [v])[..|votes|] == votes;
  }

  lemma {:induction false} VotesAreAnswers(round: seq<Outcome>, yes: bool)
    ensures CountOf(Votes(round), yes) == Answers(round, yes)
    ensures |Votes(round)| == Answers(round, true) + Answers(round, false)
  {
    if round != [] {
      var init, last := round[..|round| - 1], round[|round| - 1];
      VotesAreAnswers(init, yes);
      if last.Answer? { CountNext(Votes(init), last.vote, yes); } else { assert Votes(round) == Votes(init); }
    }
  }

  lemma {:induction false} ErrorsAreFaults(round: seq<Outcome>)
    ensures Errors(round) == WrapU32(Faults(round))
  {
    if round != [] {
      ErrorsAreFaults(round[..|round| - 1]);
      WrapSuccessor(Faults(round[..|round| - 1]));
    }
  }

  /** The votes a verdict carries are the answers of the round, in its order. */
  lemma {:induction false} VotesInOrder(round: seq<Outcome>, i: nat)
    requires i < |round| && round[i].Answer?
    ensures var n := Answers(round[..i], true) + Answers(round[..i], false);
            n < |Votes(round)| && Votes(round)[n] == round[i].vote
  {
    var init := round[..|round| - 1];
    if i < |init| {
      VotesInOrder(init, i);
      assert init[..i] == round[..i];
    } else {
      VotesAreAnswers(init, true);
      assert round[..i] == init;
    }
  }

  /** The verdict on every round, from the yes answers, the no answers and the faults in it: a side with a quorum
      wins, yes first; answers enough for a quorum but neither side with one are a dispute; fewer answers leave it
      unresolved, and no answers at all name the configured strategy and the number of faults. */
  lemma VerdictIff(round: seq<Outcome>, quorum: nat, down: DownStrategy)
    ensures var v, yes, no := Decide(round, quorum, down), Answers(round, true), Answers(round, false);
      && (v.Resolved? <==> yes >= quorum || no >= quorum)
      && (v.Resolved? ==> (v.yes <==> yes >= quorum) && v.votes == Votes(round))
      && (v.Disputed? <==> yes < quorum && no < quorum && yes + no >= quorum)
      && (v.Disputed? ==> v.votes == Votes(round))
      && (v.Unresolved? <==> yes + no < quorum)
      && (v.Unresolved? ==>
           v.reason == if yes + no == 0 then NoVotes(down, WrapU32(Faults(round))) else Insufficient(yes, no, quorum))
  {
    VotesAreAnswers(round, true);
    VotesAreAnswers(round, false);
    ErrorsAreFaults(round);
  }

  // ── Order and symmetry ─────────────────────────────────────────────────────

  lemma {:induction false} CountRemove(votes: seq<Vote>, i: nat, yes: bool)
    requires i < |votes|
    ensures CountOf(votes, yes) == CountOf(Without(votes, i), yes) + if votes[i].yes == yes then 1 else 0
  {
    var n := |votes|;
    if i < n - 1 {
      CountRemove(votes[..n - 1], i, yes);
      assert Without(votes, i)[..n - 2] == Without(votes[..n - 1], i);
      assert Without(votes, i)[n - 2] == votes[n - 1];
    } else {
      assert Without(votes, i) == votes[..n - 1];
    }
  }

  lemma {:induction false} CountIgnoresOrder(a: seq<Vote>, b: seq<Vote>, yes: bool)
    requires multiset(a) == multiset(b)
    ensures CountOf(a, yes) == CountOf(b, yes)
  {
    assert |multiset(a)| == |a| && |multiset(b)| == |b|;
    if a != [] {
      var n := |a| - 1;
      assert a[n] in multiset(b);
      var i :| 0 <= i < |b| && b[i] == a[n];
      WithoutOne(a, n);
      WithoutOne(b, i);
      CountIgnoresOrder(Without(a, n), Without(b, i), yes);
      CountRemove(a, n, yes);
      CountRemove(b, i, yes);
    }
  }

  function Without(votes: seq<Vote>, i: nat): (r: seq<Vote>)
    requires i < |votes|
    ensures |r| == |votes| - 1
  {
    votes[..i] + votes[i + 1..]
  }

  lemma WithoutOne(votes: seq<Vote>, i: nat)
    requires i < |votes|
    ensures multiset(Without(votes, i)) == multiset(votes) - multiset{votes[i]}
  {
    assert votes == votes[..i] + [votes[i]] + votes[i + 1..];
    assert multiset(votes) == multiset(votes[..i]) + multiset{votes[i]} + multiset(votes[i + 1..]);
  }

  /** Two verdicts that differ at most in the order of the votes they carry. */
  predicate SameDecision(x: Verdict, y: Verdict) {
    match x
    case Resolved(yes, _) => y.Resolved? && y.yes == yes
    case Disputed(_) => y.Disputed?
    case Unresolved(_) => x == y
  }

  /** The decision depends on which votes came in, not on their order. */
  lemma DecisionIgnoresOrder(a: seq<Vote>, b: seq<Vote>, quorum: nat)
    requires multiset(a) == multiset(b)
    ensures SameDecision(Tally(a, quorum), Tally(b, quorum))
  {
    assert |multiset(a)| == |a| && |multiset(b)| == |b|;
    CountIgnoresOrder(a, b, true);
    CountIgnoresOrder(a, b, false);
  }

  function Flipped(votes: seq<Vote>): (r: seq<Vote>)
    ensures |r| == |votes|
  {
    if votes == [] then []
    else
      var last := votes[|votes| - 1];
      Flipped(votes[..|votes| - 1]) + [last.(yes := !last.yes)]
  }

  lemma {:induction false} FlippedCounts(votes: seq<Vote>, yes: bool)
    ensures CountOf(Flipped(votes), yes) == CountOf(votes, !yes)
  {
    if votes != [] {
      FlippedCounts(votes[..|votes| - 1], yes);
      assert Flipped(votes)[..|votes| - 1] == Flipped(votes[..|votes| - 1]);
    }
  }

  function Mirror(v: Verdict): Verdict {
    match v
    case Resolved(yes, votes) => Resolved(!yes, Flipped(votes))
    case Disputed(votes) => Disputed(Flipped(votes))
    case Unresolved(Insufficient(yes, no, need)) => Unresolved(Insufficient(no, yes, need))
    case Unresolved(_) => v
  }

  /** Yes and no are treated alike exactly when they do not both reach the quorum; when they do, yes wins. */
  lemma FlipLaw(votes: seq<Vote>, quorum: nat)
    ensures Tally(Flipped(votes), quorum) == Mirror(Tally(votes, quorum))
       <==> !(CountOf(votes, true) >= quorum && CountOf(votes, false) >= quorum)
    ensures CountOf(votes, true) >= quorum && CountOf(votes, false) >= quorum ==>
              Tally(votes, quorum) == Resolved(true, votes) && Tally(Flipped(votes), quorum) == Resolved(true, Flipped(votes))
  {
    FlippedCounts(votes, true);
    FlippedCounts(votes, false);
  }

  // ── Agreement between rounds ───────────────────────────────────────────────

  /** No source that answered in both rounds changed its answer. */
  predicate Consistent(a: seq<Outcome>, b: seq<Outcome>) {
    |a| == |b| && forall i :: 0 <= i < |a| && a[i].Answer? && b[i].Answer? ==> a[i].vote.yes == b[i].vote.yes
  }

  lemma {:induction false} OpposingVotesFit(a: seq<Outcome>, b: seq<Outcome>, yes: bool)
    requires Consistent(a, b)
    ensures CountOf(Votes(a), yes) + CountOf(Votes(b), !yes) <= |a|
  {
    if a != [] {
      var n := |a| - 1;
      OpposingVotesFit(a[..n], b[..n], yes);
      LastVote(a, yes);
      LastVote(b, !yes);
    }
  }

  lemma LastVote(round: seq<Outcome>, yes: bool)
    requires round != []
    ensures var last := round[|round| - 1];
            CountOf(Votes(round), yes) == CountOf(Votes(round[..|round| - 1]), yes) + if last.Answer? && last.vote.yes == yes then 1 else 0
  {
    var last, init := round[|round| - 1], Votes(round[..|round| - 1]);
    if last.Answer? {
      assert (init + [last.vote])[..|init|] == init;
    } else {
      assert init + [] == init;
    }
  }

  lemma DecideResolved(round: seq<Outcome>, quorum: nat, down: DownStrategy)
    ensures var v := Decide(round, quorum, down); v.Resolved? ==> CountOf(Votes(round), v.yes) >= quorum
  {
  }

  /** Rounds over `n` consistent sources never resolve to opposite outcomes. */
  ghost predicate RoundsAgree(n: nat, quorum: nat, down: DownStrategy) {
    forall a, b :: Consistent(a, b) && |a| == n && Decide(a, quorum, down).Resolved? && Decide(b, quorum, down).Resolved?
      ==> Decide(a, quorum, down).yes == Decide(b, quorum, down).yes
  }

  /** Sources `lo` up to `hi` answer `yes`; the others say nothing. */
  function Block(n: nat, lo: nat, hi: nat, yes: bool): (r: seq<Outcome>)
    ensures |r| == n
  {
    if n == 0 then [] else Block(n - 1, lo, hi, yes) + [if lo <= n - 1 < hi then Answer(Vote("", yes)) else Silent]
  }

  lemma {:induction false} BlockAt(n: nat, lo: nat, hi: nat, yes: bool, i: nat)
    requires i < n
    ensures Block(n, lo, hi, yes)[i] == if lo <= i < hi then Answer(Vote("", yes)) else Silent
  {
    if i < n - 1 { BlockAt(n - 1, lo, hi, yes, i); }
  }

  /** How many of the first `n` sources lie in the block. */
  function Width(n: nat, lo: nat, hi: nat): nat { Max(Min(n, hi) - lo, 0) }

  lemma BlockCount(n: nat, lo: nat, hi: nat, yes: bool, side: bool)
    requires lo <= hi
    ensures CountOf(Votes(Block(n, lo, hi, yes)), side) == if side == yes then Width(n, lo, hi) else 0
  {
    VotesAreAnswers(Block(n, lo, hi, yes), side);
    BlockAnswers(n, lo, hi, yes, side);
  }

  lemma {:induction false} BlockAnswers(n: nat, lo: nat, hi: nat, yes: bool, side: bool)
    requires lo <= hi
    ensures Answers(Block(n, lo, hi, yes), side) == if side == yes then Width(n, lo, hi) else 0
  {
    if n > 0 {
      BlockAnswers(n - 1, lo, hi, yes, side);
      assert Block(n, lo, hi, yes)[..n - 1] == Block(n - 1, lo, hi, yes);
    }
  }

  lemma MajorityAgrees(a: seq<Outcome>, b: seq<Outcome>, quorum: nat, down: DownStrategy)
    requires Consistent(a, b) && (quorum == 0 || 2 * quorum > |a|)
    requires Decide(a, quorum, down).Resolved? && Decide(b, quorum, down).Resolved?
    ensures Decide(a, quorum, down).yes == Decide(b, quorum, down).yes
  {
    OpposingVotesFit(a, b, true);
    OpposingVotesFit(a, b, false);
    DecideResolved(a, quorum, down);
    DecideResolved(b, quorum, down);
  }

  lemma MinorityClashes(n: nat, quorum: nat, down: DownStrategy) returns (a: seq<Outcome>, b: seq<Outcome>)
    requires 0 < quorum && 2 * quorum <= n
    ensures Consistent(a, b) && |a| == n
    ensures Decide(a, quorum, down) == Resolved(true, Votes(a)) && Decide(b, quorum, down) == Resolved(false, Votes(b))
  {
    a, b := Block(n, 0, quorum, true), Block(n, quorum, 2 * quorum, false);
    BlockCount(n, 0, quorum, true, true);
    BlockCount(n, quorum, 2 * quorum, false, false);
    BlockCount(n, quorum, 2 * quorum, false, true);
    BlocksConsistent(n, quorum);
    DecideByCount(a, quorum, down);
    DecideByCount(b, quorum, down);
  }

  lemma DecideByCount(round: seq<Outcome>, quorum: nat, down: DownStrategy)
    ensures CountOf(Votes(round), true) >= quorum ==> Decide(round, quorum, down) == Resolved(true, Votes(round))
    ensures CountOf(Votes(round), false) >= quorum > CountOf(Votes(round), true) ==>
              Decide(round, quorum, down) == Resolved(false, Votes(round))
  {
  }

  lemma BlocksConsistent(n: nat, quorum: nat)
    ensures Consistent(Block(n, 0, quorum, true), Block(n, quorum, 2 * quorum, false))
  {
    var a, b := Block(n, 0, quorum, true), Block(n, quorum, 2 * quorum, false);
    forall i | 0 <= i < n ensures !(a[i].Answer? && b[i].Answer?) {
      BlockAt(n, 0, quorum, true, i);
      BlockAt(n, quorum, 2 * quorum, false, i);
    }
  }

  /** Two resolved rounds always agree exactly when the quorum is a strict majority of the sources (or is
      zero, when every round resolves to yes). */
  lemma QuorumIntersection(n: nat, quorum: nat, down: DownStrategy)
    ensures RoundsAgree(n, quorum, down) <==> quorum == 0 || 2 * quorum > n
  {
    if quorum == 0 || 2 * quorum > n {
      forall a, b | Consistent(a, b) && |a| == n && Decide(a, quorum, down).Resolved? && Decide(b, quorum, down).Resolved?
        ensures Decide(a, quorum, down).yes == Decide(b, quorum, down).yes
      {
        MajorityAgrees(a, b, quorum, down);
      }
    } else {
      var a, b := MinorityClashes(n, quorum, down);
    }
  }

  function Wrong(round: seq<Outcome>, truth: bool): nat { CountOf(Votes(round), !truth) }

  /** With at most `faulty` wrong answers among `n` sources, a resolved round tells the truth. */
  ghost predicate ToleratesFaults(n: nat, quorum: nat, faulty: nat, down: DownStrategy) {
    forall round, truth :: |round| == n && Wrong(round, truth) <= faulty && Decide(round, quorum, down).Resolved?
      ==> Decide(round, quorum, down).yes == truth
  }

  lemma {:induction false} VotesFit(round: seq<Outcome>)
    ensures |Votes(round)| <= |round|
  {
    if round != [] { VotesFit(round[..|round| - 1]); }
  }

  /** Wrong answers are outvoted exactly when they cannot reach the quorum themselves. */
  lemma FaultTolerance(n: nat, quorum: nat, faulty: nat, down: DownStrategy)
    ensures ToleratesFaults(n, quorum, faulty, down) <==> quorum > Min(faulty, n)
  {
    if quorum > Min(faulty, n) {
      forall round, truth | |round| == n && Wrong(round, truth) <= faulty && Decide(round, quorum, down).Resolved?
        ensures Decide(round, quorum, down).yes == truth
      {
        DecideResolved(round, quorum, down);
        CountsPartition(Votes(round));
        VotesFit(round);
      }
    } else {
      var round := Block(n, 0, quorum, true);
      BlockCount(n, 0, quorum, true, true);
      assert |round| == n && Wrong(round, false) <= faulty;
      assert Decide(round, quorum, down) == Resolved(true, Votes(round));
    }
  }

  /** Once the quorum answers truthfully and fewer than the quorum answer wrongly, the round resolves to
      the truth. */
  lemma TruthResolves(round: seq<Outcome>, quorum: nat, truth: bool, down: DownStrategy)
    requires CountOf(Votes(round), truth) >= quorum > CountOf(Votes(round), !truth)
    ensures Decide(round, quorum, down) == Resolved(truth, Votes(round))
  {
    if !truth {
      assert CountOf(Votes(round), true) < quorum;
    }
  }

  // ── Reloading ──────────────────────────────────────────────────────────────

  datatype Source = Source(id: string, endpoint: string)

  datatype OracleState = OracleState(sources: seq<Source>, quorum: nat, delaySecs: u64, down: DownStrategy)

  datatype OracleConfig = OracleConfig(umaEndpoint: string, quorum: nat, delaySecs: u64, down: DownStrategy)

  predicate IsUma(s: Source) { s.id == "uma" }

  function Carried(sources: seq<Source>): seq<Source> {
    if sources == [] then []
    else
      var last := sources[|sources| - 1];
      Carried(sources[..|sources| - 1]) + if !IsUma(last) then [last] else []
  }

  lemma {:induction false} CarriedHasNoUma(sources: seq<Source>)
    ensures forall i :: 0 <= i < |Carried(sources)| ==> !IsUma(Carried(sources)[i])
  {
    if sources != [] { CarriedHasNoUma(sources[..|sources| - 1]); }
  }

  function Staged(state: OracleState, config: OracleConfig): OracleState {
    OracleState(Carried(state.sources) + [Source("uma", config.umaEndpoint)], Max(config.quorum, 1), config.delaySecs, config.down)
  }

  lemma {:induction false} CarriedIsStable(sources: seq<Source>)
    requires forall i :: 0 <= i < |sources| ==> !IsUma(sources[i])
    ensures Carried(sources) == sources
  {
    if sources != [] {
      CarriedIsStable(sources[..|sources| - 1]);
      assert sources == sources[..|sources| - 1] + [sources[|sources| - 1]];
    }
  }

  lemma CarriedAppend(sources: seq<Source>, s: Source)
    ensures Carried(sources + [s]) == Carried(sources) + if !IsUma(s) then [s] else []
  {
    assert (sources + [s])[..|sources|] == sources;
  }

  /** After a reload exactly one source is the UMA source, it is the new one, the others are carried over
      in order, the quorum is at least one, and an earlier reload leaves no trace. */
  lemma ReloadReplacesUma(state: OracleState, first: OracleConfig, config: OracleConfig)
    ensures var next := Staged(state, config);
            && (forall i :: 0 <= i < |next.sources| && IsUma(next.sources[i]) ==> i == |next.sources| - 1)
            && next.sources[|next.sources| - 1] == Source("uma", config.umaEndpoint)
            && Carried(next.sources) == Carried(state.sources)
            && next.quorum == (if config.quorum > 1 then config.quorum else 1)
            && next.delaySecs == config.delaySecs && next.down == config.down
    ensures Staged(Staged(state, first), config) == Staged(state, config)
  {
    var carried := Carried(state.sources);
    CarriedHasNoUma(state.sources);
    CarriedIsStable(carried);
    CarriedAppend(carried, Source("uma", config.umaEndpoint));
    CarriedAppend(carried, Source("uma", first.umaEndpoint));
  }

  class VotingOracle {
    var state: OracleState

    constructor (initial: OracleState)
      ensures state == initial
    {
      state := initial;
    }

    /** Builds the next state without publishing it; building the UMA source may fail. */
    method StageReload(config: OracleConfig, umaBuilds: bool) returns (staged: Option<OracleState>)
      ensures staged == if umaBuilds then Some(Staged(state, config)) else None
    {
      var sources := [];
      for i := 0 to |state.sources|
        invariant sources == Carried(state.sources[..i])
      {
        assert state.sources[..i + 1][..i] == state.sources[..i];
        if !IsUma(state.sources[i]) {
          sources := sources + [state.sources[i]];
        }
      }
      assert state.sources[..|state.sources|] == state.sources;
      if !umaBuilds {
        return None;
      }
      sources := sources + [Source("uma", config.umaEndpoint)];
      staged := Some(OracleState(sources, Max(config.quorum, 1), config.delaySecs, config.down));
    }

    method Commit(staged: OracleState)
      modifies this
      ensures state == staged
    {
      state := staged;
    }

    /** Collects the answers of a round and decides. */
    method Resolve(round: seq<Outcome>) returns (verdict: Verdict)
      ensures verdict == Decide(round, state.quorum, state.down)
    {
      var votes: seq<Vote> := [];
      var errors: u32 := 0;
      for i := 0 to |round|
        invariant votes == Votes(round[..i]) && errors == Errors(round[..i])
      {
        assert round[..i + 1][..i] == round[..i];
        match round[i]
        case Answer(vote) => votes := votes + [vote];
        case Silent =>
        case Fault => errors := WrapU32(errors + 1);
      }
      assert round[..|round|] == round;
      verdict := Tally(votes, state.quorum);
      if verdict.Unresolved? && votes == [] {
        verdict := Unresolved(NoVotes(state.down, errors));
      }
    }
  }
}
