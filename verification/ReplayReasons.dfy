/** The reasons a reconstruction reports, token by token, and the exact selection of rows behind it. */
module ReplayReasons {
  import opened StableSorting
  import opened BookLevels
  import opened BookReplay

  // ── Selection ──────────────────────────────────────────────────────────────

  lemma {:induction false} OfTokenCounts(rows: seq<Row>, token: TokenId, r: Row)
    ensures multiset(OfToken(rows, token))[r] == if r.token == token then multiset(rows)[r] else 0
  {
    if rows != [] {
      var init, last := rows[..|rows| - 1], rows[|rows| - 1];
      OfTokenCounts(init, token, r);
      assert rows == init + [last];
    }
  }

  /** A token replays exactly its own rows, each as often as it was given, by event time, ingestion time and
      sequence; rows that agree in all three keep their order. */
  lemma RowsAreSelected(rows: seq<Row>, token: TokenId, r: Row)
    ensures multiset(RowsFor(rows, token))[r] == if r.token == token then multiset(rows)[r] else 0
    ensures SortedBy(RowsFor(rows, token), RowOrder())
    ensures Like(RowsFor(rows, token), r, RowOrder()) == Like(OfToken(rows, token), r, RowOrder())
  {
    assert TotalPreorder(RowOrder());
    OfTokenCounts(rows, token, r);
    SortCorrect(OfToken(rows, token), RowOrder());
    SortStable(OfToken(rows, token), r, RowOrder());
  }

  // ── Reasons ────────────────────────────────────────────────────────────────

  ghost function Missing(input: Input): set<TokenId> { set t | t in input.tokens && LatestSnap(input.snaps, t).None? }

  ghost function Crossed(input: Input): set<TokenId> {
    set t | t in input.tokens && LatestSnap(input.snaps, t).Some? && IsCrossed(FinalBook(input, t).bids, FinalBook(input, t).asks)
  }

  ghost function Gappy(input: Input): set<TokenId> {
    set t | t in input.tokens && LatestSnap(input.snaps, t).Some?
            && !GapsWithin(Bootstrap(LatestSnap(input.snaps, t).value), RowsFor(input.rows, t), input.maxGapMs)
  }

  /** What one token adds to the report. */
  predicate Reported(st: State, st': State, t: TokenId, missing: set<TokenId>, crossed: set<TokenId>, gappy: set<TokenId>) {
    && st'.reasons == st.reasons + (if t in missing then [MissingSnapshot(t)] else if t in crossed then [CrossedBook(t)] else [])
    && (st'.gapCount > 0 <==> st.gapCount > 0 || t in gappy)
  }

  lemma TokenAdds(input: Input, st: State, t: TokenId)
    requires t in input.tokens
    ensures var st' := ReconstructToken(st, t, LatestSnap(input.snaps, t), RowsFor(input.rows, t), input.maxGapMs);
            Reported(st, st', t, Missing(input), Crossed(input), Gappy(input))
  {
    var s := LatestSnap(input.snaps, t);
    if s.Some? { LongGapsZeroIff(Bootstrap(s.value), RowsFor(input.rows, t), input.maxGapMs); }
  }

  lemma TokenReported(input: Input, n: nat)
    requires n < |input.tokens|
    ensures Reported(ReconstructTokens(input, n), ReconstructTokens(input, n + 1), input.tokens[n],
                     Missing(input), Crossed(input), Gappy(input))
  {
    TokensStep(input, n);
    TokenAdds(input, ReconstructTokens(input, n), input.tokens[n]);
  }

  /** The report names exactly the missing and the crossed tokens, and has counted a gap exactly if one has one. */
  ghost predicate Explained(st: State, tokens: seq<TokenId>, missing: set<TokenId>, crossed: set<TokenId>, gappy: set<TokenId>) {
    && (forall t :: MissingSnapshot(t) in st.reasons <==> t in tokens && t in missing)
    && (forall t :: CrossedBook(t) in st.reasons <==> t in tokens && t in crossed && t !in missing)
    && GapTooLong !in st.reasons
    && (st.gapCount > 0 <==> exists t :: t in tokens && t in gappy)
  }

  lemma ExplainedNext(st: State, st': State, tokens: seq<TokenId>, t: TokenId, missing: set<TokenId>, crossed: set<TokenId>,
                      gappy: set<TokenId>)
    requires Explained(st, tokens, missing, crossed, gappy) && Reported(st, st', t, missing, crossed, gappy)
    ensures Explained(st', tokens + [t], missing, crossed, gappy)
  {
  }

  lemma {:induction false} ExplainedThrough(sts: seq<State>, tokens: seq<TokenId>, missing: set<TokenId>, crossed: set<TokenId>,
                                            gappy: set<TokenId>)
    requires |sts| == |tokens| + 1 && sts[0] == START
    requires forall k :: 0 <= k < |tokens| ==> Reported(sts[k], sts[k + 1], tokens[k], missing, crossed, gappy)
    ensures Explained(sts[|tokens|], tokens, missing, crossed, gappy)
  {
    if tokens != [] {
      var n := |tokens| - 1;
      ExplainedThrough(sts[..n + 1], tokens[..n], missing, crossed, gappy);
      assert Reported(sts[n], sts[n + 1], tokens[n], missing, crossed, gappy);
      ExplainedNext(sts[n], sts[n + 1], tokens[..n], tokens[n], missing, crossed, gappy);
      assert tokens[..n] + [tokens[n]] == tokens;
    }
  }

  lemma TokensExplained(input: Input, missing: set<TokenId>, crossed: set<TokenId>, gappy: set<TokenId>)
    requires missing == Missing(input) && crossed == Crossed(input) && gappy == Gappy(input)
    ensures Explained(ReconstructTokens(input, |input.tokens|), input.tokens, missing, crossed, gappy)
  {
    StatesStart(input);
    forall k | 0 <= k < |input.tokens|
      ensures Reported(States(input)[k], States(input)[k + 1], input.tokens[k], missing, crossed, gappy)
    {
      TokenReported(input, k);
    }
    ExplainedThrough(States(input), input.tokens, missing, crossed, gappy);
  }

  lemma StatesStart(input: Input)
    ensures States(input)[0] == START && States(input)[|input.tokens|] == ReconstructTokens(input, |input.tokens|)
  {
    assert States(input)[0] == ReconstructTokens(input, 0);
  }

  /** The report names a token as missing exactly when it is expected and has no snapshot, as crossed exactly when
      its final book is, and a gap exactly when some expected token with a snapshot has one over the limit. */
  lemma ReasonsAreExact(input: Input, t: TokenId)
    ensures var reasons := Reconstruct(input).reasons;
      && (MissingSnapshot(t) in reasons <==> t in input.tokens && LatestSnap(input.snaps, t).None?)
      && (CrossedBook(t) in reasons <==> t in Crossed(input))
      && (GapTooLong in reasons <==> exists u :: u in Gappy(input))
  {
    TokensExplained(input, Missing(input), Crossed(input), Gappy(input));
  }
}
