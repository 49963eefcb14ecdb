/** The life of a trade in the potential-loss ledger over a run: pending from its committed fill until its first
    settlement or manual resolution. */
module LedgerRuns {
  import opened MachineInts
  import opened PotentialLosses
  import opened RiskEngineModel
  import opened RiskEngineBooks

  datatype Status = Absent | Pending(loss: real, since: int) | Settled(loss: real, since: int, at: Option<int>)

  function StatusOf(l: Ledger, id: TradeId): Status {
    if id !in l.entries then Absent
    else
      var e := l.entries[id];
      if e.active then Pending(e.maxLoss, e.createdAt) else Settled(e.maxLoss, e.createdAt, e.resolvedAt)
  }

  /** A successful fill puts its cost and fee at stake once; settling or resolving the trade releases them. */
  function Touched(s: Status, p: Posting, id: TradeId): Status {
    match p
    case PostFill(t, at) => if t.id == id && t.outcome.Success? && s.Absent? then Pending(t.cost + t.fee, at) else s
    case PostSettlement(t, at) => if t.id == id then Released(s, at) else s
    case PostResolve(i, at) => if i == id then Released(s, at) else s
    case _ => s
  }

  function Released(s: Status, at: int): Status { if s.Absent? then s else Settled(s.loss, s.since, Some(at)) }

  function StatusAfter(s: Status, ps: seq<Posting>, id: TradeId): Status {
    if ps == [] then s else Touched(StatusAfter(s, ps[..|ps| - 1], id), ps[|ps| - 1], id)
  }

  lemma PostTouches(b: Books, p: Posting, id: TradeId)
    ensures StatusOf(Post(b, p).ledger, id) == Touched(StatusOf(b.ledger, id), p, id)
  {
  }

  lemma {:induction false} PostingsTouch(b: Books, ps: seq<Posting>, id: TradeId)
    ensures StatusOf(PostAll(b, ps).ledger, id) == StatusAfter(StatusOf(b.ledger, id), ps, id)
  {
    if ps != [] {
      PostingsTouch(b, ps[..|ps| - 1], id);
      PostTouches(PostAll(b, ps[..|ps| - 1]), ps[|ps| - 1], id);
    }
  }

  /** Over every run the ledger shows each trade exactly as its own postings leave it. */
  lemma LedgerFollowsJournal(e: Engine, evs: seq<Event>, id: TradeId)
    ensures StatusOf(Run(e, evs).books.ledger, id) == StatusAfter(StatusOf(e.books.ledger, id), Journal(e.applied, evs), id)
  {
    BooksFollowJournal(e, evs);
    PostingsTouch(e.books, Journal(e.applied, evs), id);
  }

  /** A posting that releases the trade. */
  predicate Frees(p: Posting, id: TradeId) { (p.PostSettlement? && p.trade.id == id) || (p.PostResolve? && p.id == id) }

  lemma {:induction false} PendingIff(s: Status, ps: seq<Posting>, id: TradeId)
    requires !s.Absent?
    ensures var r := StatusAfter(s, ps, id);
      && !r.Absent? && r.loss == s.loss && r.since == s.since
      && (r.Pending? <==> s.Pending? && forall i :: 0 <= i < |ps| ==> !Frees(ps[i], id))
  {
    if ps != [] {
      var init, p := ps[..|ps| - 1], ps[|ps| - 1];
      PendingIff(s, init, id);
      assert forall i :: 0 <= i < |init| ==> init[i] == ps[i];
    }
  }

  /** A trade at stake stays at stake with the same loss exactly until the run settles or resolves it. */
  lemma PendingUntilReleased(e: Engine, evs: seq<Event>, id: TradeId)
    requires StatusOf(e.books.ledger, id).Pending?
    ensures var s, r := StatusOf(e.books.ledger, id), StatusOf(Run(e, evs).books.ledger, id);
            var js := Journal(e.applied, evs);
      && !r.Absent? && r.loss == s.loss && r.since == s.since
      && (r.Pending? <==> forall i :: 0 <= i < |js| ==> !Frees(js[i], id))
  {
    LedgerFollowsJournal(e, evs, id);
    PendingIff(StatusOf(e.books.ledger, id), Journal(e.applied, evs), id);
  }
}
