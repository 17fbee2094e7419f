/**
  The summary report: total revenue over completed sessions, the number of
  stored sessions, and the number of feedback entries (counted elsewhere and
  passed in).
*/
module Reports {
  import opened Wrappers
  import opened ParkingSchema
  import opened Ledger
  import opened ParkingRoutes

  /** The answer to the summary query. */
  datatype Summary = Summary(totalRevenue: int, totalParkings: nat, totalFeedbacks: nat)

  /** What a record adds to revenue: its cost if it is completed; a missing cost adds nothing. */
  function Contribution(s: Session): int {
    if s.status == Completed then s.cost.GetOr(0) else 0
  }

  /** Revenue of a ledger: the contributions of its records, added up. */
  function Revenue(l: Ledger): int {
    if |l| == 0 then 0 else Contribution(l[0]) + Revenue(l[1..])
  }

  /** The `$sum` of `cost` over a list of documents; a document without a cost adds nothing. */
  function SumCost(s: seq<Session>): int {
    if |s| == 0 then 0 else s[0].cost.GetOr(0) + SumCost(s[1..])
  }

  /** Summing the costs of the completed records is the ledger's revenue. */
  lemma {:induction false} SumCostOfCompleted(l: Ledger)
    ensures SumCost(WithStatus(l, Completed)) == Revenue(l)
  {
    if |l| > 0 {
      SumCostOfCompleted(l[1..]);
      if l[0].status == Completed {
        assert WithStatus(l, Completed) == [l[0]] + WithStatus(l[1..], Completed);
        assert ([l[0]] + WithStatus(l[1..], Completed))[1..] == WithStatus(l[1..], Completed);
      } else {
        assert WithStatus(l, Completed) == WithStatus(l[1..], Completed);
      }
    }
  }

  /**
    The revenue aggregation: keep the completed records, then group them all
    into one group holding the sum of their costs. No completed record means
    no group at all.
  */
  function RevenuePipeline(l: Ledger): (groups: seq<int>)
    ensures |groups| <= 1
    ensures |groups| == 0 <==> forall i :: 0 <= i < |l| ==> l[i].status != Completed
    ensures |groups| == 1 ==> groups[0] == Revenue(l)
  {
    var matched := WithStatus(l, Completed);
    SumCostOfCompleted(l);
    assert (exists i :: 0 <= i < |l| && l[i].status == Completed) ==> |matched| > 0 by {
      if i :| 0 <= i < |l| && l[i].status == Completed {
        assert l[i] in l;
      }
    }
    if |matched| == 0 then [] else [SumCost(matched)]
  }

  /** No completed record means zero revenue. */
  lemma {:induction false} NoCompletedNoRevenue(l: Ledger)
    requires forall i :: 0 <= i < |l| ==> l[i].status != Completed
    ensures Revenue(l) == 0
  {
    if |l| > 0 {
      assert forall i :: 0 <= i < |l[1..]| ==> l[1..][i] == l[i + 1];
      NoCompletedNoRevenue(l[1..]);
    }
  }

  /**
    The summary: revenue is the first group's total, or 0 when there is no
    group (or the total is 0); the session count covers every record
    whatever its status.
  */
  function Summarize(l: Ledger, feedbackCount: nat): (r: Summary)
    ensures r.totalRevenue == Revenue(l)
    ensures (forall i :: 0 <= i < |l| ==> l[i].status != Completed) ==> r.totalRevenue == 0
    ensures r.totalParkings == |l|
    ensures r.totalFeedbacks == feedbackCount
  {
    var groups := RevenuePipeline(l);
    if |groups| == 0 then NoCompletedNoRevenue(l); Summary(0, |l|, feedbackCount)
    else Summary(if groups[0] != 0 then groups[0] else 0, |l|, feedbackCount)
  }

  /** Appending a record adds its contribution. */
  lemma {:induction false} RevenueAppend(l: Ledger, s: Session)
    ensures Revenue(l + [s]) == Revenue(l) + Contribution(s)
  {
    if |l| > 0 {
      assert (l + [s])[1..] == l[1..] + [s];
      RevenueAppend(l[1..], s);
    }
  }

  /** Replacing one record changes revenue by the difference of the two contributions. */
  lemma {:induction false} RevenueUpdate(l: Ledger, i: nat, s: Session)
    requires i < |l|
    ensures Revenue(l[i := s]) == Revenue(l) - Contribution(l[i]) + Contribution(s)
  {
    if i > 0 {
      assert l[i := s][1..] == l[1..][i - 1 := s];
      RevenueUpdate(l[1..], i - 1, s);
    }
  }

  /** A successful entry leaves revenue as it was and adds one to the session count. */
  lemma EntryEffectOnSummary(l: Ledger, req: EntryRequest, actor: Actor, now: int, spot: int,
                             feedbackCount: nat)
    requires MinSpot <= spot <= MaxSpot
    requires RecordEntry(l, req, actor, now, spot).Success?
    ensures Summarize(RecordEntry(l, req, actor, now, spot).value.ledger, feedbackCount).totalRevenue
            == Summarize(l, feedbackCount).totalRevenue
    ensures Summarize(RecordEntry(l, req, actor, now, spot).value.ledger, feedbackCount).totalParkings
            == Summarize(l, feedbackCount).totalParkings + 1
  {
    RevenueAppend(l, RecordEntry(l, req, actor, now, spot).value.session);
  }

  /** A successful exit adds exactly that session's cost to revenue and leaves the count unchanged. */
  lemma ExitEffectOnSummary(l: Ledger, req: ExitRequest, feedbackCount: nat)
    requires RecordExit(l, req).Success?
    ensures Summarize(RecordExit(l, req).value.ledger, feedbackCount).totalRevenue
            == Summarize(l, feedbackCount).totalRevenue + RecordExit(l, req).value.cost
    ensures Summarize(RecordExit(l, req).value.ledger, feedbackCount).totalParkings
            == Summarize(l, feedbackCount).totalParkings
  {
    var x := RecordExit(l, req).value;
    RevenueUpdate(l, ExitMatch(l, req).value, x.session);
  }
}
