/** What matching a card statement means, in the columns of its movements and of the recorded transactions. */
module StatementMeaning {
  import opened Calendar
  import opened Common
  import opened Ledger
  import LedgerMeaning
  import opened StatementMatching

  // ---------------------------------------------------------------- which pairs can match

  /** A recorded transaction as a row of the ledger. */
  function AsRow(t: Recorded): Transaction {
    Transaction(t.account, t.kind, t.amount, None, t.date, "", t.transferTo, None, true, t.purchase)
  }

  /** The shape of a stored row: a positive amount, and another account exactly for a transfer. */
  predicate IsStored(t: Recorded) {
    t.amount > 0 && t.kind != OtherKind && (t.transferTo.Some? <==> t.kind == Transfer) && t.transferTo != Some(t.account)
  }

  /** A movement and a transaction can match exactly if the transaction moves the card by what the movement says, down for a
      charge and up for a credit, and is no installment; or, for an installment, if it is an installment charged to the
      card within two cents; and if it is dated at most 3 (20 for an installment) days before the earlier of the
      movement's two dates and at most as many after the later. */
  lemma PairableMeans(m: Movement, card: Id, t: Recorded)
    requires m.amount > 0 && IsStored(t)
    ensures var days := if m.installment then 20 else 3;
            Pairable(m, card, t)
            <==> && (if m.installment
                     then t.purchase.Some? && t.account == card && t.kind == Expense && m.amount - 2 <= t.amount <= m.amount + 2
                     else t.purchase.None? && LedgerMeaning.Moved(AsRow(t), card) == (if m.charge then -m.amount else m.amount))
                 && (Ordinal(t.date) >= Ordinal(m.operation) - days || Ordinal(t.date) >= Ordinal(m.posting) - days)
                 && (Ordinal(t.date) <= Ordinal(m.operation) + days || Ordinal(t.date) <= Ordinal(m.posting) + days)
  {
    WindowMeans(m, t.date);
    EligibleMeans(m, card, t);
    hide Ordinal, InWindow, Eligible, LedgerMeaning.Moved;
  }

  lemma EligibleMeans(m: Movement, card: Id, t: Recorded)
    requires m.amount > 0 && IsStored(t)
    ensures Eligible(m, card, t)
            <==> if m.installment
                 then t.purchase.Some? && t.account == card && t.kind == Expense && m.amount - 2 <= t.amount <= m.amount + 2
                 else t.purchase.None? && LedgerMeaning.Moved(AsRow(t), card) == (if m.charge then -m.amount else m.amount)
  {
  }

  lemma WindowMeans(m: Movement, date: Date)
    ensures var days := if m.installment then 20 else 3;
            InWindow(m, date)
            <==> && (Ordinal(date) >= Ordinal(m.operation) - days || Ordinal(date) >= Ordinal(m.posting) - days)
                 && (Ordinal(date) <= Ordinal(m.operation) + days || Ordinal(date) <= Ordinal(m.posting) + days)
  {
    hide Ordinal, Before;
    OrdinalOrder(m.posting, m.operation);
    OrdinalOrder(date, AddDays(First(m), -WindowDays(m)));
    OrdinalOrder(AddDays(Last(m), WindowDays(m)), date);
  }

  /** How far a transaction is from a movement: the days to the nearer of its two dates, none between them. */
  lemma DistanceMeans(m: Movement, date: Date)
    ensures var day, a, b := Ordinal(date), Ordinal(m.operation), Ordinal(m.posting);
            && (day < a && day < b ==> Distance(m, date) == (if a < b then a else b) - day)
            && (day > a && day > b ==> Distance(m, date) == day - (if a > b then a else b))
            && ((a <= day <= b || b <= day <= a) ==> Distance(m, date) == 0)
  {
    hide Ordinal, Before;
    OrdinalOrder(m.posting, m.operation);
    OrdinalOrder(date, First(m));
    OrdinalOrder(Last(m), date);
  }

  // ---------------------------------------------------------------- which pairs are chosen

  /** Every chosen pair is one that can match, and no movement and no transaction is in two. A pair that can match and is not
      chosen lost its movement or its transaction to a chosen one that is closer, or as close with more words in common,
      or as many and earlier in the statement, or the same movement and an earlier transaction. */
  lemma ChosenMeans(ms: seq<Movement>, card: Id, ts: seq<Recorded>)
    ensures var chosen := Chosen(ms, card, ts);
            && (forall p <- chosen ::
                  && p.movement < |ms| && p.transaction < |ts| && Pairable(ms[p.movement], card, ts[p.transaction])
                  && p.distance == Distance(ms[p.movement], ts[p.transaction].date)
                  && p.overlap == |ms[p.movement].words * ts[p.transaction].words|)
            && (forall p, q :: p in chosen && q in chosen && (p.movement == q.movement || p.transaction == q.transaction) ==> p == q)
            && (forall i, j :: 0 <= i < |ms| && 0 <= j < |ts| && Pairable(ms[i], card, ts[j]) ==>
                  var distance, overlap := Distance(ms[i], ts[j].date), |ms[i].words * ts[j].words|;
                  exists q <- chosen ::
                    && (q.movement == i || q.transaction == j)
                    && (|| q == Pair(i, j, distance, overlap)
                        || q.distance < distance
                        || (q.distance == distance && q.overlap > overlap)
                        || (q.distance == distance && q.overlap == overlap && q.movement < i)
                        || (q.distance == distance && q.overlap == overlap && q.movement == i && q.transaction < j)))
  {
    hide Pairable, Distance, Chosen;
    var chosen, candidates := Elements(Chosen(ms, card, ts)), Candidates(ms, card, ts);
    AssignmentIsTheStableMatching(ms, card, ts, {});
    forall p | p in Chosen(ms, card, ts) ensures IsCandidate(ms, card, ts, p) {
      CandidatesAre(ms, card, ts, p);
      assert p in chosen;
    }
    forall p, q | p in Chosen(ms, card, ts) && q in Chosen(ms, card, ts) && (p.movement == q.movement || p.transaction == q.transaction)
      ensures p == q
    {
      assert p in chosen && q in chosen && Conflict(p, q);
    }
    forall i, j | 0 <= i < |ms| && 0 <= j < |ts| && Pairable(ms[i], card, ts[j])
      ensures exists q <- Chosen(ms, card, ts) ::
                (q.movement == i || q.transaction == j) && (q == MakePair(ms, ts, i, j) || Better(q, MakePair(ms, ts, i, j)))
    {
      var p := MakePair(ms, ts, i, j);
      CandidatesAre(ms, card, ts, p);
      if p !in chosen {
        assert BlockedBy(chosen, p);
      }
    }
  }

  lemma CandidatesAre(ms: seq<Movement>, card: Id, ts: seq<Recorded>, p: Pair)
    ensures p in Candidates(ms, card, ts) <==> IsCandidate(ms, card, ts, p)
  {
    PairsAre(ms, card, ts, |ms|, p);
  }

  // ---------------------------------------------------------------- what is reported

  lemma {:induction false} OutcomeAt(ms: seq<Movement>, pairing: map<nat, nat>, ts: seq<Recorded>, k: nat)
    requires Points(pairing, ts) && k < |ms|
    ensures |Outcomes(ms, pairing, ts)| == |ms|
    ensures Outcomes(ms, pairing, ts)[k] == Outcome(StatusOf(ms[k], k in pairing), if k in pairing then Some(ts[pairing[k]].id) else None)
  {
    var last := |ms| - 1;
    if k < last {
      OutcomeAt(ms[..last], pairing, ts, k);
    } else {
      OutcomesOfAll(ms[..last], pairing, ts);
    }
  }

  lemma {:induction false} OutcomesOfAll(ms: seq<Movement>, pairing: map<nat, nat>, ts: seq<Recorded>)
    requires Points(pairing, ts)
    ensures |Outcomes(ms, pairing, ts)| == |ms|
  {
    if ms != [] {
      OutcomesOfAll(ms[..|ms| - 1], pairing, ts);
    }
  }

  /** Every movement has one outcome, in the order of the statement. It names the transaction of its chosen pair, if it has
      one, and its status says whether it does and whether the movement is an installment. */
  lemma OutcomesMean(st: Statement, card: Id, ts: seq<Recorded>)
    ensures var relevant, r := Relevant(ts, card), ReconcileStatement(st, card, ts);
            && |r.outcomes| == |st.movements|
            && (forall p <- Chosen(st.movements, card, relevant) ::
                  && p.movement < |r.outcomes| && p.transaction < |relevant|
                  && r.outcomes[p.movement].transaction == Some(relevant[p.transaction].id))
            && (forall k :: 0 <= k < |r.outcomes| ==>
                  && (r.outcomes[k].transaction.Some? ==> exists p <- Chosen(st.movements, card, relevant) :: p.movement == k)
                  && r.outcomes[k].status
                     == (if r.outcomes[k].transaction.Some? then if st.movements[k].installment then InstallmentMatched else Matched
                         else if st.movements[k].installment then InstallmentUnmatched else Missing))
  {
    hide Relevant, Chosen, Assignment, UsedIds, Unmatched, SortByDate, Outcomes, Summarize, Pairable;
    var relevant := Relevant(ts, card);
    var chosen := Chosen(st.movements, card, relevant);
    var pairing := Assignment(chosen);
    AssignmentPoints(st.movements, card, relevant);
    ChosenIsOneToOne(st.movements, card, relevant);
    AssignmentReads(chosen);
    forall p | p in chosen ensures p.movement in pairing && pairing[p.movement] == p.transaction {
      var i :| 0 <= i < |chosen| && chosen[i] == p;
    }
    forall k | k in pairing ensures exists p <- chosen :: p.movement == k {
      var i :| 0 <= i < |chosen| && chosen[i].movement == k;
      assert chosen[i] in chosen;
    }
    hide *;
    OutcomesOfAll(st.movements, pairing, relevant);
    forall k | 0 <= k < |st.movements|
      ensures ReconcileStatement(st, card, ts).outcomes[k]
              == Outcome(StatusOf(st.movements[k], k in pairing), if k in pairing then Some(relevant[pairing[k]].id) else None)
    {
      OutcomeAt(st.movements, pairing, relevant, k);
    }
  }

  lemma ChosenIsOneToOne(ms: seq<Movement>, card: Id, ts: seq<Recorded>)
    ensures OneToOneSeq(Chosen(ms, card, ts))
  {
    hide Pairs, Rank, Greedy;
    GreedyIsOneToOne(Rank(Pairs(ms, card, ts, |ms|)));
  }

  /** Only transactions of the card take part: those from it and the transfers to it. */
  lemma {:induction false} RelevantMeans(ts: seq<Recorded>, card: Id, t: Recorded)
    ensures multiset(Relevant(ts, card))[t] == if t.account == card || t.transferTo == Some(card) then multiset(ts)[t] else 0
  {
    if ts != [] {
      RelevantMeans(ts[..|ts| - 1], card, t);
      assert ts == ts[..|ts| - 1] + [ts[|ts| - 1]];
    }
  }

  lemma {:induction false} UsedAre(pairing: map<nat, nat>, ts: seq<Recorded>, n: nat, id: Id)
    requires Points(pairing, ts)
    ensures id in UsedIds(pairing, ts, n) <==> exists k :: 0 <= k < n && k in pairing && ts[pairing[k]].id == id
  {
    if n > 0 {
      UsedAre(pairing, ts, n - 1, id);
    }
  }

  /** Reported as only recorded here are, as often as they were given and in the order of their dates, exactly the
      transactions of the card dated in the period whose id no outcome names. */
  lemma OnlyRecordedMeans(st: Statement, card: Id, ts: seq<Recorded>, t: Recorded)
    ensures var r := ReconcileStatement(st, card, ts);
            && (forall i, j :: 0 <= i < j < |r.onlyRecorded| ==> !Before(r.onlyRecorded[j].date, r.onlyRecorded[i].date))
            && multiset(r.onlyRecorded)[t]
               == if (t.account == card || t.transferTo == Some(card)) && !Before(t.date, st.from) && !Before(st.to, t.date)
                     && (forall o <- r.outcomes :: o.transaction != Some(t.id))
                  then multiset(ts)[t] else 0
  {
    hide Relevant, Chosen, Assignment, UsedIds, Unmatched, SortByDate, Outcomes, Summarize, Pairable;
    var relevant := Relevant(ts, card);
    var pairing := Assignment(Chosen(st.movements, card, relevant));
    OnlyRecordedIsExact(st, card, ts, t);
    RelevantMeans(ts, card, t);
    UsedAre(pairing, relevant, |st.movements|, t.id);
    OutcomesOfAll(st.movements, pairing, relevant);
    forall k | 0 <= k < |st.movements|
      ensures Outcomes(st.movements, pairing, relevant)[k]
              == Outcome(StatusOf(st.movements[k], k in pairing), if k in pairing then Some(relevant[pairing[k]].id) else None)
    {
      OutcomeAt(st.movements, pairing, relevant, k);
    }
    var os := Outcomes(st.movements, pairing, relevant);
    if k :| 0 <= k < |st.movements| && k in pairing && relevant[pairing[k]].id == t.id {
      assert os[k] in os && os[k].transaction == Some(t.id);
    }
  }

  function CountOf(outcomes: seq<Outcome>, status: Status): nat {
    if outcomes == [] then 0
    else CountOf(outcomes[..|outcomes| - 1], status) + (if outcomes[|outcomes| - 1].status == status then 1 else 0)
  }

  /** What the movements that are missing here add up to, charges and credits apart. */
  function MissingTotal(ms: seq<Movement>, outcomes: seq<Outcome>, charge: bool): int
    requires |ms| == |outcomes|
  {
    if ms == [] then 0
    else
      var k := |ms| - 1;
      MissingTotal(ms[..k], outcomes[..k], charge) + (if outcomes[k].status == Missing && ms[k].charge == charge then ms[k].amount else 0)
  }

  lemma {:induction false} SummaryCounts(ms: seq<Movement>, pairing: map<nat, nat>, ts: seq<Recorded>)
    requires Points(pairing, ts)
    ensures var outcomes, s := Outcomes(ms, pairing, ts), Summarize(ms, pairing);
            && |outcomes| == |ms|
            && s.matched == CountOf(outcomes, Matched) && s.missing == CountOf(outcomes, Missing)
            && s.installmentsMatched == CountOf(outcomes, InstallmentMatched)
            && s.installmentsUnmatched == CountOf(outcomes, InstallmentUnmatched)
            && s.missingCharges == MissingTotal(ms, outcomes, true) && s.missingCredits == MissingTotal(ms, outcomes, false)
  {
    if ms != [] {
      var k := |ms| - 1;
      SummaryCounts(ms[..k], pairing, ts);
      assert Outcomes(ms, pairing, ts)[..k] == Outcomes(ms[..k], pairing, ts);
    }
  }

  /** The summary counts the outcomes by status and adds up the missing charges and the missing credits. */
  lemma SummaryMeans(st: Statement, card: Id, ts: seq<Recorded>)
    ensures var r := ReconcileStatement(st, card, ts);
            && |r.outcomes| == |st.movements|
            && r.summary.matched == CountOf(r.outcomes, Matched) && r.summary.missing == CountOf(r.outcomes, Missing)
            && r.summary.installmentsMatched == CountOf(r.outcomes, InstallmentMatched)
            && r.summary.installmentsUnmatched == CountOf(r.outcomes, InstallmentUnmatched)
            && r.summary.missingCharges == MissingTotal(st.movements, r.outcomes, true)
            && r.summary.missingCredits == MissingTotal(st.movements, r.outcomes, false)
  {
    hide Relevant, Chosen, Assignment, UsedIds, Unmatched, SortByDate, Outcomes, Summarize, Pairable, CountOf, MissingTotal;
    var relevant := Relevant(ts, card);
    AssignmentPoints(st.movements, card, relevant);
    SummaryCounts(st.movements, Assignment(Chosen(st.movements, card, relevant)), relevant);
  }
}
