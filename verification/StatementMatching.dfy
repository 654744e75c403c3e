/** Matching the movements of a card statement with recorded transactions: every eligible pair is ranked by a strict
    total order and pairing greedily. Descriptions enter as their sets of significant words. */
module StatementMatching {
  import opened Calendar
  import opened Common
  import opened Ledger

  const REGULAR_WINDOW := 3
  const INSTALLMENT_WINDOW := 20
  const INSTALLMENT_TOLERANCE := 2

  datatype Movement = Movement(operation: Date, posting: Date, words: set<string>, amount: int, charge: bool, installment: bool)

  datatype Recorded = Recorded(id: Id, account: Id, kind: TransactionKind, amount: int, date: Date, transferTo: Option<Id>,
                               purchase: Option<Id>, words: set<string>)

  /** One eligible combination of a movement and a transaction, by position. */
  datatype Pair = Pair(movement: nat, transaction: nat, distance: int, overlap: nat)

  // ---------------------------------------------------------------- candidates

  predicate Touches(t: Recorded, account: Id) {
    t.account == account || t.transferTo == Some(account)
  }

  predicate Eligible(m: Movement, account: Id, t: Recorded) {
    if m.installment then
      && t.purchase.Some? && t.account == account && t.kind == Expense
      && -INSTALLMENT_TOLERANCE <= t.amount - m.amount <= INSTALLMENT_TOLERANCE
    else
      && t.purchase.None? && t.amount == m.amount
      && if m.charge then t.account == account && (t.kind == Expense || t.kind == Transfer)
         else if t.kind == Transfer then t.transferTo == Some(account)
         else t.account == account && t.kind == Income
  }

  function First(m: Movement): Date {
    if Before(m.posting, m.operation) then m.posting else m.operation
  }

  function Last(m: Movement): Date {
    if Before(m.posting, m.operation) then m.operation else m.posting
  }

  function WindowDays(m: Movement): int {
    if m.installment then INSTALLMENT_WINDOW else REGULAR_WINDOW
  }

  predicate InWindow(m: Movement, date: Date) {
    !Before(date, AddDays(First(m), -WindowDays(m))) && !Before(AddDays(Last(m), WindowDays(m)), date)
  }

  /** Days to the nearest of the movement's two dates; zero between them. */
  function Distance(m: Movement, date: Date): int {
    if Before(date, First(m)) then Ordinal(First(m)) - Ordinal(date)
    else if Before(Last(m), date) then Ordinal(date) - Ordinal(Last(m))
    else 0
  }

  predicate Pairable(m: Movement, account: Id, t: Recorded) {
    Eligible(m, account, t) && InWindow(m, t.date)
  }

  /** A candidate is no farther away than its window. */
  lemma DistanceInWindow(m: Movement, account: Id, t: Recorded)
    requires Pairable(m, account, t)
    ensures 0 <= Distance(m, t.date) <= WindowDays(m)
  {
    hide Ordinal, Before;
    OrdinalOrder(t.date, AddDays(First(m), -WindowDays(m)));
    OrdinalOrder(AddDays(Last(m), WindowDays(m)), t.date);
    OrdinalOrder(t.date, First(m));
    OrdinalOrder(Last(m), t.date);
  }

  function MakePair(ms: seq<Movement>, ts: seq<Recorded>, i: nat, j: nat): Pair
    requires i < |ms| && j < |ts|
  {
    Pair(i, j, Distance(ms[i], ts[j].date), |ms[i].words * ts[j].words|)
  }

  function PairsOf(ms: seq<Movement>, account: Id, ts: seq<Recorded>, i: nat, n: nat): seq<Pair>
    requires i < |ms| && n <= |ts|
  {
    if n == 0 then []
    else PairsOf(ms, account, ts, i, n - 1) + (if Pairable(ms[i], account, ts[n - 1]) then [MakePair(ms, ts, i, n - 1)] else [])
  }

  function Pairs(ms: seq<Movement>, account: Id, ts: seq<Recorded>, n: nat): seq<Pair>
    requires n <= |ms|
  {
    if n == 0 then [] else Pairs(ms, account, ts, n - 1) + PairsOf(ms, account, ts, n - 1, |ts|)
  }

  ghost predicate IsCandidate(ms: seq<Movement>, account: Id, ts: seq<Recorded>, p: Pair) {
    && p.movement < |ms| && p.transaction < |ts| && Pairable(ms[p.movement], account, ts[p.transaction])
    && p == MakePair(ms, ts, p.movement, p.transaction)
  }

  lemma {:induction false} PairsOfAre(ms: seq<Movement>, account: Id, ts: seq<Recorded>, i: nat, n: nat, p: Pair)
    requires i < |ms| && n <= |ts|
    ensures p in PairsOf(ms, account, ts, i, n) <==> IsCandidate(ms, account, ts, p) && p.movement == i && p.transaction < n
  {
    hide Pairable, MakePair;
    if n > 0 {
      PairsOfAre(ms, account, ts, i, n - 1, p);
      PairNames(ms, ts, i, n - 1);
    }
  }

  lemma PairNames(ms: seq<Movement>, ts: seq<Recorded>, i: nat, j: nat)
    requires i < |ms| && j < |ts|
    ensures MakePair(ms, ts, i, j).movement == i && MakePair(ms, ts, i, j).transaction == j
  {
  }

  lemma {:induction false} PairsAre(ms: seq<Movement>, account: Id, ts: seq<Recorded>, n: nat, p: Pair)
    requires n <= |ms|
    ensures p in Pairs(ms, account, ts, n) <==> IsCandidate(ms, account, ts, p) && p.movement < n
  {
    hide Pairable, MakePair, PairsOf;
    if n > 0 {
      PairsAre(ms, account, ts, n - 1, p);
      PairsOfAre(ms, account, ts, n - 1, |ts|, p);
    }
  }

  // ---------------------------------------------------------------- ranking

  /** Closer first, then more words in common, then statement order, then transaction order. */
  predicate Better(a: Pair, b: Pair) {
    if a.distance != b.distance then a.distance < b.distance
    else if a.overlap != b.overlap then a.overlap > b.overlap
    else if a.movement != b.movement then a.movement < b.movement
    else a.transaction < b.transaction
  }

  function InsertPair(ranked: seq<Pair>, p: Pair): seq<Pair> {
    if ranked == [] then [p]
    else if Better(p, ranked[|ranked| - 1]) then InsertPair(ranked[..|ranked| - 1], p) + [ranked[|ranked| - 1]]
    else ranked + [p]
  }

  function Rank(pairs: seq<Pair>): seq<Pair> {
    if pairs == [] then [] else InsertPair(Rank(pairs[..|pairs| - 1]), pairs[|pairs| - 1])
  }

  predicate Ranked(pairs: seq<Pair>) {
    forall i, j :: 0 <= i < j < |pairs| ==> !Better(pairs[j], pairs[i])
  }

  lemma BetterOrders(a: Pair, b: Pair, c: Pair)
    ensures !Better(a, a) && !(Better(a, b) && Better(b, a))
    ensures Better(a, b) && !Better(c, b) ==> Better(a, c)
    ensures !Better(b, a) && !Better(c, b) ==> !Better(c, a)
    ensures !Better(a, b) && !Better(b, a) ==> a.movement == b.movement && a.transaction == b.transaction
  {
  }

  lemma {:induction false} InsertRanks(ranked: seq<Pair>, p: Pair)
    requires Ranked(ranked)
    ensures Ranked(InsertPair(ranked, p)) && multiset(InsertPair(ranked, p)) == multiset(ranked) + multiset{p}
  {
    hide Better;
    if ranked != [] {
      var init, last := ranked[..|ranked| - 1], ranked[|ranked| - 1];
      assert ranked == init + [last];
      if Better(p, last) {
        InsertRanks(init, p);
        var inserted := InsertPair(init, p);
        forall i | 0 <= i < |inserted| ensures !Better(last, inserted[i]) {
          assert inserted[i] in multiset(inserted);
          assert inserted[i] in multiset(init) || inserted[i] == p;
          BetterOrders(p, last, last);
        }
      } else {
        forall i | 0 <= i < |ranked| ensures !Better(p, ranked[i]) {
          BetterOrders(ranked[i], last, p);
          BetterOrders(last, last, last);
        }
      }
    }
  }

  lemma {:induction false} RankRanks(pairs: seq<Pair>)
    ensures Ranked(Rank(pairs)) && multiset(Rank(pairs)) == multiset(pairs)
  {
    hide Ranked, InsertPair;
    if pairs == [] {
      NothingRanked();
    } else {
      var init, last := pairs[..|pairs| - 1], pairs[|pairs| - 1];
      RankRanks(init);
      InsertRanks(Rank(init), last);
      assert pairs == init + [last];
    }
  }

  lemma NothingRanked()
    ensures Ranked([])
  {
  }

  // ---------------------------------------------------------------- greedy assignment

  predicate Conflict(a: Pair, b: Pair) {
    a.movement == b.movement || a.transaction == b.transaction
  }

  predicate Taken(chosen: seq<Pair>, p: Pair) {
    exists i :: 0 <= i < |chosen| && Conflict(chosen[i], p)
  }

  function Greedy(ranked: seq<Pair>): seq<Pair> {
    if ranked == [] then []
    else
      var chosen, last := Greedy(ranked[..|ranked| - 1]), ranked[|ranked| - 1];
      if Taken(chosen, last) then chosen else chosen + [last]
  }

  ghost predicate OneToOne(m: set<Pair>) {
    forall a, b :: a in m && b in m && Conflict(a, b) ==> a == b
  }

  /** A better chosen pair that shares a side with p. */
  ghost predicate BlockedBy(m: set<Pair>, p: Pair) {
    exists q :: q in m && Better(q, p) && Conflict(q, p)
  }

  /** A matching without a blocking pair: whatever is left out lost a side to a better pair. */
  ghost predicate Stable(m: set<Pair>, candidates: set<Pair>) {
    m <= candidates && OneToOne(m) && forall p :: p in candidates && p !in m ==> BlockedBy(m, p)
  }

  ghost function Elements(pairs: seq<Pair>): set<Pair> {
    set p | p in pairs
  }

  /** Pairs are told apart by their positions. */
  ghost predicate Distinct(candidates: set<Pair>) {
    forall a, b :: a in candidates && b in candidates && a.movement == b.movement && a.transaction == b.transaction ==> a == b
  }

  lemma {:induction false} GreedyIsStable(ranked: seq<Pair>)
    requires Ranked(ranked) && Distinct(Elements(ranked))
    ensures Stable(Elements(Greedy(ranked)), Elements(ranked))
  {
    hide Better, Conflict;
    if ranked != [] {
      var init, last := ranked[..|ranked| - 1], ranked[|ranked| - 1];
      assert Elements(init) <= Elements(ranked);
      GreedyIsStable(init);
      var chosen := Greedy(init);
      var before, after := Elements(chosen), Elements(Greedy(ranked));
      assert before <= after;
      if Taken(chosen, last) {
        var i :| 0 <= i < |chosen| && Conflict(chosen[i], last);
        assert chosen[i] in before;
        EarlierIsBetter(ranked, chosen[i]);
      } else {
        assert after == before + {last};
        forall a | a in before ensures !Conflict(a, last) && !Conflict(last, a) {
          var i :| 0 <= i < |chosen| && chosen[i] == a;
          ConflictIsMutual(a, last);
        }
      }
      forall p | p in Elements(ranked) && p !in after ensures BlockedBy(after, p) {
        if p in init {
          assert BlockedBy(before, p);
        }
      }
    }
  }

  lemma ConflictIsMutual(a: Pair, b: Pair)
    ensures Conflict(a, b) == Conflict(b, a)
  {
  }

  lemma EarlierIsBetter(ranked: seq<Pair>, q: Pair)
    requires ranked != [] && Ranked(ranked) && Distinct(Elements(ranked)) && q in ranked
    ensures q == ranked[|ranked| - 1] || Better(q, ranked[|ranked| - 1])
  {
    hide Better;
    var last := ranked[|ranked| - 1];
    var i :| 0 <= i < |ranked| && ranked[i] == q;
    BetterOrders(q, last, last);
    assert q in Elements(ranked) && last in Elements(ranked);
  }

  /** There is one stable matching. */
  lemma {:induction false} StableIsUnique(ranked: seq<Pair>, m: set<Pair>, n: set<Pair>, k: nat)
    requires Ranked(ranked) && Stable(m, Elements(ranked)) && Stable(n, Elements(ranked)) && k <= |ranked|
    ensures forall i :: 0 <= i < k ==> (ranked[i] in m <==> ranked[i] in n)
  {
    hide Stable, Ranked, Elements;
    if k > 0 {
      StableIsUnique(ranked, m, n, k - 1);
      AgreeOnNext(ranked, m, n, k - 1);
      AgreeOnNext(ranked, n, m, k - 1);
    }
  }

  lemma AgreeOnNext(ranked: seq<Pair>, m: set<Pair>, n: set<Pair>, k: nat)
    requires Ranked(ranked) && Stable(m, Elements(ranked)) && Stable(n, Elements(ranked)) && k < |ranked|
    requires forall i :: 0 <= i < k ==> (ranked[i] in m <==> ranked[i] in n)
    ensures ranked[k] in m ==> ranked[k] in n
  {
    hide Better, Conflict, Elements, Ranked, OneToOne;
    var p := ranked[k];
    if p in m && p !in n {
      Listed(ranked, k);
      assert BlockedBy(n, p);
      var q :| q in n && Better(q, p) && Conflict(q, p);
      var j := PositionOf(ranked, q);
      BetterComesFirst(ranked, j, k);
      OnlyOne(m, q, p);
    }
  }

  lemma Listed(pairs: seq<Pair>, k: nat)
    requires k < |pairs|
    ensures pairs[k] in Elements(pairs)
  {
  }

  lemma PositionOf(pairs: seq<Pair>, q: Pair) returns (j: nat)
    requires q in Elements(pairs)
    ensures j < |pairs| && pairs[j] == q
  {
    j :| 0 <= j < |pairs| && pairs[j] == q;
  }

  lemma BetterComesFirst(ranked: seq<Pair>, j: nat, k: nat)
    requires Ranked(ranked) && j < |ranked| && k < |ranked| && Better(ranked[j], ranked[k])
    ensures j < k && ranked[j] != ranked[k]
  {
    BetterOrders(ranked[j], ranked[k], ranked[k]);
  }

  lemma OnlyOne(m: set<Pair>, a: Pair, b: Pair)
    requires OneToOne(m) && a in m && b in m && Conflict(a, b)
    ensures a == b
  {
  }

  // ---------------------------------------------------------------- size

  lemma {:induction false} ProjectionIsSmaller(a: set<Pair>, b: set<Pair>, side: Pair -> nat)
    requires forall x, y :: x in a && y in a && side(x) == side(y) ==> x == y
    requires forall x :: x in a ==> exists y :: y in b && side(y) == side(x)
    ensures |a| <= |b|
    decreases |b|
  {
    if a != {} {
      var x :| x in a;
      var y :| y in b && side(y) == side(x);
      forall u | u in a - {x} ensures exists v :: v in b - {y} && side(v) == side(u) {
        var v :| v in b && side(v) == side(u);
      }
      ProjectionIsSmaller(a - {x}, b - {y}, side);
    }
  }

  function MovementOf(p: Pair): nat { p.movement }

  function TransactionOf(p: Pair): nat { p.transaction }

  /** Every pair of the other matching meets one of this matching on a side. */
  ghost predicate Meets(m: set<Pair>, p: Pair) {
    exists q :: q in m && Conflict(q, p)
  }

  ghost predicate MeetsOn(m: set<Pair>, p: Pair, side: Pair -> nat) {
    exists q :: q in m && side(q) == side(p)
  }

  lemma MeetsOnASide(m: set<Pair>, p: Pair)
    requires Meets(m, p)
    ensures MeetsOn(m, p, MovementOf) || MeetsOn(m, p, TransactionOf)
  {
    var q :| q in m && Conflict(q, p);
    assert MovementOf(q) == MovementOf(p) || TransactionOf(q) == TransactionOf(p);
  }

  lemma SideCount(m: set<Pair>, part: set<Pair>, side: Pair -> nat)
    requires OneToOne(part) && (side == MovementOf || side == TransactionOf) && forall p :: p in part ==> MeetsOn(m, p, side)
    ensures |part| <= |m|
  {
    hide Conflict;
    forall x, y | x in part && y in part && side(x) == side(y) ensures x == y {
      SameSideConflicts(x, y);
    }
    ProjectionIsSmaller(part, m, side);
  }

  lemma SameSideConflicts(x: Pair, y: Pair)
    ensures MovementOf(x) == MovementOf(y) || TransactionOf(x) == TransactionOf(y) ==> Conflict(x, y)
  {
  }

  lemma AtMostTwice(m: set<Pair>, other: set<Pair>)
    requires OneToOne(other) && forall p :: p in other ==> Meets(m, p)
    ensures |other| <= 2 * |m|
  {
    hide Conflict, MeetsOn, Meets;
    var byMovement := set p | p in other && MeetsOn(m, p, MovementOf);
    var rest := other - byMovement;
    forall p | p in rest ensures MeetsOn(m, p, TransactionOf) {
      MeetsOnASide(m, p);
    }
    SideCount(m, byMovement, MovementOf);
    SideCount(m, rest, TransactionOf);
    assert other == byMovement + rest;
  }

  /** A stable matching leaves no candidate with both sides free, and has at least half as many pairs as any matching of
      candidates. */
  lemma StableIsLarge(m: set<Pair>, candidates: set<Pair>, other: set<Pair>)
    requires Stable(m, candidates) && other <= candidates && OneToOne(other)
    ensures |other| <= 2 * |m|
    ensures forall p :: p in candidates ==> Meets(m, p)
  {
    hide Better;
    forall p | p in candidates ensures Meets(m, p) {
      if p !in m {
        assert BlockedBy(m, p);
      }
    }
    AtMostTwice(m, other);
  }

  // ---------------------------------------------------------------- the assignment

  /** The candidates of a statement, as a set. */
  ghost function Candidates(ms: seq<Movement>, account: Id, ts: seq<Recorded>): set<Pair> {
    Elements(Pairs(ms, account, ts, |ms|))
  }

  function Chosen(ms: seq<Movement>, account: Id, ts: seq<Recorded>): seq<Pair> {
    Greedy(Rank(Pairs(ms, account, ts, |ms|)))
  }

  function Assignment(chosen: seq<Pair>): map<nat, nat> {
    if chosen == [] then map[]
    else Assignment(chosen[..|chosen| - 1])[chosen[|chosen| - 1].movement := chosen[|chosen| - 1].transaction]
  }

  lemma CandidatesAreDistinct(ms: seq<Movement>, account: Id, ts: seq<Recorded>)
    ensures Distinct(Candidates(ms, account, ts))
    ensures forall p :: p in Candidates(ms, account, ts) <==> IsCandidate(ms, account, ts, p)
  {
    hide Pairs, Pairable;
    forall p: Pair ensures p in Candidates(ms, account, ts) <==> IsCandidate(ms, account, ts, p) {
      PairsAre(ms, account, ts, |ms|, p);
    }
  }

  /** The assignment is the one matching of the candidates without a blocking pair. */
  lemma AssignmentIsTheStableMatching(ms: seq<Movement>, account: Id, ts: seq<Recorded>, other: set<Pair>)
    ensures var m, candidates := Elements(Chosen(ms, account, ts)), Candidates(ms, account, ts);
            && Stable(m, candidates)
            && (Stable(other, candidates) ==> other == m)
            && (other <= candidates && OneToOne(other) ==> |other| <= 2 * |m|)
  {
    hide Pairs, Better, Greedy, Rank, Ranked, Distinct, Pairable;
    var pairs := Pairs(ms, account, ts, |ms|);
    var ranked := Rank(pairs);
    var candidates := Candidates(ms, account, ts);
    RankRanks(pairs);
    SameElements(ranked, pairs);
    CandidatesAreDistinct(ms, account, ts);
    GreedyIsStable(ranked);
    var m := Elements(Greedy(ranked));
    if Stable(other, candidates) {
      StableIsUnique(ranked, m, other, |ranked|);
      SameOnAll(ranked, m, other);
    }
    if other <= candidates && OneToOne(other) {
      StableIsLarge(m, candidates, other);
    }
  }

  lemma SameElements(a: seq<Pair>, b: seq<Pair>)
    requires multiset(a) == multiset(b)
    ensures Elements(a) == Elements(b)
  {
    forall p: Pair ensures p in a <==> p in b {
      assert p in multiset(a) <==> p in multiset(b);
    }
  }

  lemma SameOnAll(ranked: seq<Pair>, m: set<Pair>, n: set<Pair>)
    requires m <= Elements(ranked) && n <= Elements(ranked) && forall i :: 0 <= i < |ranked| ==> (ranked[i] in m <==> ranked[i] in n)
    ensures m == n
  {
    forall p | p in Elements(ranked) ensures p in m <==> p in n {
      var i :| 0 <= i < |ranked| && ranked[i] == p;
    }
  }

  ghost predicate OneToOneSeq(chosen: seq<Pair>) {
    forall i, j :: 0 <= i < j < |chosen| ==> !Conflict(chosen[i], chosen[j])
  }

  /** The assignment map says what the chosen pairs say. */
  lemma {:induction false} AssignmentReads(chosen: seq<Pair>)
    requires OneToOneSeq(chosen)
    ensures forall i :: 0 <= i < |chosen| ==>
              chosen[i].movement in Assignment(chosen) && Assignment(chosen)[chosen[i].movement] == chosen[i].transaction
    ensures forall k <- Assignment(chosen) :: exists i :: 0 <= i < |chosen| && chosen[i].movement == k
  {
    if chosen != [] {
      var init, last := chosen[..|chosen| - 1], chosen[|chosen| - 1];
      AssignmentReads(init);
      forall k | k in Assignment(chosen) ensures exists i :: 0 <= i < |chosen| && chosen[i].movement == k {
        if k in Assignment(init) {
          var i :| 0 <= i < |init| && init[i].movement == k;
          assert chosen[i].movement == k;
        } else {
          assert chosen[|chosen| - 1].movement == k;
        }
      }
    }
  }

  lemma {:induction false} GreedyIsOneToOne(ranked: seq<Pair>)
    ensures OneToOneSeq(Greedy(ranked))
    ensures forall p <- Greedy(ranked) :: p in ranked
  {
    hide Conflict;
    if ranked != [] {
      var init, last := ranked[..|ranked| - 1], ranked[|ranked| - 1];
      GreedyIsOneToOne(init);
    }
  }

  /** Every eligible pair, movement by movement. */
  method CollectPairs(ms: seq<Movement>, account: Id, ts: seq<Recorded>) returns (pairs: seq<Pair>)
    ensures pairs == Pairs(ms, account, ts, |ms|)
  {
    hide Pairable, MakePair;
    pairs := [];
    for mi := 0 to |ms|
      invariant pairs == Pairs(ms, account, ts, mi)
    {
      ghost var before := pairs;
      assert before + [] == before;
      for ti := 0 to |ts|
        invariant pairs == before + PairsOf(ms, account, ts, mi, ti)
      {
        if Pairable(ms[mi], account, ts[ti]) {
          pairs := pairs + [MakePair(ms, ts, mi, ti)];
        }
      }
    }
  }

  function TransactionsOf(chosen: seq<Pair>): set<nat> {
    if chosen == [] then {} else TransactionsOf(chosen[..|chosen| - 1]) + {chosen[|chosen| - 1].transaction}
  }

  lemma {:induction false} TakenBySides(chosen: seq<Pair>, p: Pair)
    ensures Taken(chosen, p) <==> p.movement in Assignment(chosen) || p.transaction in TransactionsOf(chosen)
  {
    if chosen != [] {
      var init, last := chosen[..|chosen| - 1], chosen[|chosen| - 1];
      TakenBySides(init, p);
      if Taken(init, p) {
        var i :| 0 <= i < |init| && Conflict(init[i], p);
        assert Conflict(chosen[i], p);
      }
      if Conflict(last, p) {
        assert Conflict(chosen[|chosen| - 1], p);
      }
    }
  }

  lemma GreedyStep(ranked: seq<Pair>, i: nat)
    requires i < |ranked|
    ensures var chosen, pair := Greedy(ranked[..i]), ranked[i];
            Greedy(ranked[..i + 1]) == if Taken(chosen, pair) then chosen else chosen + [pair]
  {
    assert ranked[..i + 1][..i] == ranked[..i];
  }

  lemma OneMoreChosen(chosen: seq<Pair>, pair: Pair)
    ensures Assignment(chosen + [pair]) == Assignment(chosen)[pair.movement := pair.transaction]
    ensures TransactionsOf(chosen + [pair]) == TransactionsOf(chosen) + {pair.transaction}
  {
    assert (chosen + [pair])[..|chosen|] == chosen;
  }

  /** Collect the pairs, rank them, and take each whose two sides are still free. */
  method AssignMatches(ms: seq<Movement>, account: Id, ts: seq<Recorded>) returns (assignment: map<nat, nat>)
    ensures assignment == Assignment(Chosen(ms, account, ts))
  {
    hide Pairs, Rank, Taken, Greedy, Assignment, TransactionsOf;
    var pairs := CollectPairs(ms, account, ts);
    var ranked := Rank(pairs);
    assignment := map[];
    var usedTx: set<nat> := {};
    NothingChosen();
    for i := 0 to |ranked|
      invariant assignment == Assignment(Greedy(ranked[..i])) && usedTx == TransactionsOf(Greedy(ranked[..i]))
    {
      var pair := ranked[i];
      ghost var chosen := Greedy(ranked[..i]);
      GreedyStep(ranked, i);
      TakenBySides(chosen, pair);
      if pair.movement in assignment || pair.transaction in usedTx {
        continue;
      }
      OneMoreChosen(chosen, pair);
      assignment := assignment[pair.movement := pair.transaction];
      usedTx := usedTx + {pair.transaction};
    }
    assert ranked[..|ranked|] == ranked;
  }

  lemma NothingChosen()
    ensures Greedy([]) == [] && Assignment([]) == map[] && TransactionsOf([]) == {}
  {
  }

  // ---------------------------------------------------------------- the reconciliation

  datatype Status = Matched | Missing | InstallmentMatched | InstallmentUnmatched

  datatype Outcome = Outcome(status: Status, transaction: Option<Id>)

  datatype Summary = Summary(matched: nat, missing: nat, installmentsMatched: nat, installmentsUnmatched: nat,
                             missingCharges: int, missingCredits: int)

  datatype Statement = Statement(movements: seq<Movement>, from: Date, to: Date)

  datatype Comparison = Comparison(outcomes: seq<Outcome>, onlyRecorded: seq<Recorded>, summary: Summary)

  function StatusOf(m: Movement, matched: bool): Status {
    if m.installment then if matched then InstallmentMatched else InstallmentUnmatched
    else if matched then Matched else Missing
  }

  function Counted(s: Summary, m: Movement, status: Status): Summary {
    match status
    case Matched => s.(matched := s.matched + 1)
    case InstallmentMatched => s.(installmentsMatched := s.installmentsMatched + 1)
    case InstallmentUnmatched => s.(installmentsUnmatched := s.installmentsUnmatched + 1)
    case Missing =>
      if m.charge then s.(missing := s.missing + 1, missingCharges := s.missingCharges + m.amount)
      else s.(missing := s.missing + 1, missingCredits := s.missingCredits + m.amount)
  }

  const NOTHING_COUNTED := Summary(0, 0, 0, 0, 0, 0)

  function Summarize(ms: seq<Movement>, pairing: map<nat, nat>): Summary {
    if ms == [] then NOTHING_COUNTED
    else
      var k := |ms| - 1;
      Counted(Summarize(ms[..k], pairing), ms[k], StatusOf(ms[k], k in pairing))
  }

  predicate Points(pairing: map<nat, nat>, ts: seq<Recorded>) {
    forall k <- pairing :: pairing[k] < |ts|
  }

  function Outcomes(ms: seq<Movement>, pairing: map<nat, nat>, ts: seq<Recorded>): seq<Outcome>
    requires Points(pairing, ts)
  {
    if ms == [] then []
    else
      var k := |ms| - 1;
      Outcomes(ms[..k], pairing, ts)
      + [Outcome(StatusOf(ms[k], k in pairing), if k in pairing then Some(ts[pairing[k]].id) else None)]
  }

  function Relevant(ts: seq<Recorded>, account: Id): seq<Recorded> {
    if ts == [] then []
    else Relevant(ts[..|ts| - 1], account) + (if Touches(ts[|ts| - 1], account) then [ts[|ts| - 1]] else [])
  }

  /** Ids of the transactions pairing to the first n movements. */
  function UsedIds(pairing: map<nat, nat>, ts: seq<Recorded>, n: nat): set<Id>
    requires Points(pairing, ts)
  {
    if n == 0 then {} else UsedIds(pairing, ts, n - 1) + (if n - 1 in pairing then {ts[pairing[n - 1]].id} else {})
  }

  predicate OnlyRecorded(t: Recorded, used: set<Id>, st: Statement) {
    t.id !in used && !Before(t.date, st.from) && !Before(st.to, t.date)
  }

  function Unmatched(ts: seq<Recorded>, used: set<Id>, st: Statement): seq<Recorded> {
    if ts == [] then []
    else Unmatched(ts[..|ts| - 1], used, st) + (if OnlyRecorded(ts[|ts| - 1], used, st) then [ts[|ts| - 1]] else [])
  }

  /** A stable sort by date. */
  function InsertByDate(sorted: seq<Recorded>, t: Recorded): seq<Recorded> {
    if sorted == [] then [t]
    else if Before(t.date, sorted[|sorted| - 1].date) then InsertByDate(sorted[..|sorted| - 1], t) + [sorted[|sorted| - 1]]
    else sorted + [t]
  }

  function SortByDate(ts: seq<Recorded>): seq<Recorded> {
    if ts == [] then [] else InsertByDate(SortByDate(ts[..|ts| - 1]), ts[|ts| - 1])
  }

  function ReconcileStatement(st: Statement, account: Id, ts: seq<Recorded>): (r: Comparison)
  {
    var relevant := Relevant(ts, account);
    var pairing := Assignment(Chosen(st.movements, account, relevant));
    AssignmentPoints(st.movements, account, relevant);
    Comparison(Outcomes(st.movements, pairing, relevant),
                   SortByDate(Unmatched(relevant, UsedIds(pairing, relevant, |st.movements|), st)),
                   Summarize(st.movements, pairing))
  }

  lemma AssignmentPoints(ms: seq<Movement>, account: Id, ts: seq<Recorded>)
    ensures Points(Assignment(Chosen(ms, account, ts)), ts)
    ensures forall k <- Assignment(Chosen(ms, account, ts)) ::
              k < |ms| && Pairable(ms[k], account, ts[Assignment(Chosen(ms, account, ts))[k]])
  {
    hide Pairs, Better, Greedy, Rank, Pairable, Assignment, Conflict;
    var pairs := Pairs(ms, account, ts, |ms|);
    var chosen := Chosen(ms, account, ts);
    GreedyIsOneToOne(Rank(pairs));
    AssignmentReads(chosen);
    RankRanks(pairs);
    SameElements(Rank(pairs), pairs);
    CandidatesAreDistinct(ms, account, ts);
    forall k | k in Assignment(chosen)
      ensures Assignment(chosen)[k] < |ts| && k < |ms| && Pairable(ms[k], account, ts[Assignment(chosen)[k]])
    {
      var i :| 0 <= i < |chosen| && chosen[i].movement == k;
      assert chosen[i] in Rank(pairs);
      assert chosen[i] in Elements(Rank(pairs));
      assert IsCandidate(ms, account, ts, chosen[i]);
    }
  }

  /** The four counts account for every movement. */
  lemma {:induction false} CountsAddUp(ms: seq<Movement>, pairing: map<nat, nat>)
    ensures var s := Summarize(ms, pairing); s.matched + s.missing + s.installmentsMatched + s.installmentsUnmatched == |ms|
  {
    if ms != [] {
      CountsAddUp(ms[..|ms| - 1], pairing);
    }
  }

  /** Regular movements of one direction: charges or credits that are no installments. */
  function RegularTotal(ms: seq<Movement>, charge: bool): int {
    if ms == [] then 0
    else
      var last := ms[|ms| - 1];
      RegularTotal(ms[..|ms| - 1], charge) + (if last.charge == charge && !last.installment then last.amount else 0)
  }

  /** What the transactions matched to regular movements of one direction amount to. */
  function MatchedTotal(ms: seq<Movement>, charge: bool, pairing: map<nat, nat>, ts: seq<Recorded>): int
    requires Points(pairing, ts)
  {
    if ms == [] then 0
    else
      var k := |ms| - 1;
      MatchedTotal(ms[..k], charge, pairing, ts)
      + (if ms[k].charge == charge && !ms[k].installment && k in pairing then ts[pairing[k]].amount else 0)
  }

  /** Money is conserved: regular charges are what was matched plus what is missing, and so are regular credits. */
  lemma {:induction false} TotalsAddUp(ms: seq<Movement>, account: Id, pairing: map<nat, nat>, ts: seq<Recorded>)
    requires Points(pairing, ts) && forall k <- pairing | k < |ms| :: Pairable(ms[k], account, ts[pairing[k]])
    ensures RegularTotal(ms, true) == MatchedTotal(ms, true, pairing, ts) + Summarize(ms, pairing).missingCharges
    ensures RegularTotal(ms, false) == MatchedTotal(ms, false, pairing, ts) + Summarize(ms, pairing).missingCredits
  {
    hide InWindow;
    if ms != [] {
      TotalsAddUp(ms[..|ms| - 1], account, pairing, ts);
    }
  }

  predicate ByDate(ts: seq<Recorded>) {
    forall i, j :: 0 <= i < j < |ts| ==> !Before(ts[j].date, ts[i].date)
  }

  lemma BeforeChains(a: Date, b: Date, c: Date)
    ensures Before(a, b) && !Before(c, b) ==> Before(a, c) && !Before(c, a)
    ensures !Before(b, a) && !Before(c, b) ==> !Before(c, a)
    ensures Before(a, b) ==> !Before(b, a)
  {
  }

  lemma {:induction false} InsertsOne(sorted: seq<Recorded>, t: Recorded)
    ensures multiset(InsertByDate(sorted, t)) == multiset(sorted) + multiset{t}
  {
    hide Before;
    if sorted != [] {
      var init, last := sorted[..|sorted| - 1], sorted[|sorted| - 1];
      assert sorted == init + [last];
      InsertsOne(init, t);
    }
  }

  predicate NoLaterThan(ts: seq<Recorded>, date: Date) {
    forall i :: 0 <= i < |ts| ==> !Before(date, ts[i].date)
  }

  lemma {:induction false} InsertStaysWithin(sorted: seq<Recorded>, t: Recorded, date: Date)
    requires NoLaterThan(sorted, date) && !Before(date, t.date)
    ensures NoLaterThan(InsertByDate(sorted, t), date)
  {
    hide Before;
    if sorted != [] {
      InsertStaysWithin(sorted[..|sorted| - 1], t, date);
    }
  }

  lemma {:induction false} InsertSorts(sorted: seq<Recorded>, t: Recorded)
    requires ByDate(sorted)
    ensures ByDate(InsertByDate(sorted, t))
  {
    hide Before;
    if sorted != [] {
      var init, last := sorted[..|sorted| - 1], sorted[|sorted| - 1];
      BeforeChains(t.date, last.date, last.date);
      if Before(t.date, last.date) {
        InsertSorts(init, t);
        InsertStaysWithin(init, t, last.date);
      } else {
        forall i | 0 <= i < |init| ensures !Before(t.date, init[i].date) {
          BeforeChains(init[i].date, last.date, t.date);
        }
      }
    }
  }

  lemma {:induction false} SortSorts(ts: seq<Recorded>)
    ensures ByDate(SortByDate(ts)) && multiset(SortByDate(ts)) == multiset(ts)
  {
    hide ByDate, InsertByDate;
    if ts == [] {
      NothingByDate();
    } else {
      var init, last := ts[..|ts| - 1], ts[|ts| - 1];
      SortSorts(init);
      InsertSorts(SortByDate(init), last);
      InsertsOne(SortByDate(init), last);
      assert ts == init + [last];
    }
  }

  lemma NothingByDate()
    ensures ByDate([])
  {
  }

  lemma {:induction false} UnmatchedAre(ts: seq<Recorded>, used: set<Id>, st: Statement, t: Recorded)
    ensures multiset(Unmatched(ts, used, st))[t] == if OnlyRecorded(t, used, st) then multiset(ts)[t] else 0
  {
    hide OnlyRecorded;
    if ts != [] {
      var init, last := ts[..|ts| - 1], ts[|ts| - 1];
      UnmatchedAre(init, used, st, last);
      UnmatchedAre(init, used, st, t);
      assert ts == init + [last];
    }
  }

  /** The transactions reported as only recorded here are exactly the relevant ones of the period that no movement was
      matched with, in the order of their dates. */
  lemma OnlyRecordedIsExact(st: Statement, account: Id, ts: seq<Recorded>, t: Recorded)
    ensures var relevant := Relevant(ts, account);
            var pairing := Assignment(Chosen(st.movements, account, relevant));
            && Points(pairing, relevant)
            && var used, only := UsedIds(pairing, relevant, |st.movements|), ReconcileStatement(st, account, ts).onlyRecorded;
               ByDate(only) && multiset(only)[t] == if OnlyRecorded(t, used, st) then multiset(relevant)[t] else 0
  {
    hide Relevant, Chosen, Assignment, UsedIds, Unmatched, SortByDate, ByDate, Outcomes, Summarize;
    var relevant := Relevant(ts, account);
    var pairing := Assignment(Chosen(st.movements, account, relevant));
    AssignmentPoints(st.movements, account, relevant);
    var used := UsedIds(pairing, relevant, |st.movements|);
    SortSorts(Unmatched(relevant, used, st));
    UnmatchedAre(relevant, used, st, t);
  }

  /** Counts and totals of a whole reconciliation. */
  lemma ReconciliationAddsUp(st: Statement, account: Id, ts: seq<Recorded>)
    ensures var r, relevant := ReconcileStatement(st, account, ts), Relevant(ts, account);
            var pairing := Assignment(Chosen(st.movements, account, relevant));
            && Points(pairing, relevant)
            && r.summary.matched + r.summary.missing + r.summary.installmentsMatched + r.summary.installmentsUnmatched == |st.movements|
            && RegularTotal(st.movements, true) == MatchedTotal(st.movements, true, pairing, relevant) + r.summary.missingCharges
            && RegularTotal(st.movements, false) == MatchedTotal(st.movements, false, pairing, relevant) + r.summary.missingCredits
  {
    hide Relevant, Chosen, Assignment, UsedIds, Unmatched, SortByDate, Outcomes, Summarize, RegularTotal, MatchedTotal, Pairable;
    var relevant := Relevant(ts, account);
    var pairing := Assignment(Chosen(st.movements, account, relevant));
    AssignmentPoints(st.movements, account, relevant);
    CountsAddUp(st.movements, pairing);
    TotalsAddUp(st.movements, account, pairing, relevant);
  }

  method SelectRelevant(ts: seq<Recorded>, account: Id) returns (relevant: seq<Recorded>)
    ensures relevant == Relevant(ts, account)
  {
    relevant := [];
    for i := 0 to |ts|
      invariant relevant == Relevant(ts[..i], account)
    {
      assert ts[..i + 1][..i] == ts[..i];
      if Touches(ts[i], account) {
        relevant := relevant + [ts[i]];
      }
    }
    assert ts[..|ts|] == ts;
  }

  lemma OneMoreMovement(ms: seq<Movement>, pairing: map<nat, nat>, ts: seq<Recorded>, k: nat)
    requires k < |ms| && Points(pairing, ts)
    ensures Outcomes(ms[..k + 1], pairing, ts)
            == Outcomes(ms[..k], pairing, ts) + [Outcome(StatusOf(ms[k], k in pairing), if k in pairing then Some(ts[pairing[k]].id) else None)]
    ensures Summarize(ms[..k + 1], pairing) == Counted(Summarize(ms[..k], pairing), ms[k], StatusOf(ms[k], k in pairing))
  {
    hide Counted;
    assert ms[..k + 1][..k] == ms[..k];
  }

  /** The outcome of each movement, the counters, and the transactions used. */
  method CountOutcomes(ms: seq<Movement>, pairing: map<nat, nat>, ts: seq<Recorded>)
    returns (results: seq<Outcome>, counts: Summary, taken: set<Id>)
    requires Points(pairing, ts)
    ensures results == Outcomes(ms, pairing, ts)
    ensures counts == Summarize(ms, pairing)
    ensures taken == UsedIds(pairing, ts, |ms|)
  {
    hide Counted, Outcomes, Summarize;
    results, counts, taken := [], NOTHING_COUNTED, {};
    NothingCounted(pairing, ts);
    for k := 0 to |ms|
      invariant results == Outcomes(ms[..k], pairing, ts) && counts == Summarize(ms[..k], pairing)
      invariant taken == UsedIds(pairing, ts, k)
    {
      OneMoreMovement(ms, pairing, ts, k);
      var status := StatusOf(ms[k], k in pairing);
      var transaction := None;
      if k in pairing {
        transaction := Some(ts[pairing[k]].id);
        taken := taken + {ts[pairing[k]].id};
      }
      results := results + [Outcome(status, transaction)];
      counts := Counted(counts, ms[k], status);
    }
    assert ms[..|ms|] == ms;
  }

  lemma NothingCounted(pairing: map<nat, nat>, ts: seq<Recorded>)
    requires Points(pairing, ts)
    ensures Outcomes([], pairing, ts) == [] && Summarize([], pairing) == NOTHING_COUNTED
  {
  }

  method CollectUnmatched(ts: seq<Recorded>, used: set<Id>, st: Statement) returns (only: seq<Recorded>)
    ensures only == Unmatched(ts, used, st)
  {
    hide OnlyRecorded;
    only := [];
    for i := 0 to |ts|
      invariant only == Unmatched(ts[..i], used, st)
    {
      assert ts[..i + 1][..i] == ts[..i];
      if OnlyRecorded(ts[i], used, st) {
        only := only + [ts[i]];
      }
    }
    assert ts[..|ts|] == ts;
  }

  method Reconcile(st: Statement, account: Id, ts: seq<Recorded>) returns (r: Comparison)
    ensures r == ReconcileStatement(st, account, ts)
  {
    hide Chosen, Assignment, SortByDate, Relevant, Unmatched, UsedIds, Outcomes, Summarize, Pairable;
    var relevant := SelectRelevant(ts, account);
    var pairing := AssignMatches(st.movements, account, relevant);
    AssignmentPoints(st.movements, account, relevant);
    var outcomes, summary, used := CountOutcomes(st.movements, pairing, relevant);
    var only := CollectUnmatched(relevant, used, st);
    r := Comparison(outcomes, SortByDate(only), summary);
  }
}
