/**
 * Arithmetic of the taxable position: refund netting and the tracked/confirmed range (src/lib/report.ts,
 * src/lib/position.ts) and the company loss balance (src/lib/ledger-totals.ts). Money is integer cents.
 */
module Position {
  import opened Options

  type Id = int

  function Min(a: int, b: int): int { if a < b then a else b }
  function Max(a: int, b: int): int { if a > b then a else b }

  // ── Refund netting ──────────────────────────────────────────────────────────────────────────────────

  /** A refund row: the expense it reverses, if it is linked to one. */
  datatype Refund = Refund(cents: int, expense: Option<Id>)

  /** The expenses that count as deductions, with the amount each contributed. */
  type Claims = map<Id, int>

  predicate Matched(claims: Claims, r: Refund) { r.expense.Some? && r.expense.value in claims }

  datatype Netting = Netting(netted: map<Id, int>, refunds: int, unmatched: int, unmatchedN: nat)

  const NO_NETTING := Netting(map[], 0, 0, 0)

  function Already(n: Netting, e: Id): int { if e in n.netted then n.netted[e] else 0 }

  /** What one more refund nets: at most what its expense has left. */
  function ToNet(claims: Claims, n: Netting, r: Refund): int
    requires Matched(claims, r)
  {
    Max(0, Min(r.cents, claims[r.expense.value] - Already(n, r.expense.value)))
  }

  function Net1(claims: Claims, n: Netting, r: Refund): Netting {
    if Matched(claims, r) then
      n.(refunds := n.refunds + ToNet(claims, n, r), netted := n.netted[r.expense.value := Already(n, r.expense.value) + ToNet(claims, n, r)])
    else n.(unmatched := n.unmatched + r.cents, unmatchedN := n.unmatchedN + 1)
  }

  function Netted(claims: Claims, rs: seq<Refund>): Netting {
    if rs == [] then NO_NETTING else Net1(claims, Netted(claims, rs[..|rs| - 1]), rs[|rs| - 1])
  }

  method RefundNetting(claims: Claims, rs: seq<Refund>) returns (n: Netting)
    ensures n == Netted(claims, rs)
  {
    var refunds, unmatched, unmatchedN := 0, 0, 0;
    var perExpense: map<Id, int> := map[];
    for i := 0 to |rs|
      invariant Netting(perExpense, refunds, unmatched, unmatchedN) == Netted(claims, rs[..i])
    {
      assert rs[..i + 1][..i] == rs[..i];
      var r := rs[i];
      if Matched(claims, r) {
        var e := r.expense.value;
        var already := if e in perExpense then perExpense[e] else 0;
        var toNet := Max(0, Min(r.cents, claims[e] - already));
        refunds := refunds + toNet;
        perExpense := perExpense[e := already + toNet];
      } else {
        unmatchedN := unmatchedN + 1;
        unmatched := unmatched + r.cents;
      }
    }
    assert rs[..|rs|] == rs;
    n := Netting(perExpense, refunds, unmatched, unmatchedN);
  }

  function Share(r: Refund, e: Id): int { if r.expense == Some(e) then Max(0, r.cents) else 0 }

  /** Everything refunded against one expense. */
  function Refunded(rs: seq<Refund>, e: Id): int {
    if rs == [] then 0 else Refunded(rs[..|rs| - 1], e) + Share(rs[|rs| - 1], e)
  }

  /** What several refunds of one expense may take together. */
  function Capped(claims: Claims, rs: seq<Refund>, e: Id): int
    requires e in claims
  {
    Min(Refunded(rs, e), Max(0, claims[e]))
  }

  lemma {:induction false} RefundedNotNegative(rs: seq<Refund>, e: Id)
    ensures Refunded(rs, e) >= 0
  {
    if rs != [] { RefundedNotNegative(rs[..|rs| - 1], e); }
  }

  /** Refund by refund, the netting of an expense is the smaller of what was refunded and what it contributed. */
  lemma {:induction false} NettedIsCapped(claims: Claims, rs: seq<Refund>, e: Id)
    requires e in claims
    ensures Already(Netted(claims, rs), e) == Capped(claims, rs, e)
  {
    RefundedNotNegative(rs, e);
    if rs != [] {
      RefundedNotNegative(rs[..|rs| - 1], e);
      NettedIsCapped(claims, rs[..|rs| - 1], e);
    }
  }

  predicate Distinct(es: seq<Id>) { forall i, j | 0 <= i < j < |es| :: es[i] != es[j] }

  function SumCapped(claims: Claims, rs: seq<Refund>, es: seq<Id>): int
    requires forall e | e in es :: e in claims
  {
    if es == [] then 0 else SumCapped(claims, rs, es[..|es| - 1]) + Capped(claims, rs, es[|es| - 1])
  }

  lemma {:induction false} OneMoreRefund(claims: Claims, rs: seq<Refund>, r: Refund, es: seq<Id>)
    requires Distinct(es) && forall e | e in es :: e in claims
    ensures SumCapped(claims, rs + [r], es) == SumCapped(claims, rs, es)
              + if r.expense.Some? && r.expense.value in es then Capped(claims, rs + [r], r.expense.value) - Capped(claims, rs, r.expense.value) else 0
  {
    if es != [] {
      var init, e := es[..|es| - 1], es[|es| - 1];
      assert e in es && forall x | x in init :: x in es;
      OneMoreRefund(claims, rs, r, init);
      assert (rs + [r])[..|rs|] == rs;
      assert forall x :: x in es <==> x in init || x == e;
      forall i | 0 <= i < |init| ensures init[i] != e {
        assert es[i] != es[|init|];
      }
    }
  }

  /** The total netted is the sum of those figures over the expenses refunded, each once. */
  lemma {:induction false} TotalIsSum(claims: Claims, rs: seq<Refund>, es: seq<Id>)
    requires Distinct(es) && (forall e | e in es :: e in claims) && forall r | r in rs && Matched(claims, r) :: r.expense.value in es
    ensures Netted(claims, rs).refunds == SumCapped(claims, rs, es)
  {
    if rs == [] {
      NothingCapped(claims, es);
    } else {
      var init, r := rs[..|rs| - 1], rs[|rs| - 1];
      assert r in rs && forall x | x in init :: x in rs;
      TotalIsSum(claims, init, es);
      assert init + [r] == rs;
      OneMoreRefund(claims, init, r, es);
      if Matched(claims, r) {
        NettedIsCapped(claims, init, r.expense.value);
        NettedIsCapped(claims, rs, r.expense.value);
      }
    }
  }

  lemma {:induction false} NothingCapped(claims: Claims, es: seq<Id>)
    requires forall e | e in es :: e in claims
    ensures SumCapped(claims, [], es) == 0
  {
    if es != [] {
      assert es[|es| - 1] in es && forall x | x in es[..|es| - 1] :: x in es;
      NothingCapped(claims, es[..|es| - 1]);
    }
  }

  lemma {:induction false} RefundedWithout(rs: seq<Refund>, i: nat, e: Id)
    requires i < |rs|
    ensures Refunded(rs, e) == Refunded(rs[..i] + rs[i + 1..], e) + Share(rs[i], e)
    decreases |rs|
  {
    var init, r := rs[..|rs| - 1], rs[|rs| - 1];
    if i == |init| {
      assert rs[..i] + rs[i + 1..] == init;
    } else {
      RefundedWithout(init, i, e);
      var rest := rs[..i] + rs[i + 1..];
      assert rest[..|rest| - 1] == init[..i] + init[i + 1..] && rest[|rest| - 1] == r;
    }
  }

  lemma {:induction false} MatchingIndex(rs: seq<Refund>, ts: seq<Refund>) returns (i: nat)
    requires rs != [] && multiset(rs) == multiset(ts)
    ensures i < |ts| && ts[i] == rs[|rs| - 1]
    ensures multiset(rs[..|rs| - 1]) == multiset(ts[..i] + ts[i + 1..])
  {
    var init, r := rs[..|rs| - 1], rs[|rs| - 1];
    assert rs == init + [r];
    assert r in multiset(ts);
    i :| 0 <= i < |ts| && ts[i] == r;
    var before, after := ts[..i], ts[i + 1..];
    assert ts == before + [r] + after;
    assert multiset(before + after) == multiset(ts) - multiset{r};
    assert multiset(init) == multiset(rs) - multiset{r};
  }

  lemma {:induction false} RefundedAnyOrder(rs: seq<Refund>, ts: seq<Refund>, e: Id)
    requires multiset(rs) == multiset(ts)
    ensures Refunded(rs, e) == Refunded(ts, e)
    decreases |rs|
  {
    if rs == [] {
      assert |ts| == |multiset(ts)|;
    } else {
      var i := MatchingIndex(rs, ts);
      RefundedAnyOrder(rs[..|rs| - 1], ts[..i] + ts[i + 1..], e);
      RefundedWithout(ts, i, e);
    }
  }

  /** The order refunds arrive in does not matter, per expense or in total. */
  lemma {:induction false} OrderIsIrrelevant(claims: Claims, rs: seq<Refund>, ts: seq<Refund>, es: seq<Id>, e: Id)
    requires multiset(rs) == multiset(ts) && e in claims
    requires Distinct(es) && (forall x | x in es :: x in claims) && forall r | r in rs && Matched(claims, r) :: r.expense.value in es
    ensures Already(Netted(claims, rs), e) == Already(Netted(claims, ts), e)
    ensures Netted(claims, rs).refunds == Netted(claims, ts).refunds
  {
    NettedIsCapped(claims, rs, e);
    NettedIsCapped(claims, ts, e);
    RefundedAnyOrder(rs, ts, e);
    forall r | r in ts ensures r in rs {
      assert r in multiset(ts);
    }
    TotalIsSum(claims, rs, es);
    TotalIsSum(claims, ts, es);
    SameSums(claims, rs, ts, es);
  }

  lemma {:induction false} SameSums(claims: Claims, rs: seq<Refund>, ts: seq<Refund>, es: seq<Id>)
    requires multiset(rs) == multiset(ts) && forall x | x in es :: x in claims
    ensures SumCapped(claims, rs, es) == SumCapped(claims, ts, es)
  {
    if es != [] {
      var init, e := es[..|es| - 1], es[|es| - 1];
      assert e in es && forall x | x in init :: x in es;
      SameSums(claims, rs, ts, init);
      RefundedAnyOrder(rs, ts, e);
    }
  }

  /** The refunds of no claimed expense: how many, or their cents. */
  function Unlinked(claims: Claims, rs: seq<Refund>, count: bool): int {
    if rs == [] then 0 else
    var r := rs[|rs| - 1];
    Unlinked(claims, rs[..|rs| - 1], count) + if r.expense.Some? && r.expense.value in claims.Keys then 0 else if count then 1 else r.cents
  }

  /** A refund of an expense that is not claimed, or of none, is counted apart, in full, and nets nothing. */
  lemma {:induction false} UnmatchedApart(claims: Claims, rs: seq<Refund>)
    ensures Netted(claims, rs).unmatched == Unlinked(claims, rs, false) && Netted(claims, rs).unmatchedN == Unlinked(claims, rs, true)
    ensures Netted(claims, rs).netted.Keys <= claims.Keys
  {
    if rs != [] { UnmatchedApart(claims, rs[..|rs| - 1]); }
  }

  // ── The position range ──────────────────────────────────────────────────────────────────────────────

  /** One endpoint: everything but the deductions and the carried loss is shared. */
  function PreLoss(shared: int, deductions: int): int { shared - deductions }

  function LossApplied(preLoss: int, carried: int): int { Min(carried, Max(0, preLoss)) }

  function Compose(shared: int, deductions: int, carried: int): int {
    PreLoss(shared, deductions) - LossApplied(PreLoss(shared, deductions), carried)
  }

  function TrackedDeductions(gross: int, refunds: int, methods: int): int { Max(0, gross - refunds) + methods }

  function ConfirmedDeductions(resolved: int, gross: int, refunds: int, methods: int): int {
    Min(resolved, Max(0, gross - refunds)) + methods
  }

  /** What a position is: the income left after deductions when there is none to set a loss against, and otherwise what is left
      of it after the loss, down to zero. */
  lemma {:induction false} ComposeIs(shared: int, deductions: int, carried: int)
    requires carried >= 0
    ensures Compose(shared, deductions, carried)
         == if shared <= deductions then shared - deductions else if carried <= shared - deductions then shared - deductions - carried else 0
  {
  }

  /** Tracked deductions are the spend left after refunds, and the methods; confirmed ones the spend resolved so far, when that is
      less, and the methods: so the two ends meet exactly when everything left is resolved. */
  lemma {:induction false} EndsMeet(resolved: int, gross: int, refunds: int, methods: int)
    ensures TrackedDeductions(gross, refunds, methods) == if refunds <= gross then gross - refunds + methods else methods
    ensures resolved <= gross - refunds && refunds <= gross ==> ConfirmedDeductions(resolved, gross, refunds, methods) == resolved + methods
    ensures ConfirmedDeductions(resolved, gross, refunds, methods) == TrackedDeductions(gross, refunds, methods)
       <==> resolved >= gross - refunds && resolved >= 0
  {
  }

  /** A carried loss only offsets positive income: it never takes a position below zero, or below where it started. */
  lemma {:induction false} LossStopsAtZero(shared: int, deductions: int, carried: int)
    requires carried >= 0
    ensures var pre, p := PreLoss(shared, deductions), Compose(shared, deductions, carried);
            Min(pre, 0) <= p <= pre && (p == pre || p >= 0) && pre - p <= carried && (pre - p < carried ==> p <= 0)
  {
  }

  /** For every input the confirmed end is at or above the tracked end, whatever refunds, reviews and losses do, and the
      gap is at most the deductions still awaiting review. */
  lemma {:induction false} RangeNeverInverts(shared: int, resolved: int, gross: int, refunds: int, methods: int, carried: int)
    ensures var tracked, confirmed := TrackedDeductions(gross, refunds, methods), ConfirmedDeductions(resolved, gross, refunds, methods);
      && confirmed <= tracked && (methods >= 0 ==> tracked >= 0)
      && 0 <= Compose(shared, confirmed, carried) - Compose(shared, tracked, carried) <= tracked - confirmed
  {
  }

  /** Without the cap at netted spend the range would invert exactly when more is confirmed than is tracked and the loss
      does not absorb the difference. */
  lemma {:induction false} CapIsNeeded(shared: int, resolved: int, gross: int, refunds: int, methods: int, carried: int)
    requires carried >= 0
    ensures Compose(shared, resolved + methods, carried) < Compose(shared, TrackedDeductions(gross, refunds, methods), carried)
       <==> resolved > Max(0, gross - refunds)
            && !(0 <= PreLoss(shared, resolved + methods) && PreLoss(shared, TrackedDeductions(gross, refunds, methods)) <= carried)
  {
  }

  // ── Company losses ──────────────────────────────────────────────────────────────────────────────────

  datatype Year = Year(deductions: int, income: int)

  function Balance1(balance: int, y: Year): int {
    var grown := balance + Max(0, y.deductions - y.income);
    grown - Min(grown, Max(0, y.income - y.deductions))
  }

  function Balance(ys: seq<Year>): int {
    if ys == [] then 0 else Balance1(Balance(ys[..|ys| - 1]), ys[|ys| - 1])
  }

  method CarriedLoss(ys: seq<Year>) returns (balance: int)
    ensures balance == Balance(ys)
  {
    balance := 0;
    for i := 0 to |ys|
      invariant balance == Balance(ys[..i])
    {
      assert ys[..i + 1][..i] == ys[..i];
      balance := balance + Max(0, ys[i].deductions - ys[i].income);
      balance := balance - Min(balance, Max(0, ys[i].income - ys[i].deductions));
    }
    assert ys[..|ys|] == ys;
  }

  /** Net loss of the years from k on. */
  function SuffixLoss(ys: seq<Year>, k: nat): int
    requires k <= |ys|
    decreases |ys| - k
  {
    if k == |ys| then 0 else ys[k].deductions - ys[k].income + SuffixLoss(ys, k + 1)
  }

  lemma {:induction false} SuffixSnoc(ys: seq<Year>, y: Year, k: nat)
    requires k <= |ys|
    ensures SuffixLoss(ys + [y], k) == SuffixLoss(ys, k) + y.deductions - y.income
    decreases |ys| - k
  {
    if k < |ys| {
      SuffixSnoc(ys, y, k + 1);
    } else {
      assert SuffixLoss(ys + [y], |ys| + 1) == 0;
    }
  }

  /** The year-by-year fold is the largest net loss of any run of years up to now, and never negative. */
  lemma {:induction false} BalanceIsWorstRun(ys: seq<Year>) returns (k: nat)
    ensures Balance(ys) >= 0
    ensures k <= |ys| && SuffixLoss(ys, k) == Balance(ys)
    ensures forall j | 0 <= j <= |ys| :: SuffixLoss(ys, j) <= Balance(ys)
  {
    if ys == [] {
      k := 0;
    } else {
      var init, y := ys[..|ys| - 1], ys[|ys| - 1];
      assert init + [y] == ys;
      k := BalanceIsWorstRun(init);
      SuffixSnoc(init, y, k);
      forall j | 0 <= j <= |ys| ensures SuffixLoss(ys, j) <= Balance(ys) {
        if j < |ys| { SuffixSnoc(init, y, j); }
      }
      if Balance(ys) == 0 { k := |ys|; }
    }
  }

  /** The figure shown for the current year is one more step of the same fold. */
  lemma {:induction false} CurrentYearContinues(ys: seq<Year>, now: Year)
    ensures var carried := Balance(ys);
      carried - Min(carried, Max(0, now.income - now.deductions)) + Max(0, now.deductions - now.income) == Balance(ys + [now])
  {
    var k := BalanceIsWorstRun(ys);
    assert (ys + [now])[..|ys|] == ys;
  }
}
