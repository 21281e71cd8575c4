/**
 * The match proposer (src/lib/reconcile-proposer.ts): which receipt and bank-line pairs are suggested for one tap. The fast
 * form (lines sorted by amount, a binary search for the tolerance window, one pass that keeps the best and the runner-up,
 * a ceiling for the lines never scored) refines the plain definition of a confident match. Days are day numbers, scores
 * are reals.
 */
module Proposer {
  import opened Options
  import RL = ReceiptLink

  type Id = RL.Id

  datatype Row = Row(id: Id, cents: int, day: Option<int>, credit: bool, inFy: bool)

  datatype Config = Config(minScore: real, margin: real)

  const EPS := 0.000000001
  const OUT_OF_TOLERANCE_MAX := 0.3
  const MAX_IN_TOLERANCE := 64
  const WINDOW_DAYS := 7

  // ── The score ───────────────────────────────────────────────────────────────────────────────────────

  function Abs(x: int): int { if x < 0 then -x else x }

  function Tolerance(cents: int): (t: real)
    ensures t >= 50.0
  {
    if cents as real * 0.01 > 50.0 then cents as real * 0.01 else 50.0
  }

  function AmountScore(r: Row, l: Row): real {
    var share := Abs(r.cents - l.cents) as real / Tolerance(r.cents);
    if share > 1.0 then 0.0 else 1.0 - share
  }

  function DateScore(r: Row, l: Row): (s: real)
    ensures 0.0 <= s <= 1.0
  {
    if r.day == None || l.day == None then 0.0 else
    var d := Abs(r.day.value - l.day.value);
    if d > WINDOW_DAYS then 0.0 else 1.0 - d as real / 7.0
  }

  function Score(r: Row, l: Row): real { AmountScore(r, l) * 0.7 + DateScore(r, l) * 0.3 }

  predicate InTolerance(r: Row, l: Row) { r.cents as real - Tolerance(r.cents) < l.cents as real < r.cents as real + Tolerance(r.cents) }

  predicate Plausible(r: Row, l: Row) { r.day.Some? && l.day.Some? && Abs(r.day.value - l.day.value) < WINDOW_DAYS }

  lemma {:induction false} ShareOf(x: real, t: real)
    requires t > 0.0 && x >= t
    ensures x / t >= 1.0
  {
    assert x / t * t == x && 1.0 * t == t;
    Grows(1.0, x / t, t);
  }

  lemma {:induction false} Grows(a: real, b: real, t: real)
    requires t > 0.0
    ensures a > b ==> a * t > b * t
  {
    assert (a - b) * t == a * t - b * t;
    if a > b { assert (a - b) * t > 0.0; }
  }

  /** A line outside the tolerance never scores above the ceiling, so standing in for it can only suppress a proposal. */
  lemma {:induction false} CeilingHolds(r: Row, l: Row)
    requires !InTolerance(r, l)
    ensures Score(r, l) <= OUT_OF_TOLERANCE_MAX
  {
    ShareOf(Abs(r.cents - l.cents) as real, Tolerance(r.cents));
  }

  // ── The plain definition ────────────────────────────────────────────────────────────────────────────

  /** A line the receipt is compared with: of its own direction, and not rejected for it. */
  predicate Rival(r: Row, m: Row, dismissed: set<(Id, Id)>) { m.credit == r.credit && (r.id, m.id) !in dismissed }

  /** What a rival counts for: its score, or the ceiling when its amount is out of tolerance. */
  function Weight(r: Row, m: Row): real { if InTolerance(r, m) then Score(r, m) else OUT_OF_TOLERANCE_MAX }

  /** The rivals inside the tolerance. */
  function Near(r: Row, lines: seq<Row>, dismissed: set<(Id, Id)>): (near: seq<Row>)
    ensures forall m :: m in near <==> m in lines && Rival(r, m, dismissed) && InTolerance(r, m)
  {
    if lines == [] then [] else
    var init, m := lines[..|lines| - 1], lines[|lines| - 1];
    assert forall x :: x in lines <==> x in init || x == m;
    if Rival(r, m, dismissed) && InTolerance(r, m) then Near(r, init, dismissed) + [m] else Near(r, init, dismissed)
  }

  /** The line is near in amount and date and in the year, clears the bar, and beats every other line by the margin. */
  predicate Confident(r: Row, l: Row, lines: seq<Row>, dismissed: set<(Id, Id)>, cfg: Config) {
    && l in lines && Rival(r, l, dismissed) && InTolerance(r, l) && Plausible(r, l) && l.inFy
    && |Near(r, lines, dismissed)| <= MAX_IN_TOLERANCE
    && Score(r, l) + EPS >= cfg.minScore && Score(r, l) + EPS >= cfg.margin
    && forall m | m in lines && m != l && Rival(r, m, dismissed) :: Score(r, l) - Weight(r, m) + EPS >= cfg.margin
  }

  /** No two receipts want the line. */
  predicate OnlyOne(r: Row, l: Row, receipts: seq<Row>, lines: seq<Row>, dismissed: set<(Id, Id)>, cfg: Config) {
    forall q | q in receipts && q != r :: !Confident(q, l, lines, dismissed, cfg)
  }

  /** So it beats every rival's real score, scored or not, by the margin. */
  lemma {:induction false} ConfidentBeatsAll(r: Row, l: Row, m: Row, lines: seq<Row>, dismissed: set<(Id, Id)>, cfg: Config)
    requires Confident(r, l, lines, dismissed, cfg) && m in lines && m != l && Rival(r, m, dismissed)
    ensures Score(r, l) - Score(r, m) + EPS >= cfg.margin
  {
    if !InTolerance(r, m) { CeilingHolds(r, m); }
  }

  predicate UniqueIds(rows: seq<Row>) { forall i, j | 0 <= i < |rows| && 0 <= j < |rows| && rows[i].id == rows[j].id :: i == j }

  // ── The score and the proposals, in cents and days ──────────────────────────────────────────────────

  /** How far apart two rows are. */
  function Gap(r: Row, l: Row): int { if r.cents > l.cents then r.cents - l.cents else l.cents - r.cents }

  /** The same amount on the same day scores 1. */
  lemma {:induction false} SameDaySameAmount(r: Row, l: Row)
    requires r.cents == l.cents && r.day.Some? && r.day == l.day
    ensures Score(r, l) == 1.0
  {
    assert Abs(r.cents - l.cents) as real / Tolerance(r.cents) == 0.0;
  }

  /** Of two lines of one amount, each day further from the receipt costs three seventieths, up to a week. */
  lemma {:induction false} ScoreFallsByDay(r: Row, l: Row, m: Row, days: nat, more: nat)
    requires l.cents == m.cents && r.day.Some? && l.day.Some? && m.day.Some? && days + more <= 7
    requires l.day.value in {r.day.value + days, r.day.value - days}
    requires m.day.value in {r.day.value + days + more, r.day.value - days - more}
    ensures Score(r, l) - Score(r, m) == 0.3 * more as real / 7.0
  {
  }

  /** With no date to compare, or a week or more apart, the amount alone counts, for seven tenths. */
  lemma {:induction false} AmountAlone(r: Row, l: Row)
    requires r.day == None || l.day == None || l.day.value <= r.day.value - 7 || l.day.value >= r.day.value + 7
    ensures Score(r, l) <= 0.7 && (Score(r, l) == 0.7 <==> r.cents == l.cents)
  {
    Share(r, l);
  }

  lemma {:induction false} Quotient(g: real, t: real)
    requires 0.0 <= g && t > 0.0
    ensures g / t * t == g && g / t >= 0.0 && (g / t <= 1.0 <==> g <= t) && (g / t == 0.0 <==> g == 0.0)
  {
    var q := g / t;
    assert q * t == g;
    Grows(0.0, q, t);
    Grows(q, 0.0, t);
    Grows(1.0, q, t);
    Grows(q, 1.0, t);
  }

  lemma {:induction false} Rest(q: real, t: real, g: real)
    requires q * t == g
    ensures (1.0 - q) * t == t - g
  {
  }

  lemma {:induction false} ToleranceIs(r: Row)
    ensures 100.0 * Tolerance(r.cents) == (if r.cents > 5000 then r.cents else 5000) as real
  {
  }

  /** The part of the tolerance (one percent, but at least 50 cents) the amounts are apart. */
  lemma {:induction false} Share(r: Row, l: Row)
    ensures 100.0 * Tolerance(r.cents) == (if r.cents > 5000 then r.cents else 5000) as real
    ensures AmountScore(r, l) * Tolerance(r.cents) == if Gap(r, l) as real <= Tolerance(r.cents) then Tolerance(r.cents) - Gap(r, l) as real else 0.0
    ensures 0.0 <= AmountScore(r, l) <= 1.0 && (AmountScore(r, l) == 1.0 <==> r.cents == l.cents)
  {
    var g, t := Gap(r, l) as real, Tolerance(r.cents);
    assert Abs(r.cents - l.cents) == Gap(r, l);
    ToleranceIs(r);
    Quotient(g, t);
    Rest(g / t, t, g);
  }

  /** A hundred times the tolerance. */
  function Whole(r: Row): int { if r.cents > 5000 then r.cents else 5000 }

  lemma {:induction false} AmountShare(r: Row, l: Row)
    ensures AmountScore(r, l) * Whole(r) as real == (if 100 * Gap(r, l) <= Whole(r) then Whole(r) - 100 * Gap(r, l) else 0) as real
  {
    Share(r, l);
    var a, t := AmountScore(r, l), Tolerance(r.cents);
    assert a * (100.0 * t) == 100.0 * (a * t);
  }

  lemma {:induction false} Weighed(s: real, a: real, d: real, whole: real)
    requires s == a * 0.7 + d * 0.3
    ensures s * whole == 0.7 * (a * whole) + 0.3 * (d * whole)
  {
  }

  /** The score of two dated rows up to a week apart: each cent between them costs its share of seven tenths, each day a
      seventh of three tenths. */
  lemma {:induction false} ScoreIs(r: Row, l: Row, days: nat)
    requires r.day.Some? && l.day.Some? && l.day.value in {r.day.value + days, r.day.value - days} && days <= 7
    ensures Score(r, l) * Whole(r) as real
         == 0.7 * (if 100 * Gap(r, l) <= Whole(r) then Whole(r) - 100 * Gap(r, l) else 0) as real + 0.3 * ((1.0 - days as real / 7.0) * Whole(r) as real)
  {
    AmountShare(r, l);
    DateIs(r, l, days);
    Weighed(Score(r, l), AmountScore(r, l), DateScore(r, l), Whole(r) as real);
  }

  lemma {:induction false} DateIs(r: Row, l: Row, days: nat)
    requires r.day.Some? && l.day.Some? && l.day.value in {r.day.value + days, r.day.value - days} && days <= 7
    ensures DateScore(r, l) == 1.0 - days as real / 7.0
  {
  }

  // ── One pass over the near lines ────────────────────────────────────────────────────────────────────

  datatype Scan = Scan(best: Option<Row>, second: real, n: nat, any: nat, inYear: nat, saturated: bool)

  const START := Scan(None, 0.0, 0, 0, 0, false)

  function Max(a: real, b: real): real { if a > b then a else b }

  function Scanned(s: Scan, r: Row, l: Row): Scan {
    if s.saturated then s
    else if s.n + 1 > MAX_IN_TOLERANCE then s.(n := s.n + 1, saturated := true)
    else
      var counted := s.(n := s.n + 1, any := s.any + (if Plausible(r, l) then 1 else 0),
                        inYear := s.inYear + if Plausible(r, l) && l.inFy then 1 else 0);
      if s.best == None then counted.(best := Some(l))
      else if Score(r, l) > Score(r, s.best.value) + EPS then counted.(best := Some(l), second := Max(s.second, Score(r, s.best.value)))
      else counted.(second := Max(s.second, Score(r, l)))
  }

  function ScanAll(r: Row, ls: seq<Row>): Scan {
    if ls == [] then START else Scanned(ScanAll(r, ls[..|ls| - 1]), r, ls[|ls| - 1])
  }

  predicate NoRepeats(ls: seq<Row>) { forall i, j | 0 <= i < |ls| && 0 <= j < |ls| && ls[i] == ls[j] :: i == j }

  /** What the pass has found: the best line (up to rounding) and exactly the highest score of the others. */
  predicate ScanIs(s: Scan, r: Row, ls: seq<Row>) {
    && s.n == |ls| && !s.saturated && s.second >= 0.0
    && (s.best == None <==> ls == []) && (s.best == None ==> s.second == 0.0)
    && (s.best.Some? ==>
          && s.best.value in ls
          && (forall m | m in ls :: Score(r, m) <= Score(r, s.best.value) + EPS)
          && (forall m | m in ls && m != s.best.value :: Score(r, m) <= s.second)
          && (s.second == 0.0 || exists m | m in ls :: m != s.best.value && Score(r, m) == s.second))
    && (s.any > 0 <==> exists m | m in ls :: Plausible(r, m))
    && (s.inYear > 0 <==> exists m | m in ls :: Plausible(r, m) && m.inFy)
  }

  lemma {:induction false} ScanStep(s: Scan, r: Row, ls: seq<Row>, l: Row)
    requires ScanIs(s, r, ls) && l !in ls && |ls| < MAX_IN_TOLERANCE
    ensures ScanIs(Scanned(s, r, l), r, ls + [l])
  {
    assert forall x :: x in ls + [l] <==> x in ls || x == l;
    var t := Scanned(s, r, l);
    if t.best.Some? && t.second != 0.0 {
      if s.second == t.second {
        var m :| m in ls && m != s.best.value && Score(r, m) == s.second;
        assert m in ls + [l] && m != t.best.value;
      } else {
        var m := if t.best == Some(l) then s.best.value else l;
        assert m in ls + [l] && m != t.best.value && Score(r, m) == t.second;
      }
    }
  }

  lemma {:induction false} ScanFinds(r: Row, ls: seq<Row>)
    requires NoRepeats(ls)
    ensures |ls| <= MAX_IN_TOLERANCE ==> ScanIs(ScanAll(r, ls), r, ls)
    ensures ScanAll(r, ls).saturated <==> |ls| > MAX_IN_TOLERANCE
  {
    if ls != [] {
      var init, l := ls[..|ls| - 1], ls[|ls| - 1];
      forall i, j | 0 <= i < |init| && 0 <= j < |init| && init[i] == init[j] ensures i == j {
        assert ls[i] == ls[j];
      }
      ScanFinds(r, init);
      assert ls == init + [l];
      forall i | 0 <= i < |init| ensures init[i] != l {
        assert ls[i] == init[i] && ls[|init|] == l;
      }
      if |ls| <= MAX_IN_TOLERANCE { ScanStep(ScanAll(r, init), r, init, l); }
    }
  }

  // ── The pick of one receipt ─────────────────────────────────────────────────────────────────────────

  /** Some rival was never scored: its amount is out of tolerance. */
  predicate SomeFar(r: Row, lines: seq<Row>, dismissed: set<(Id, Id)>) {
    exists m | m in lines :: Rival(r, m, dismissed) && !InTolerance(r, m)
  }

  function Runner(s: Scan, far: bool): real { if far then Max(s.second, OUT_OF_TOLERANCE_MAX) else s.second }

  /** The line proposed for a receipt, before the claims of other receipts are compared. */
  function Pick(s: Scan, r: Row, far: bool, cfg: Config): Option<Row> {
    if !s.saturated && s.best.Some? && Plausible(r, s.best.value) && s.best.value.inFy
       && Score(r, s.best.value) + EPS >= cfg.minScore && Score(r, s.best.value) - Runner(s, far) + EPS >= cfg.margin
    then s.best else None
  }

  /** The same near lines in any order, each once. */
  ghost predicate SameNear(near: seq<Row>, r: Row, lines: seq<Row>, dismissed: set<(Id, Id)>) {
    NoRepeats(near) && |near| == |Near(r, lines, dismissed)| && forall m :: m in near <==> m in Near(r, lines, dismissed)
  }

  /** One pass over the near lines finds the confident match, and nothing else, for any margin above rounding. */
  lemma {:induction false} PickIff(near: seq<Row>, r: Row, lines: seq<Row>, dismissed: set<(Id, Id)>, cfg: Config, l: Row)
    requires SameNear(near, r, lines, dismissed) && cfg.margin > 2.0 * EPS
    ensures Pick(ScanAll(r, near), r, SomeFar(r, lines, dismissed), cfg) == Some(l) <==> Confident(r, l, lines, dismissed, cfg)
  {
    ScanFinds(r, near);
    if |near| <= MAX_IN_TOLERANCE {
      if Pick(ScanAll(r, near), r, SomeFar(r, lines, dismissed), cfg) == Some(l) { PickIsConfident(near, r, lines, dismissed, cfg, l); }
      if Confident(r, l, lines, dismissed, cfg) { ConfidentIsPicked(near, r, lines, dismissed, cfg, l); }
    }
  }

  lemma {:induction false} PickIsConfident(near: seq<Row>, r: Row, lines: seq<Row>, dismissed: set<(Id, Id)>, cfg: Config, l: Row)
    requires SameNear(near, r, lines, dismissed) && |near| <= MAX_IN_TOLERANCE && ScanIs(ScanAll(r, near), r, near)
    requires Pick(ScanAll(r, near), r, SomeFar(r, lines, dismissed), cfg) == Some(l)
    ensures Confident(r, l, lines, dismissed, cfg)
  {
    var s := ScanAll(r, near);
    assert l in near && l in Near(r, lines, dismissed);
    forall m | m in lines && m != l && Rival(r, m, dismissed) ensures Score(r, l) - Weight(r, m) + EPS >= cfg.margin {
      if InTolerance(r, m) { assert m in Near(r, lines, dismissed) && m in near; } else { assert SomeFar(r, lines, dismissed); }
    }
  }

  lemma {:induction false} ConfidentIsPicked(near: seq<Row>, r: Row, lines: seq<Row>, dismissed: set<(Id, Id)>, cfg: Config, l: Row)
    requires SameNear(near, r, lines, dismissed) && |near| <= MAX_IN_TOLERANCE && ScanIs(ScanAll(r, near), r, near) && cfg.margin > 2.0 * EPS
    requires Confident(r, l, lines, dismissed, cfg)
    ensures Pick(ScanAll(r, near), r, SomeFar(r, lines, dismissed), cfg) == Some(l)
  {
    var s := ScanAll(r, near);
    assert l in Near(r, lines, dismissed) && l in near;
    forall m | m in near && m != l ensures Score(r, l) - Score(r, m) + EPS >= cfg.margin {
      assert m in Near(r, lines, dismissed) && Weight(r, m) == Score(r, m);
    }
    assert s.best == Some(l);
    if SomeFar(r, lines, dismissed) {
      var m :| m in lines && Rival(r, m, dismissed) && !InTolerance(r, m);
      assert m != l && Weight(r, m) == OUT_OF_TOLERANCE_MAX;
    }
  }

  // ── The window in the sorted lines ──────────────────────────────────────────────────────────────────

  predicate ByCents(ls: seq<Row>) { forall i, j | 0 <= i <= j < |ls| :: ls[i].cents <= ls[j].cents }

  function Insert(l: Row, ls: seq<Row>): seq<Row> {
    if ls == [] then [l] else if l.cents <= ls[0].cents then [l] + ls else [ls[0]] + Insert(l, ls[1..])
  }

  lemma {:induction false} InsertIn(l: Row, ls: seq<Row>)
    ensures forall x :: x in Insert(l, ls) <==> x in ls || x == l
  {
    if ls != [] && l.cents > ls[0].cents {
      InsertIn(l, ls[1..]);
      assert ls == [ls[0]] + ls[1..];
    }
  }

  lemma {:induction false} InsertByCents(l: Row, ls: seq<Row>)
    requires ByCents(ls)
    ensures ByCents(Insert(l, ls))
  {
    if ls != [] && l.cents > ls[0].cents {
      var rest := Insert(l, ls[1..]);
      InsertByCents(l, ls[1..]);
      InsertIn(l, ls[1..]);
      forall i | 0 <= i < |rest| ensures ls[0].cents <= rest[i].cents { assert rest[i] in rest; }
    }
  }

  lemma {:induction false} InsertNoRepeats(l: Row, ls: seq<Row>)
    requires NoRepeats(ls) && l !in ls
    ensures NoRepeats(Insert(l, ls))
  {
    if ls != [] && l.cents > ls[0].cents {
      var rest := Insert(l, ls[1..]);
      InsertNoRepeats(l, ls[1..]);
      InsertIn(l, ls[1..]);
      forall i | 0 <= i < |rest| ensures rest[i] != ls[0] {
        assert rest[i] in rest;
        HeadOnce(ls);
      }
    }
  }

  lemma {:induction false} HeadOnce(ls: seq<Row>)
    requires NoRepeats(ls) && ls != []
    ensures ls[0] !in ls[1..]
  {
    forall i | 0 <= i < |ls[1..]| ensures ls[1..][i] != ls[0] {
      assert ls[1..][i] == ls[i + 1];
    }
  }

  /** The lines of one direction, by amount. */
  function Pool(lines: seq<Row>, credit: bool): seq<Row> {
    if lines == [] then [] else
    var rest := Pool(lines[..|lines| - 1], credit);
    if lines[|lines| - 1].credit == credit then Insert(lines[|lines| - 1], rest) else rest
  }

  lemma {:induction false} PoolIs(lines: seq<Row>, credit: bool)
    ensures ByCents(Pool(lines, credit)) && forall m :: m in Pool(lines, credit) <==> m in lines && m.credit == credit
  {
    if lines != [] {
      var init, l := lines[..|lines| - 1], lines[|lines| - 1];
      PoolIs(init, credit);
      InsertIn(l, Pool(init, credit));
      InsertByCents(l, Pool(init, credit));
      assert forall x :: x in lines <==> x in init || x == l;
    }
  }

  lemma {:induction false} LastOnce(ls: seq<Row>)
    requires NoRepeats(ls) && ls != []
    ensures NoRepeats(ls[..|ls| - 1]) && ls[|ls| - 1] !in ls[..|ls| - 1]
  {
    var init := ls[..|ls| - 1];
    forall i | 0 <= i < |init| ensures init[i] != ls[|init|] {
      assert ls[i] == init[i];
    }
  }

  lemma {:induction false} PoolNoRepeats(lines: seq<Row>, credit: bool)
    requires NoRepeats(lines)
    ensures NoRepeats(Pool(lines, credit))
  {
    if lines != [] {
      LastOnce(lines);
      PoolNoRepeats(lines[..|lines| - 1], credit);
      PoolIs(lines[..|lines| - 1], credit);
      if lines[|lines| - 1].credit == credit { InsertNoRepeats(lines[|lines| - 1], Pool(lines[..|lines| - 1], credit)); }
    }
  }

  lemma {:induction false} NearNoRepeats(r: Row, ls: seq<Row>, dismissed: set<(Id, Id)>)
    requires NoRepeats(ls)
    ensures NoRepeats(Near(r, ls, dismissed))
  {
    if ls != [] {
      LastOnce(ls);
      NearNoRepeats(r, ls[..|ls| - 1], dismissed);
    }
  }

  lemma {:induction false} AsSet(ls: seq<Row>)
    requires NoRepeats(ls)
    ensures |(set m | m in ls)| == |ls|
  {
    if ls != [] {
      var init, l := ls[..|ls| - 1], ls[|ls| - 1];
      LastOnce(ls);
      AsSet(init);
      assert (set m | m in ls) == (set m | m in init) + {l};
    }
  }

  /** Near lines found in the pool are those found in the list. */
  lemma {:induction false} PoolNear(r: Row, lines: seq<Row>, dismissed: set<(Id, Id)>)
    requires NoRepeats(lines)
    ensures SameNear(Near(r, Pool(lines, r.credit), dismissed), r, lines, dismissed)
  {
    var pool := Pool(lines, r.credit);
    PoolIs(lines, r.credit);
    PoolNoRepeats(lines, r.credit);
    NearNoRepeats(r, pool, dismissed);
    NearNoRepeats(r, lines, dismissed);
    var xs, ys := Near(r, pool, dismissed), Near(r, lines, dismissed);
    AsSet(xs);
    AsSet(ys);
    assert (set m | m in xs) == (set m | m in ys);
  }

  /** The first line above the lower edge of the tolerance. */
  method LowerEdge(r: Row, pool: seq<Row>) returns (lo: nat)
    requires ByCents(pool)
    ensures lo <= |pool|
    ensures forall i | 0 <= i < lo :: !InTolerance(r, pool[i])
    ensures forall i | lo <= i < |pool| :: r.cents as real - Tolerance(r.cents) < pool[i].cents as real
  {
    lo := 0;
    var hi, edge := |pool|, r.cents as real - Tolerance(r.cents);
    while lo < hi
      invariant lo <= hi <= |pool|
      invariant forall i | 0 <= i < lo :: pool[i].cents as real <= edge
      invariant forall i | hi <= i < |pool| :: edge < pool[i].cents as real
    {
      var mid := (lo + hi) / 2;
      if pool[mid].cents as real <= edge { lo := mid + 1; } else { hi := mid; }
    }
  }

  lemma {:induction false} NearNone(r: Row, ls: seq<Row>, dismissed: set<(Id, Id)>)
    requires forall m | m in ls :: !InTolerance(r, m)
    ensures Near(r, ls, dismissed) == []
  {
    if ls != [] {
      assert ls[|ls| - 1] in ls && forall m | m in ls[..|ls| - 1] :: m in ls;
      NearNone(r, ls[..|ls| - 1], dismissed);
    }
  }

  lemma {:induction false} NearAppends(r: Row, xs: seq<Row>, ys: seq<Row>, dismissed: set<(Id, Id)>)
    ensures Near(r, xs + ys, dismissed) == Near(r, xs, dismissed) + Near(r, ys, dismissed)
  {
    if ys == [] {
      assert xs + ys == xs;
    } else {
      assert (xs + ys)[..|xs + ys| - 1] == xs + ys[..|ys| - 1];
      NearAppends(r, xs, ys[..|ys| - 1], dismissed);
    }
  }

  lemma {:induction false} ScanStops(r: Row, xs: seq<Row>, ys: seq<Row>)
    requires ScanAll(r, xs).saturated
    ensures ScanAll(r, xs + ys) == ScanAll(r, xs)
  {
    if ys == [] {
      assert xs + ys == xs;
    } else {
      assert (xs + ys)[..|xs + ys| - 1] == xs + ys[..|ys| - 1];
      ScanStops(r, xs, ys[..|ys| - 1]);
    }
  }

  /** What a scan has after the first `i` lines of the pool. */
  function UpTo(r: Row, pool: seq<Row>, i: nat, dismissed: set<(Id, Id)>): Scan
    requires i <= |pool|
  {
    ScanAll(r, Near(r, pool[..i], dismissed))
  }

  lemma {:induction false} NoneInTolerance(r: Row, pool: seq<Row>, i: nat)
    requires ByCents(pool) && i <= |pool| && (i == |pool| || (pool[i].cents as real) >= r.cents as real + Tolerance(r.cents))
    ensures forall m | m in pool[i..] :: !InTolerance(r, m)
  {
    forall m | m in pool[i..] ensures !InTolerance(r, m) {
      var j :| 0 <= j < |pool[i..]| && pool[i..][j] == m;
      assert pool[i + j] == m && pool[i].cents <= pool[i + j].cents;
    }
  }

  lemma {:induction false} NearSplits(r: Row, pool: seq<Row>, i: nat, dismissed: set<(Id, Id)>)
    requires i <= |pool|
    ensures Near(r, pool, dismissed) == Near(r, pool[..i], dismissed) + Near(r, pool[i..], dismissed)
  {
    assert pool == pool[..i] + pool[i..];
    NearAppends(r, pool[..i], pool[i..], dismissed);
  }

  /** Where the scan stopped, nothing that follows would change it. */
  lemma {:induction false} LookDone(r: Row, pool: seq<Row>, i: nat, dismissed: set<(Id, Id)>)
    requires ByCents(pool) && i <= |pool|
    requires UpTo(r, pool, i, dismissed).saturated || i == |pool| || (pool[i].cents as real) >= r.cents as real + Tolerance(r.cents)
    ensures ScanAll(r, Near(r, pool, dismissed)) == UpTo(r, pool, i, dismissed)
  {
    var xs, ys := Near(r, pool[..i], dismissed), Near(r, pool[i..], dismissed);
    NearSplits(r, pool, i, dismissed);
    if ScanAll(r, xs).saturated {
      ScanStops(r, xs, ys);
    } else {
      NoneInTolerance(r, pool, i);
      NearNone(r, pool[i..], dismissed);
      assert xs + [] == xs;
    }
  }

  lemma {:induction false} LookFirst(r: Row, pool: seq<Row>, lo: nat, dismissed: set<(Id, Id)>)
    requires lo <= |pool| && forall i | 0 <= i < lo :: !InTolerance(r, pool[i])
    ensures UpTo(r, pool, lo, dismissed) == START
  {
    forall m | m in pool[..lo] ensures !InTolerance(r, m) {
      var j :| 0 <= j < lo && pool[j] == m;
    }
    NearNone(r, pool[..lo], dismissed);
  }

  lemma {:induction false} LookNext(r: Row, pool: seq<Row>, i: nat, dismissed: set<(Id, Id)>)
    requires i < |pool| && pool[i].credit == r.credit && InTolerance(r, pool[i])
    ensures UpTo(r, pool, i + 1, dismissed)
         == if (r.id, pool[i].id) in dismissed then UpTo(r, pool, i, dismissed) else Scanned(UpTo(r, pool, i, dismissed), r, pool[i])
  {
    var near := Near(r, pool[..i], dismissed);
    assert pool[..i + 1][..i] == pool[..i];
    assert (near + [pool[i]])[..|near|] == near;
  }

  /** The scan of one receipt: from the lower edge up to the upper, skipping dismissed lines, and giving up past the cap. It
      sees exactly the near lines, in the order of the pool. */
  method Look(r: Row, pool: seq<Row>, dismissed: set<(Id, Id)>) returns (s: Scan)
    requires ByCents(pool) && forall m | m in pool :: m.credit == r.credit
    ensures s == ScanAll(r, Near(r, pool, dismissed))
  {
    var lo := LowerEdge(r, pool);
    LookFirst(r, pool, lo, dismissed);
    var i;
    s, i := ScanFrom(r, pool, lo, dismissed);
    LookDone(r, pool, i, dismissed);
  }

  method ScanFrom(r: Row, pool: seq<Row>, lo: nat, dismissed: set<(Id, Id)>) returns (s: Scan, i: nat)
    requires lo <= |pool| && UpTo(r, pool, lo, dismissed) == START
    requires forall j | lo <= j < |pool| :: pool[j].credit == r.credit && r.cents as real - Tolerance(r.cents) < pool[j].cents as real
    ensures i <= |pool| && s == UpTo(r, pool, i, dismissed)
    ensures s.saturated || i == |pool| || (pool[i].cents as real) >= r.cents as real + Tolerance(r.cents)
  {
    s, i := START, lo;
    while i < |pool| && (pool[i].cents as real) < r.cents as real + Tolerance(r.cents) && !s.saturated
      invariant lo <= i <= |pool| && s == UpTo(r, pool, i, dismissed)
    {
      LookNext(r, pool, i, dismissed);
      if (r.id, pool[i].id) !in dismissed { s := Scanned(s, r, pool[i]); }
      i := i + 1;
    }
  }

  // ── Lines never scored ──────────────────────────────────────────────────────────────────────────────

  /** How many lines of the pool were rejected for the receipt. */
  function Rejected(r: Row, pool: seq<Row>, dismissed: set<(Id, Id)>): nat {
    if pool == [] then 0 else Rejected(r, pool[..|pool| - 1], dismissed) + if (r.id, pool[|pool| - 1].id) in dismissed then 1 else 0
  }

  /** Counting tells whether some rival was never scored. */
  lemma {:induction false} FarByCount(r: Row, pool: seq<Row>, dismissed: set<(Id, Id)>)
    requires forall m | m in pool :: m.credit == r.credit
    ensures |Near(r, pool, dismissed)| + Rejected(r, pool, dismissed) <= |pool|
    ensures |pool| - Rejected(r, pool, dismissed) > |Near(r, pool, dismissed)| <==> SomeFar(r, pool, dismissed)
  {
    if pool != [] {
      var init, m := pool[..|pool| - 1], pool[|pool| - 1];
      assert m in pool && forall x :: x in pool <==> x in init || x == m;
      FarByCount(r, init, dismissed);
    }
  }

  // ── All receipts ────────────────────────────────────────────────────────────────────────────────────

  function ScanOf(r: Row, lines: seq<Row>, dismissed: set<(Id, Id)>): Scan { ScanAll(r, Near(r, Pool(lines, r.credit), dismissed)) }

  function PickOf(r: Row, lines: seq<Row>, dismissed: set<(Id, Id)>, cfg: Config): Option<Row> {
    Pick(ScanOf(r, lines, dismissed), r, SomeFar(r, Pool(lines, r.credit), dismissed), cfg)
  }

  function Picks(rs: seq<Row>, lines: seq<Row>, dismissed: set<(Id, Id)>, cfg: Config): (picks: seq<(Row, Row)>)
    ensures forall p :: p in picks <==> p.0 in rs && PickOf(p.0, lines, dismissed, cfg) == Some(p.1)
  {
    if rs == [] then [] else
    var init, r := rs[..|rs| - 1], rs[|rs| - 1];
    assert forall x :: x in rs <==> x in init || x == r;
    var rest, pick := Picks(init, lines, dismissed, cfg), PickOf(r, lines, dismissed, cfg);
    if pick.Some? then rest + [(r, pick.value)] else rest
  }

  function Claims(picks: seq<(Row, Row)>, id: Id): nat {
    if picks == [] then 0 else Claims(picks[..|picks| - 1], id) + if picks[|picks| - 1].1.id == id then 1 else 0
  }

  function Unclaimed(picks: seq<(Row, Row)>, all: seq<(Row, Row)>): (out: seq<(Id, Id)>)
    ensures forall p :: p in out <==> exists q | q in picks :: Claims(all, q.1.id) <= 1 && p == (q.0.id, q.1.id)
  {
    if picks == [] then [] else
    var init, q := picks[..|picks| - 1], picks[|picks| - 1];
    assert forall x :: x in picks <==> x in init || x == q;
    if Claims(all, q.1.id) > 1 then Unclaimed(init, all) else Unclaimed(init, all) + [(q.0.id, q.1.id)]
  }

  function Proposals(rs: seq<Row>, lines: seq<Row>, dismissed: set<(Id, Id)>, cfg: Config): seq<(Id, Id)> {
    Unclaimed(Picks(rs, lines, dismissed, cfg), Picks(rs, lines, dismissed, cfg))
  }

  predicate HasNoLine(r: Row, lines: seq<Row>, dismissed: set<(Id, Id)>, cfg: Config) {
    var s := ScanOf(r, lines, dismissed);
    !s.saturated && PickOf(r, lines, dismissed, cfg) == None && s.inYear == 0 && s.any == 0 && r.inFy
  }

  /** proposeMatches: a pick for each receipt, then the lines two receipts both want are proposed to neither. */
  method ProposeMatches(receipts: seq<Row>, lines: seq<Row>, dismissed: set<(Id, Id)>, cfg: Config)
    returns (proposals: seq<(Id, Id)>, noLine: seq<Id>)
    ensures proposals == Proposals(receipts, lines, dismissed, cfg)
    ensures forall id :: id in noLine <==> exists r | r in receipts :: r.id == id && HasNoLine(r, lines, dismissed, cfg)
  {
    PoolIs(lines, true);
    PoolIs(lines, false);
    var money, spend := Pool(lines, true), Pool(lines, false);
    var picks: seq<(Row, Row)> := [];
    noLine := [];
    for i := 0 to |receipts|
      invariant picks == Picks(receipts[..i], lines, dismissed, cfg)
      invariant forall id :: id in noLine <==> exists r | r in receipts[..i] :: r.id == id && HasNoLine(r, lines, dismissed, cfg)
    {
      var r := receipts[i];
      assert receipts[..i + 1][..i] == receipts[..i];
      assert forall x :: x in receipts[..i + 1] <==> x in receipts[..i] || x == r;
      var pool := if r.credit then money else spend;
      var s := Look(r, pool, dismissed);
      if s.saturated { continue; }
      FarByCount(r, pool, dismissed);
      ScanCounts(r, Near(r, pool, dismissed));
      var far := |pool| - Rejected(r, pool, dismissed) > s.n;
      var pick := Pick(s, r, far, cfg);
      if pick.Some? {
        picks := picks + [(r, pick.value)];
      } else if s.inYear == 0 && s.any == 0 && r.inFy {
        noLine := noLine + [r.id];
      }
    }
    assert receipts[..|receipts|] == receipts;
    proposals := ProposeEach(picks);
  }

  lemma {:induction false} ScanCounts(r: Row, ls: seq<Row>)
    ensures !ScanAll(r, ls).saturated ==> ScanAll(r, ls).n == |ls|
  {
    if ls != [] { ScanCounts(r, ls[..|ls| - 1]); }
  }

  method ProposeEach(picks: seq<(Row, Row)>) returns (proposals: seq<(Id, Id)>)
    ensures proposals == Unclaimed(picks, picks)
  {
    var claims: map<Id, nat> := map[];
    for i := 0 to |picks|
      invariant forall id :: (if id in claims then claims[id] else 0) == Claims(picks[..i], id)
    {
      assert picks[..i + 1][..i] == picks[..i];
      var id := picks[i].1.id;
      claims := claims[id := (if id in claims then claims[id] else 0) + 1];
    }
    assert picks[..|picks|] == picks;
    proposals := [];
    for i := 0 to |picks|
      invariant proposals == Unclaimed(picks[..i], picks)
    {
      assert picks[..i + 1][..i] == picks[..i];
      var id := picks[i].1.id;
      if (if id in claims then claims[id] else 0) <= 1 { proposals := proposals + [(picks[i].0.id, id)]; }
    }
  }

  // ── The fast form means the plain definition ────────────────────────────────────────────────────────

  lemma {:induction false} UniqueIsOnce(rows: seq<Row>)
    requires UniqueIds(rows)
    ensures NoRepeats(rows) && forall a, b | a in rows && b in rows && a.id == b.id :: a == b
  {
  }

  lemma {:induction false} PickOfIff(r: Row, lines: seq<Row>, dismissed: set<(Id, Id)>, cfg: Config, l: Row)
    requires NoRepeats(lines) && cfg.margin > 2.0 * EPS
    ensures PickOf(r, lines, dismissed, cfg) == Some(l) <==> Confident(r, l, lines, dismissed, cfg)
  {
    PoolNear(r, lines, dismissed);
    PoolIs(lines, r.credit);
    assert SomeFar(r, Pool(lines, r.credit), dismissed) <==> SomeFar(r, lines, dismissed);
    PickIff(Near(r, Pool(lines, r.credit), dismissed), r, lines, dismissed, cfg, l);
  }

  lemma {:induction false} ClaimsIs(picks: seq<(Row, Row)>, id: Id)
    ensures Claims(picks, id) == 0 <==> forall p | p in picks :: p.1.id != id
  {
    if picks != [] {
      assert picks[|picks| - 1] in picks && forall p :: p in picks <==> p in picks[..|picks| - 1] || p == picks[|picks| - 1];
      ClaimsIs(picks[..|picks| - 1], id);
    }
  }

  predicate OneEach(picks: seq<(Row, Row)>) {
    forall i, j | 0 <= i < |picks| && 0 <= j < |picks| && picks[i].0 == picks[j].0 :: i == j
  }

  lemma {:induction false} PicksOneEach(rs: seq<Row>, lines: seq<Row>, dismissed: set<(Id, Id)>, cfg: Config)
    requires NoRepeats(rs)
    ensures OneEach(Picks(rs, lines, dismissed, cfg))
  {
    if rs != [] {
      LastOnce(rs);
      var rest := Picks(rs[..|rs| - 1], lines, dismissed, cfg);
      PicksOneEach(rs[..|rs| - 1], lines, dismissed, cfg);
      forall i | 0 <= i < |rest| ensures rest[i].0 != rs[|rs| - 1] { assert rest[i] in rest; }
    }
  }

  /** Each receipt is picked for at most once, so a line claimed once has one receipt. */
  lemma {:induction false} ClaimedOnce(picks: seq<(Row, Row)>, r: Row, l: Row)
    requires OneEach(picks) && (r, l) in picks
    ensures Claims(picks, l.id) <= 1 <==> forall p | p in picks && p.0 != r :: p.1.id != l.id
  {
    var init, q := picks[..|picks| - 1], picks[|picks| - 1];
    assert forall i | 0 <= i < |init| :: init[i] == picks[i] && init[i].0 != q.0;
    assert forall p :: p in picks <==> p in init || p == q;
    ClaimsIs(init, l.id);
    if q == (r, l) {
      assert forall p | p in init :: p.0 != r;
    } else {
      ClaimedOnce(init, r, l);
      assert q.0 != r;
    }
  }

  lemma {:induction false} PickedLine(r: Row, lines: seq<Row>, dismissed: set<(Id, Id)>, cfg: Config, l: Row)
    requires NoRepeats(lines) && cfg.margin > 2.0 * EPS && PickOf(r, lines, dismissed, cfg) == Some(l)
    ensures l in lines
  {
    PickOfIff(r, lines, dismissed, cfg, l);
  }

  lemma {:induction false} SameRow(rows: seq<Row>, a: Row, b: Row)
    requires UniqueIds(rows) && a in rows && b in rows && a.id == b.id
    ensures a == b
  {
    UniqueIsOnce(rows);
  }

  lemma {:induction false} UnclaimedIn(picks: seq<(Row, Row)>, all: seq<(Row, Row)>, receipts: seq<Row>, lines: seq<Row>, r: Row, l: Row)
    requires UniqueIds(receipts) && UniqueIds(lines) && r in receipts && l in lines
    requires forall p | p in picks :: p.0 in receipts && p.1 in lines
    ensures (r.id, l.id) in Unclaimed(picks, all) <==> (r, l) in picks && Claims(all, l.id) <= 1
  {
    if (r.id, l.id) in Unclaimed(picks, all) {
      var p :| p in picks && Claims(all, p.1.id) <= 1 && (r.id, l.id) == (p.0.id, p.1.id);
      SameRow(receipts, p.0, r);
      SameRow(lines, p.1, l);
      assert p == (r, l);
    }
  }

  lemma {:induction false} InProposals(receipts: seq<Row>, lines: seq<Row>, dismissed: set<(Id, Id)>, cfg: Config, r: Row, l: Row)
    requires UniqueIds(receipts) && UniqueIds(lines) && cfg.margin > 2.0 * EPS && r in receipts && l in lines
    ensures (r.id, l.id) in Proposals(receipts, lines, dismissed, cfg)
      <==> (r, l) in Picks(receipts, lines, dismissed, cfg) && Claims(Picks(receipts, lines, dismissed, cfg), l.id) <= 1
  {
    UniqueIsOnce(lines);
    var picks := Picks(receipts, lines, dismissed, cfg);
    forall p | p in picks ensures p.0 in receipts && p.1 in lines { PickedLine(p.0, lines, dismissed, cfg, p.1); }
    UnclaimedIn(picks, picks, receipts, lines, r, l);
  }

  lemma {:induction false} ClaimedIff(receipts: seq<Row>, lines: seq<Row>, dismissed: set<(Id, Id)>, cfg: Config, r: Row, l: Row)
    requires UniqueIds(receipts) && UniqueIds(lines) && cfg.margin > 2.0 * EPS && r in receipts && l in lines
    requires (r, l) in Picks(receipts, lines, dismissed, cfg)
    ensures Claims(Picks(receipts, lines, dismissed, cfg), l.id) <= 1 <==> OnlyOne(r, l, receipts, lines, dismissed, cfg)
  {
    UniqueIsOnce(receipts);
    UniqueIsOnce(lines);
    var picks := Picks(receipts, lines, dismissed, cfg);
    PicksOneEach(receipts, lines, dismissed, cfg);
    ClaimedOnce(picks, r, l);
    forall p | p in picks && p.0 != r ensures p.1.id == l.id <==> p.1 == l {
      PickedLine(p.0, lines, dismissed, cfg, p.1);
      if p.1.id == l.id { SameRow(lines, p.1, l); }
    }
    forall q | q in receipts ensures Confident(q, l, lines, dismissed, cfg) <==> (q, l) in picks {
      PickOfIff(q, lines, dismissed, cfg, l);
    }
  }

  /**
   * A pair is proposed if and only if the line is the receipt's confident match and no other receipt's: whatever the lines,
   * their order, the dismissals and the bar, for any margin above rounding.
   */
  lemma {:induction false} ProposedIff(receipts: seq<Row>, lines: seq<Row>, dismissed: set<(Id, Id)>, cfg: Config, r: Row, l: Row)
    requires UniqueIds(receipts) && UniqueIds(lines) && cfg.margin > 2.0 * EPS && r in receipts && l in lines
    ensures (r.id, l.id) in Proposals(receipts, lines, dismissed, cfg)
      <==> Confident(r, l, lines, dismissed, cfg) && OnlyOne(r, l, receipts, lines, dismissed, cfg)
  {
    UniqueIsOnce(lines);
    InProposals(receipts, lines, dismissed, cfg, r, l);
    PickOfIff(r, lines, dismissed, cfg, l);
    if (r, l) in Picks(receipts, lines, dismissed, cfg) { ClaimedIff(receipts, lines, dismissed, cfg, r, l); }
  }

  /** Proposals are one to one, and never a dismissed pair. */
  lemma {:induction false} ProposalsOneToOne(receipts: seq<Row>, lines: seq<Row>, dismissed: set<(Id, Id)>, cfg: Config, p: (Id, Id), q: (Id, Id))
    requires UniqueIds(receipts) && UniqueIds(lines) && cfg.margin > 2.0 * EPS
    requires p in Proposals(receipts, lines, dismissed, cfg) && q in Proposals(receipts, lines, dismissed, cfg)
    ensures p !in dismissed && (p.0 == q.0 <==> p.1 == q.1)
  {
    var r, l := ProposedRows(receipts, lines, dismissed, cfg, p);
    var s, m := ProposedRows(receipts, lines, dismissed, cfg, q);
    ProposedIff(receipts, lines, dismissed, cfg, r, l);
    ProposedIff(receipts, lines, dismissed, cfg, s, m);
    UniqueIsOnce(receipts);
    UniqueIsOnce(lines);
    if p.0 == q.0 {
      PickOfIff(r, lines, dismissed, cfg, l);
      PickOfIff(r, lines, dismissed, cfg, m);
    }
  }

  lemma {:induction false} ProposedRows(receipts: seq<Row>, lines: seq<Row>, dismissed: set<(Id, Id)>, cfg: Config, p: (Id, Id)) returns (r: Row, l: Row)
    requires NoRepeats(lines) && cfg.margin > 2.0 * EPS && p in Proposals(receipts, lines, dismissed, cfg)
    ensures r in receipts && l in lines && p == (r.id, l.id)
  {
    var picks := Picks(receipts, lines, dismissed, cfg);
    var x :| x in picks && Claims(picks, x.1.id) <= 1 && p == (x.0.id, x.1.id);
    r, l := x.0, x.1;
    PickOfIff(r, lines, dismissed, cfg, l);
  }

  /** A receipt is listed as having no bank line exactly when it is in the year, few enough lines are near it in amount, and
      none of those is within a week of it. */
  lemma {:induction false} NoLineIff(r: Row, lines: seq<Row>, dismissed: set<(Id, Id)>, cfg: Config)
    requires NoRepeats(lines)
    ensures HasNoLine(r, lines, dismissed, cfg)
      <==> r.inFy && |Near(r, lines, dismissed)| <= 64 && forall m | m in Near(r, lines, dismissed) :: !Plausible(r, m)
  {
    PoolNear(r, lines, dismissed);
    var near := Near(r, Pool(lines, r.credit), dismissed);
    ScanFinds(r, near);
    assert forall m :: m in near <==> m in Near(r, lines, dismissed);
  }

  // ── What a proposal means, and when there must be one ───────────────────────────────────────────────

  const DEFAULT := Config(0.85, 0.15)

  /** A proposed pair runs the same way, was not rejected, is dated within six days, and the line is in the year, with an amount
      inside the tolerance; no other line that could have been meant is within the margin of it. */
  lemma {:induction false} ProposedMeans(receipts: seq<Row>, lines: seq<Row>, dismissed: set<(Id, Id)>, cfg: Config, r: Row, l: Row)
    requires UniqueIds(receipts) && UniqueIds(lines) && cfg.margin > 2.0 * EPS && r in receipts && l in lines
    requires (r.id, l.id) in Proposals(receipts, lines, dismissed, cfg)
    ensures l.credit == r.credit && (r.id, l.id) !in dismissed && l.inFy && 100 * Gap(r, l) < Whole(r)
    ensures r.day.Some? && l.day.Some? && r.day.value - 6 <= l.day.value <= r.day.value + 6
    ensures Score(r, l) >= cfg.minScore - EPS && |Near(r, lines, dismissed)| <= 64
    ensures forall m | m in lines && m != l && m.credit == r.credit && (r.id, m.id) !in dismissed :: Score(r, m) <= Score(r, l) - cfg.margin + EPS
  {
    ProposedIff(receipts, lines, dismissed, cfg, r, l);
    Share(r, l);
    forall m | m in lines && m != l && m.credit == r.credit && (r.id, m.id) !in dismissed
      ensures Score(r, m) <= Score(r, l) - cfg.margin + EPS
    {
      ConfidentBeatsAll(r, l, m, lines, dismissed, cfg);
    }
  }

  lemma {:induction false} AlikeScores(r: Row, l: Row, m: Row)
    requires l.cents == m.cents && l.day == m.day
    ensures Score(r, l) == Score(r, m)
  {
  }

  /** So of two lines alike in amount and date, either of which could be meant, neither is proposed. */
  lemma {:induction false} TwinsNotProposed(receipts: seq<Row>, lines: seq<Row>, dismissed: set<(Id, Id)>, cfg: Config, r: Row, l: Row, m: Row)
    requires UniqueIds(receipts) && UniqueIds(lines) && cfg.margin > 2.0 * EPS && r in receipts && l in lines && m in lines && l != m
    requires l.cents == m.cents && l.day == m.day && l.credit == m.credit && (r.id, l.id) !in dismissed && (r.id, m.id) !in dismissed
    ensures (r.id, l.id) !in Proposals(receipts, lines, dismissed, cfg)
  {
    if (r.id, l.id) in Proposals(receipts, lines, dismissed, cfg) {
      ProposedIff(receipts, lines, dismissed, cfg, r, l);
      ConfidentBeatsAll(r, l, m, lines, dismissed, cfg);
      AlikeScores(r, l, m);
    }
  }

  /** A line of the receipt's own amount and day, in the year, is proposed by default when nothing competes: no other line the
      receipt could mean is closer than the tolerance, and no other receipt could mean the line. */
  lemma {:induction false} ExactMatchProposed(receipts: seq<Row>, lines: seq<Row>, dismissed: set<(Id, Id)>, r: Row, l: Row)
    requires UniqueIds(receipts) && UniqueIds(lines) && r in receipts && l in lines
    requires l.credit == r.credit && (r.id, l.id) !in dismissed && l.inFy && l.cents == r.cents && r.day.Some? && l.day == r.day
    requires forall m | m in lines && m != l && m.credit == r.credit && (r.id, m.id) !in dismissed :: 100 * Gap(r, m) >= Whole(r)
    requires forall q | q in receipts && q != r :: q.credit != l.credit || (q.id, l.id) in dismissed || 100 * Gap(q, l) >= Whole(q)
    ensures (r.id, l.id) in Proposals(receipts, lines, dismissed, DEFAULT)
  {
    UniqueIsOnce(lines);
    SameDaySameAmount(r, l);
    forall m | m in lines && m != l && m.credit == r.credit && (r.id, m.id) !in dismissed ensures !InTolerance(r, m) { Share(r, m); }
    OneNear(r, l, lines, dismissed);
    forall q | q in receipts && q != r ensures !Confident(q, l, lines, dismissed, DEFAULT) { Share(q, l); }
    ProposedIff(receipts, lines, dismissed, DEFAULT, r, l);
  }

  lemma {:induction false} OneNear(r: Row, l: Row, lines: seq<Row>, dismissed: set<(Id, Id)>)
    requires NoRepeats(lines) && forall m | m in lines && m != l && Rival(r, m, dismissed) :: !InTolerance(r, m)
    ensures |Near(r, lines, dismissed)| <= 1
  {
    var near := Near(r, lines, dismissed);
    NearNoRepeats(r, lines, dismissed);
    AsSet(near);
    assert (set m | m in near) == if l in near then {l} else {};
  }

  /** A pair the user undid is never proposed again, after any run of links, undos and edits. */
  lemma {:induction false} UndonePairNeverProposed(d: RL.Desk, acts: seq<RL.Act>, r: Id, l: Id, receipts: seq<Row>, lines: seq<Row>, cfg: Config)
    requires RL.On(d, r, l) && RL.Runs(RL.Undone(d, r), acts)
    requires UniqueIds(receipts) && UniqueIds(lines) && cfg.margin > 2.0 * EPS
    ensures (r, l) !in Proposals(receipts, lines, RL.After(RL.Undone(d, r), acts).dismissed, cfg)
  {
    RL.DismissedStays(RL.Undone(d, r), acts, r, l);
    var dismissed := RL.After(RL.Undone(d, r), acts).dismissed;
    if (r, l) in Proposals(receipts, lines, dismissed, cfg) { ProposalsOneToOne(receipts, lines, dismissed, cfg, (r, l), (r, l)); }
  }
}
