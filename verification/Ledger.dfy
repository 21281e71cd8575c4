/**
 * The statement ledger (src/lib/minimise.ts, and confirmImport and deleteStatement in src/agent.ts): lines are posted
 * once by fingerprint, irrelevant ones are later folded into rollups and tombstones, and a purge forgets a statement.
 *
 * A table is a sequence of rows. Dates are ISO days as numbers (20250701), `created` and cutoffs are instants, money
 * is integer cents. The financial year is Australia's, 1 July to 30 June, named by the calendar year it starts in.
 */
module Ledger {
  import opened Options
  import opened Fingerprint

  type Id = string

  // ── Rows ────────────────────────────────────────────────────────────────────────────────────────────

  datatype Kind = BankLine | Receipt | OtherKind
  datatype Source = Statement | CdrFeed | OtherSource
  datatype Status = NeedsReview | NeedsExtraction | Duplicate | Ignored | OtherStatus
  datatype Bucket = Payg | Company | Asset | Unknown | OtherBucket
  datatype Verdict = Undetermined | LikelyNot | ConfirmedNot | Suggested | NeedsApportionment | ConfirmedDeductible | OtherVerdict
  datatype Relevance = Irrelevant | WorthALook | Relevant

  /** The columns of a row that the user, the categoriser and the matchers change. */
  datatype Tags = Tags(
    status: Status, bucket: Option<Bucket>, verdict: Option<Verdict>, relevance: Option<Relevance>, reimbursed: bool,
    claim: Option<int>, gst: Option<int>, asset: Option<Id>, property: Option<Id>, matchedTxn: Option<Id>,
    matchedIncome: Option<Id>, refundFor: Option<Id>, duplicateOf: Option<Id>, receiptKey: Option<Id>,
    document: Option<Id>, payer: Option<Id>)

  /** The remaining columns are written when the row is posted and stay as they are. */
  datatype Row = Row(
    id: Id, kind: Kind, source: Source, account: Option<Id>, statement: Option<Id>, fp: Option<Print>,
    date: Option<int>, direction: Option<Direction>, amount: int, aud: Option<int>, foreign: bool, created: int, tags: Tags)

  /** Rows of other tables that point at transactions, and the accounts that are loans. */
  datatype Refs = Refs(loans: set<Id>, claimLinks: set<Id>, attributions: set<Id>, suggestions: set<Id>, holdings: set<Id>, phi: set<Id>)

  datatype Mark = Mark(account: Id, fp: Print)

  datatype RollKey = RollKey(account: Id, statement: Option<Id>, fy: int, direction: Direction)
  datatype Roll = Roll(n: int, total: int, first: Option<int>, last: Option<int>)
  datatype RollRow = RollRow(key: RollKey, roll: Roll)
  datatype Tomb = Tomb(fy: int, statement: Option<Id>)

  datatype Books = Books(rows: seq<Row>, rolls: seq<RollRow>, tombs: map<Mark, Tomb>)

  /** What identifies a posted bank line and never changes. */
  datatype Fact = Fact(id: Id, mark: Mark, statement: Option<Id>, date: int, direction: Direction, amount: int, aud: int) {
    function Key(): RollKey { RollKey(mark.account, statement, FyOf(date), direction) }
    function One(): Roll { Roll(1, aud, Some(date), Some(date)) }
    function ToTomb(): Tomb { Tomb(FyOf(date), statement) }
  }

  predicate IsLine(r: Row) {
    r.kind == BankLine && r.account.Some? && r.fp.Some? && r.date.Some? && r.aud.Some?
  }

  /** A line whose direction was never recorded reads as a debit. */
  function FactOf(r: Row): Fact
    requires IsLine(r)
  {
    Fact(r.id, Mark(r.account.value, r.fp.value), r.statement, r.date.value, r.direction.GetOr(Debit), r.amount, r.aud.value)
  }

  function Lines(rows: seq<Row>): (fs: seq<Fact>)
    ensures forall f :: f in fs <==> exists r | r in rows :: IsLine(r) && FactOf(r) == f
  {
    if rows == [] then [] else
    var init, r := rows[..|rows| - 1], rows[|rows| - 1];
    assert forall x :: x in rows <==> x in init || x == r;
    if IsLine(r) then Lines(init) + [FactOf(r)] else Lines(init)
  }

  // ── Financial years ─────────────────────────────────────────────────────────────────────────────────

  function FyStart(fy: int): int { fy * 10000 + 701 }
  function FyEnd(fy: int): int { (fy + 1) * 10000 + 630 }

  function FyOf(date: int): int { if date % 10000 >= 701 then date / 10000 else date / 10000 - 1 }

  lemma {:induction false} WindowIsFy(date: int, fy: int)
    requires FyStart(fy) <= date <= FyEnd(fy)
    ensures FyOf(date) == fy
  {
    assert date / 10000 == fy || date / 10000 == fy + 1;
  }

  // ── Which rows may shrink ───────────────────────────────────────────────────────────────────────────

  /** Every clause is a reason to keep the row when it fails. */
  predicate Shrinkable(rows: seq<Row>, refs: Refs, r: Row) {
    var t := r.tags;
    && r.kind == BankLine && r.direction == Some(Debit) && r.source != OtherSource
    && r.account.Some? && r.fp.Some? && r.date.Some? && r.aud.Some?
    && (|| (t.bucket == Some(Payg) && t.verdict in {Some(LikelyNot), Some(ConfirmedNot)}
            && t.status !in {NeedsReview, NeedsExtraction, Duplicate})
        || (t.status == Ignored && t.bucket in {None, Some(Payg)}
            && t.verdict in {None, Some(Undetermined), Some(LikelyNot), Some(ConfirmedNot)}))
    && t.relevance in {None, Some(Irrelevant)}
    && !t.reimbursed && t.claim.GetOr(0) == 0 && t.gst.GetOr(0) == 0
    && t.asset == None && t.property == None && Unlinked(t)
    && t.receiptKey == None && t.document == None && t.payer == None
    && r.account.value !in refs.loans
    && !Referenced(rows, r.id)
    && r.id !in refs.claimLinks + refs.attributions + refs.suggestions + refs.holdings + refs.phi
  }

  predicate Unlinked(t: Tags) { t.matchedTxn == None && t.matchedIncome == None && t.refundFor == None && t.duplicateOf == None }

  predicate Points(o: Row, id: Id) { o.tags.matchedTxn == Some(id) || o.tags.refundFor == Some(id) || o.tags.duplicateOf == Some(id) }

  predicate Referenced(rows: seq<Row>, id: Id) { exists o | o in rows :: Points(o, id) }

  /** A lodged year, and the instant a line must have been on file by (60 days before now). */
  datatype Window = Window(fy: int, cutoff: int)

  predicate May(rows: seq<Row>, refs: Refs, w: Window, r: Row) {
    Shrinkable(rows, refs, r) && FyStart(w.fy) <= r.date.value <= FyEnd(w.fy) && r.created <= w.cutoff
  }

  /** The ids of a list that the batch's own re-check picks up. */
  function Picked(rows: seq<Row>, refs: Refs, w: Window, ids: set<Id>): (picked: set<Id>) {
    set r | r in rows && r.id in ids && May(rows, refs, w, r) :: r.id
  }

  function AllIds(rows: seq<Row>): set<Id> { set r | r in rows :: r.id }

  function Without(rows: seq<Row>, gone: set<Id>): (kept: seq<Row>)
    ensures forall r :: r in kept <==> r in rows && r.id !in gone
  {
    if rows == [] then [] else
    var init, r := rows[..|rows| - 1], rows[|rows| - 1];
    assert forall x :: x in rows <==> x in init || x == r;
    if r.id in gone then Without(init, gone) else Without(init, gone) + [r]
  }

  function Only(fs: seq<Fact>, ids: set<Id>): (kept: seq<Fact>)
    ensures forall f :: f in kept <==> f in fs && f.id in ids
  {
    if fs == [] then [] else
    var init, f := fs[..|fs| - 1], fs[|fs| - 1];
    assert forall x :: x in fs <==> x in init || x == f;
    if f.id in ids then Only(init, ids) + [f] else Only(init, ids)
  }

  // ── Rollups: a commutative sum with a date range ────────────────────────────────────────────────────

  const ZERO := Roll(0, 0, None, None)

  function Lower(a: Option<int>, b: Option<int>): Option<int> {
    if a == None then b else if b == None then a else Some(if b.value < a.value then b.value else a.value)
  }

  function Upper(a: Option<int>, b: Option<int>): Option<int> {
    if a == None then b else if b == None then a else Some(if b.value > a.value then b.value else a.value)
  }

  function Plus(a: Roll, b: Roll): Roll { Roll(a.n + b.n, a.total + b.total, Lower(a.first, b.first), Upper(a.last, b.last)) }

  lemma {:induction false} PlusAssociates(a: Roll, b: Roll, c: Roll)
    ensures Plus(Plus(a, b), c) == Plus(a, Plus(b, c)) && Plus(Plus(a, b), c) == Plus(Plus(a, c), b)
  {
  }

  lemma {:induction false} PlusZero(a: Roll)
    ensures Plus(a, ZERO) == a && Plus(ZERO, a) == a
  {
  }

  /** Count, cents and date range of the lines under one key. */
  function Total(fs: seq<Fact>, k: RollKey): Roll {
    if fs == [] then ZERO else Counted(Total(fs[..|fs| - 1], k), fs[|fs| - 1], k)
  }

  function Counted(rest: Roll, f: Fact, k: RollKey): Roll { if f.Key() == k then Plus(rest, f.One()) else rest }

  lemma {:induction false} CountedEither(a: Roll, b: Roll, f: Fact, k: RollKey)
    ensures Counted(Plus(a, b), f, k) == Plus(Counted(a, f, k), b)
    ensures Counted(Plus(a, b), f, k) == Plus(a, Counted(b, f, k))
  {
    PlusAssociates(a, b, f.One());
  }

  lemma {:induction false} TotalSnoc(fs: seq<Fact>, f: Fact, k: RollKey)
    ensures Total(fs + [f], k) == Counted(Total(fs, k), f, k)
  {
    assert (fs + [f])[..|fs|] == fs;
  }

  lemma {:induction false} TotalSplits(fs: seq<Fact>, ids: set<Id>, k: RollKey)
    ensures Total(fs, k) == Plus(Total(Only(fs, ids), k), Total(Except(fs, ids), k))
  {
    if fs == [] {
      PlusZero(ZERO);
    } else {
      var init, f := fs[..|fs| - 1], fs[|fs| - 1];
      TotalSplits(init, ids, k);
      TotalSnoc(Only(init, ids), f, k);
      TotalSnoc(Except(init, ids), f, k);
      CountedEither(Total(Only(init, ids), k), Total(Except(init, ids), k), f, k);
    }
  }

  function Except(fs: seq<Fact>, ids: set<Id>): (kept: seq<Fact>)
    ensures forall f :: f in kept <==> f in fs && f.id !in ids
  {
    if fs == [] then [] else
    var init, f := fs[..|fs| - 1], fs[|fs| - 1];
    assert forall x :: x in fs <==> x in init || x == f;
    if f.id in ids then Except(init, ids) else Except(init, ids) + [f]
  }

  lemma {:induction false} TotalAppends(fs: seq<Fact>, gs: seq<Fact>, k: RollKey)
    ensures Total(fs + gs, k) == Plus(Total(fs, k), Total(gs, k))
  {
    if gs == [] {
      assert fs + gs == fs;
      PlusZero(Total(fs, k));
    } else {
      var init, g := gs[..|gs| - 1], gs[|gs| - 1];
      assert fs + gs == (fs + init) + [g];
      TotalAppends(fs, init, k);
      TotalSnoc(fs + init, g, k);
      CountedEither(Total(fs, k), Total(init, k), g, k);
    }
  }

  lemma {:induction false} LinesWithout(rows: seq<Row>, gone: set<Id>)
    ensures Lines(Without(rows, gone)) == Except(Lines(rows), gone)
  {
    if rows != [] {
      var init, r := rows[..|rows| - 1], rows[|rows| - 1];
      LinesWithout(init, gone);
      if r.id !in gone {
        assert Without(rows, gone)[..|Without(init, gone)|] == Without(init, gone);
      }
      if IsLine(r) {
        assert Lines(rows)[..|Lines(init)|] == Lines(init);
      }
    }
  }

  // ── The rollup table ────────────────────────────────────────────────────────────────────────────────

  function RollAt(rolls: seq<RollRow>, k: RollKey): Roll {
    if rolls == [] then ZERO else
    var r := rolls[|rolls| - 1];
    if r.key == k then r.roll else RollAt(rolls[..|rolls| - 1], k)
  }

  predicate HasKey(rolls: seq<RollRow>, k: RollKey) { exists r | r in rolls :: r.key == k }

  predicate UniqueKeys(rolls: seq<RollRow>) { forall i, j | 0 <= i < j < |rolls| :: rolls[i].key != rolls[j].key }

  /** INSERT ... WHERE NOT EXISTS: a rollup of zero lines. */
  function Ensured(rolls: seq<RollRow>, k: RollKey): seq<RollRow> {
    if HasKey(rolls, k) then rolls else rolls + [RollRow(k, ZERO)]
  }

  /** UPDATE ... SET n = n + c, ... WHERE key = k. */
  function Added(rolls: seq<RollRow>, k: RollKey, x: Roll): (out: seq<RollRow>)
    ensures |out| == |rolls| && forall i | 0 <= i < |rolls| :: out[i].key == rolls[i].key
  {
    if rolls == [] then [] else
    var r := rolls[|rolls| - 1];
    Added(rolls[..|rolls| - 1], k, x) + [Bumped(r, k, x)]
  }

  lemma {:induction false} AddedAt(rolls: seq<RollRow>, k: RollKey, x: Roll, q: RollKey)
    requires HasKey(rolls, k)
    ensures RollAt(Added(rolls, k, x), q) == if q == k then Plus(RollAt(rolls, k), x) else RollAt(rolls, q)
  {
    if rolls != [] {
      var init, r := rolls[..|rolls| - 1], rolls[|rolls| - 1];
      assert Added(rolls, k, x)[..|init|] == Added(init, k, x);
      if r.key != k {
        var h :| h in rolls && h.key == k;
        assert h in init;
        AddedAt(init, k, x, q);
      } else if q != k {
        AddedElsewhere(init, k, x, q);
      }
    }
  }

  lemma {:induction false} AddedElsewhere(rolls: seq<RollRow>, k: RollKey, x: Roll, q: RollKey)
    requires q != k
    ensures RollAt(Added(rolls, k, x), q) == RollAt(rolls, q)
  {
    if rolls != [] {
      var init := rolls[..|rolls| - 1];
      assert Added(rolls, k, x)[..|init|] == Added(init, k, x);
      AddedElsewhere(init, k, x, q);
    }
  }

  lemma {:induction false} AbsentIsZero(rolls: seq<RollRow>, k: RollKey)
    requires !HasKey(rolls, k)
    ensures RollAt(rolls, k) == ZERO
  {
    if rolls != [] {
      assert rolls[|rolls| - 1] in rolls;
      var init := rolls[..|rolls| - 1];
      assert forall r | r in init :: r in rolls;
      AbsentIsZero(init, k);
    }
  }

  /** The two statements of one group: ensure the rollup exists, then add the lines picked for it, if any. */
  function Folded(rolls: seq<RollRow>, k: RollKey, x: Roll): seq<RollRow> {
    var with := Ensured(rolls, k);
    if x.n > 0 then Added(with, k, x) else with
  }

  lemma {:induction false} EnsuredAt(rolls: seq<RollRow>, k: RollKey, q: RollKey)
    requires UniqueKeys(rolls)
    ensures UniqueKeys(Ensured(rolls, k)) && HasKey(Ensured(rolls, k), k)
    ensures RollAt(Ensured(rolls, k), q) == RollAt(rolls, q)
  {
    if !HasKey(rolls, k) {
      var all := rolls + [RollRow(k, ZERO)];
      AbsentIsZero(rolls, k);
      assert all[..|rolls|] == rolls && all[|rolls|].key == k && all[|rolls|] in all;
      forall i | 0 <= i < |rolls| ensures all[i].key != k {
        assert rolls[i] in rolls;
      }
    }
  }

  lemma {:induction false} FoldedUnique(rolls: seq<RollRow>, k: RollKey, x: Roll)
    requires UniqueKeys(rolls)
    ensures UniqueKeys(Folded(rolls, k, x))
  {
    EnsuredAt(rolls, k, k);
  }

  lemma {:induction false} FoldedAt(rolls: seq<RollRow>, k: RollKey, x: Roll, q: RollKey)
    requires UniqueKeys(rolls) && (x.n <= 0 ==> x == ZERO)
    ensures RollAt(Folded(rolls, k, x), q) == if q == k then Plus(RollAt(rolls, k), x) else RollAt(rolls, q)
  {
    var with := Ensured(rolls, k);
    EnsuredAt(rolls, k, q);
    if x.n > 0 {
      AddedAt(with, k, x, q);
    } else {
      PlusZero(RollAt(rolls, k));
    }
  }

  // ── A statement's own sums, live and rolled up ──────────────────────────────────────────────────────

  /** The two sums a statement row reads: how many lines, and their signed cents. */
  datatype Measure = Count | Cents

  function Signed(d: Direction, cents: int): int { if d == Credit then cents else -cents }

  function ShareOf(k: RollKey, x: Roll, s: Id, m: Measure): int {
    if k.statement != Some(s) then 0 else if m == Count then x.n else Signed(k.direction, x.total)
  }

  /** SUM(n), or the signed SUM(total_cents), of a statement's rollups. */
  function RolledUp(rolls: seq<RollRow>, s: Id, m: Measure): int {
    if rolls == [] then 0 else
    var r := rolls[|rolls| - 1];
    RolledUp(rolls[..|rolls| - 1], s, m) + ShareOf(r.key, r.roll, s, m)
  }

  function FactShare(f: Fact, s: Id, m: Measure): int {
    if f.statement != Some(s) then 0 else if m == Count then 1 else Signed(f.direction, f.aud)
  }

  function Posted(fs: seq<Fact>, s: Id, m: Measure): int {
    if fs == [] then 0 else Posted(fs[..|fs| - 1], s, m) + FactShare(fs[|fs| - 1], s, m)
  }

  lemma {:induction false} AddedNothing(rolls: seq<RollRow>, k: RollKey, x: Roll)
    requires !HasKey(rolls, k)
    ensures Added(rolls, k, x) == rolls
  {
    if rolls != [] {
      var init := rolls[..|rolls| - 1];
      assert rolls[|rolls| - 1] in rolls && forall r | r in init :: r in rolls;
      AddedNothing(init, k, x);
    }
  }

  function Bumped(r: RollRow, k: RollKey, x: Roll): RollRow { if r.key == k then RollRow(k, Plus(r.roll, x)) else r }

  lemma {:induction false} BumpedTally(r: RollRow, k: RollKey, x: Roll, s: Id, m: Measure)
    ensures ShareOf(r.key, Bumped(r, k, x).roll, s, m) == if r.key == k then ShareOf(r.key, r.roll, s, m) + ShareOf(k, x, s, m) else ShareOf(r.key, r.roll, s, m)
  {
  }

  lemma {:induction false} UniqueInit(rolls: seq<RollRow>)
    requires rolls != [] && UniqueKeys(rolls)
    ensures UniqueKeys(rolls[..|rolls| - 1]) && !HasKey(rolls[..|rolls| - 1], rolls[|rolls| - 1].key)
  {
    var init := rolls[..|rolls| - 1];
    forall h | h in init ensures h.key != rolls[|init|].key {
      var i :| 0 <= i < |init| && init[i] == h;
      assert rolls[i].key != rolls[|init|].key;
    }
  }

  lemma {:induction false} RolledSnoc(rolls: seq<RollRow>, r: RollRow, s: Id, m: Measure)
    ensures RolledUp(rolls + [r], s, m) == RolledUp(rolls, s, m) + ShareOf(r.key, r.roll, s, m)
  {
    assert (rolls + [r])[..|rolls|] == rolls;
  }

  lemma {:induction false} AddedTally(rolls: seq<RollRow>, k: RollKey, x: Roll, s: Id, m: Measure)
    requires HasKey(rolls, k) && UniqueKeys(rolls)
    ensures RolledUp(Added(rolls, k, x), s, m) == RolledUp(rolls, s, m) + ShareOf(k, x, s, m)
  {
    var init, r := rolls[..|rolls| - 1], rolls[|rolls| - 1];
    UniqueInit(rolls);
    assert Added(rolls, k, x) == Added(init, k, x) + [Bumped(r, k, x)];
    RolledSnoc(Added(init, k, x), Bumped(r, k, x), s, m);
    BumpedTally(r, k, x, s, m);
    if r.key == k {
      AddedNothing(init, k, x);
    } else {
      KeyInInit(rolls, k);
      AddedTally(init, k, x, s, m);
    }
  }

  lemma {:induction false} KeyInInit(rolls: seq<RollRow>, k: RollKey)
    requires HasKey(rolls, k) && rolls[|rolls| - 1].key != k
    ensures HasKey(rolls[..|rolls| - 1], k)
  {
    var h :| h in rolls && h.key == k;
    assert h in rolls[..|rolls| - 1];
  }

  lemma {:induction false} EnsuredTally(rolls: seq<RollRow>, k: RollKey, s: Id, m: Measure)
    ensures RolledUp(Ensured(rolls, k), s, m) == RolledUp(rolls, s, m)
  {
    RolledSnoc(rolls, RollRow(k, ZERO), s, m);
  }

  lemma {:induction false} FoldedTally(rolls: seq<RollRow>, k: RollKey, x: Roll, s: Id, m: Measure)
    requires UniqueKeys(rolls) && (x.n <= 0 ==> x == ZERO)
    ensures RolledUp(Folded(rolls, k, x), s, m) == RolledUp(rolls, s, m) + ShareOf(k, x, s, m)
  {
    var with := Ensured(rolls, k);
    EnsuredTally(rolls, k, s, m);
    EnsuredAt(rolls, k, k);
    if x.n > 0 {
      AddedTally(with, k, x, s, m);
    } else {
      assert ShareOf(k, ZERO, s, m) == 0;
    }
  }

  // ── Shrinking a set of lines ────────────────────────────────────────────────────────────────────────

  /** INSERT OR IGNORE, one line after another. */
  function Tombed(tombs: map<Mark, Tomb>, fs: seq<Fact>): map<Mark, Tomb> {
    if fs == [] then tombs else
    var t, f := Tombed(tombs, fs[..|fs| - 1]), fs[|fs| - 1];
    if f.mark in t then t else t[f.mark := f.ToTomb()]
  }

  predicate UniqueIds(rows: seq<Row>) { forall i, j | 0 <= i < j < |rows| :: rows[i].id != rows[j].id }

  /** What shrinking the lines `gone` means: they leave the table, every rollup and every statement's rolled-up sums
      grow by exactly their lines, and their fingerprints become tombstones. A rollup of no lines is no different from
      none, so the table is compared through RollAt. */
  ghost predicate IsShrunk(b: Books, c: Books, gone: set<Id>) {
    && c.rows == Without(b.rows, gone)
    && c.tombs == Tombed(b.tombs, Only(Lines(b.rows), gone))
    && UniqueKeys(c.rolls)
    && RollsGrew(b.rolls, c.rolls, Only(Lines(b.rows), gone))
  }

  ghost predicate RollsGrew(before: seq<RollRow>, after: seq<RollRow>, gone: seq<Fact>) {
    && (forall k :: RollAt(after, k) == Plus(RollAt(before, k), Total(gone, k)))
    && forall s, m :: RolledUp(after, s, m) == RolledUp(before, s, m) + Posted(gone, s, m)
  }

  /** COUNT, SUM, MIN and MAX over the picked lines. */
  function Aggregate(fs: seq<Fact>): (x: Roll)
    ensures x.n == |fs| && (x.n == 0 ==> x == ZERO)
  {
    if fs == [] then ZERO else Plus(Aggregate(fs[..|fs| - 1]), fs[|fs| - 1].One())
  }

  function FoldGroups(rolls: seq<RollRow>, order: seq<RollKey>, gone: seq<Fact>): seq<RollRow> {
    if order == [] then rolls else
    var k := order[|order| - 1];
    Folded(FoldGroups(rolls, order[..|order| - 1], gone), k, Total(gone, k))
  }

  function OfKeys(fs: seq<Fact>, keys: seq<RollKey>): (kept: seq<Fact>) {
    if fs == [] then [] else
    var rest, f := OfKeys(fs[..|fs| - 1], keys), fs[|fs| - 1];
    if f.Key() in keys then rest + [f] else rest
  }

  lemma {:induction false} TotalCount(fs: seq<Fact>, k: RollKey)
    ensures Total(fs, k).n >= 0 && (Total(fs, k).n == 0 ==> Total(fs, k) == ZERO)
    ensures (forall f | f in fs :: f.Key() != k) ==> Total(fs, k) == ZERO
  {
    if fs != [] {
      TotalCount(fs[..|fs| - 1], k);
    }
  }

  lemma {:induction false} KeyJoins(fs: seq<Fact>, keys: seq<RollKey>, k: RollKey, s: Id, m: Measure)
    requires k !in keys
    ensures Posted(OfKeys(fs, keys + [k]), s, m) == Posted(OfKeys(fs, keys), s, m) + ShareOf(k, Total(fs, k), s, m)
  {
    if fs == [] {
      assert ShareOf(k, ZERO, s, m) == 0;
    } else {
      var init, f := fs[..|fs| - 1], fs[|fs| - 1];
      KeyJoins(init, keys, k, s, m);
      PostedSnoc(OfKeys(init, keys + [k]), f, s, m);
      PostedSnoc(OfKeys(init, keys), f, s, m);
      ShareCounted(Total(init, k), f, k, s, m);
      assert f.Key() in keys + [k] <==> f.Key() in keys || f.Key() == k;
    }
  }

  lemma {:induction false} ShareCounted(x: Roll, f: Fact, k: RollKey, s: Id, m: Measure)
    ensures ShareOf(k, Counted(x, f, k), s, m) == if f.Key() == k then ShareOf(k, x, s, m) + FactShare(f, s, m) else ShareOf(k, x, s, m)
  {
  }

  lemma {:induction false} PostedSnoc(fs: seq<Fact>, f: Fact, s: Id, m: Measure)
    ensures Posted(fs + [f], s, m) == Posted(fs, s, m) + FactShare(f, s, m)
  {
    assert (fs + [f])[..|fs|] == fs;
  }

  predicate Distinct(order: seq<RollKey>) { forall i, j | 0 <= i < j < |order| :: order[i] != order[j] }

  lemma {:induction false} GroupsUnique(rolls: seq<RollRow>, order: seq<RollKey>, gone: seq<Fact>)
    requires UniqueKeys(rolls)
    ensures UniqueKeys(FoldGroups(rolls, order, gone))
  {
    if order != [] {
      var init, q := order[..|order| - 1], order[|order| - 1];
      GroupsUnique(rolls, init, gone);
      FoldedUnique(FoldGroups(rolls, init, gone), q, Total(gone, q));
    }
  }

  lemma {:induction false} GroupsAt(rolls: seq<RollRow>, order: seq<RollKey>, gone: seq<Fact>, k: RollKey)
    requires UniqueKeys(rolls) && Distinct(order)
    ensures RollAt(FoldGroups(rolls, order, gone), k) == if k in order then Plus(RollAt(rolls, k), Total(gone, k)) else RollAt(rolls, k)
  {
    if order != [] {
      var init, q := order[..|order| - 1], order[|order| - 1];
      GroupsAt(rolls, init, gone, k);
      TotalCount(gone, q);
      GroupsUnique(rolls, init, gone);
      FoldedAt(FoldGroups(rolls, init, gone), q, Total(gone, q), k);
      assert k in order <==> k in init || k == q;
      assert q !in init;
    }
  }

  lemma {:induction false} GroupsTally(rolls: seq<RollRow>, order: seq<RollKey>, gone: seq<Fact>, s: Id, m: Measure)
    requires UniqueKeys(rolls) && Distinct(order)
    ensures RolledUp(FoldGroups(rolls, order, gone), s, m) == RolledUp(rolls, s, m) + Posted(OfKeys(gone, order), s, m)
  {
    if order == [] {
      OfNoKeys(gone);
    } else {
      var init, q := order[..|order| - 1], order[|order| - 1];
      GroupsTally(rolls, init, gone, s, m);
      GroupsUnique(rolls, init, gone);
      TotalCount(gone, q);
      FoldedTally(FoldGroups(rolls, init, gone), q, Total(gone, q), s, m);
      assert init + [q] == order;
      KeyJoins(gone, init, q, s, m);
    }
  }

  lemma {:induction false} OfNoKeys(fs: seq<Fact>)
    ensures OfKeys(fs, []) == []
  {
    if fs != [] {
      OfNoKeys(fs[..|fs| - 1]);
    }
  }

  lemma {:induction false} OfAllKeys(fs: seq<Fact>, keys: seq<RollKey>)
    requires forall f | f in fs :: f.Key() in keys
    ensures OfKeys(fs, keys) == fs
  {
    if fs != [] {
      OfAllKeys(fs[..|fs| - 1], keys);
    }
  }

  /** Folding group by group is folding line by line, when every line's group is among them. */
  lemma {:induction false} GroupsGrow(rolls: seq<RollRow>, order: seq<RollKey>, gone: seq<Fact>)
    requires UniqueKeys(rolls) && Distinct(order) && forall f | f in gone :: f.Key() in order
    ensures UniqueKeys(FoldGroups(rolls, order, gone)) && RollsGrew(rolls, FoldGroups(rolls, order, gone), gone)
  {
    var after := FoldGroups(rolls, order, gone);
    GroupsUnique(rolls, order, gone);
    forall k ensures RollAt(after, k) == Plus(RollAt(rolls, k), Total(gone, k)) {
      GroupsAt(rolls, order, gone, k);
      TotalCount(gone, k);
      PlusZero(RollAt(rolls, k));
    }
    OfAllKeys(gone, order);
    forall s, m ensures RolledUp(after, s, m) == RolledUp(rolls, s, m) + Posted(gone, s, m) {
      GroupsTally(rolls, order, gone, s, m);
    }
  }

  // ── What the rollups and tombstones say, in the columns of the rows that went ───────────────────────

  /** The row was a line of this rollup's account, statement, direction and year, from 1 July to 30 June. */
  predicate Under(r: Row, k: RollKey) {
    && r.account == Some(k.account) && r.statement == k.statement && (r.direction == Some(Credit) <==> k.direction == Credit)
    && r.date.Some? && k.fy * 10000 + 701 <= r.date.value < (k.fy + 1) * 10000 + 701
  }

  /** Sums over the rows that went. */
  function GoneUnder(rows: seq<Row>, gone: set<Id>, k: RollKey, m: Measure): int {
    if rows == [] then 0 else
    var r := rows[|rows| - 1];
    GoneUnder(rows[..|rows| - 1], gone, k, m)
      + if r.id !in gone || !Under(r, k) then 0 else if m == Count then 1 else r.aud.GetOr(0)
  }

  /** `day` is the earliest (or latest) of a day already there and those of the rows that went. */
  ghost predicate IsEnd(day: Option<int>, before: Option<int>, rows: seq<Row>, gone: set<Id>, k: RollKey, latest: bool) {
    && (day == None ==> before == None)
    && (day.Some? ==> before == day || exists r | r in rows :: r.id in gone && Under(r, k) && r.date == day)
    && (before.Some? ==> day.Some? && if latest then before.value <= day.value else day.value <= before.value)
    && forall r | r in rows && r.id in gone && Under(r, k) :: day.Some? && if latest then r.date.value <= day.value else day.value <= r.date.value
  }

  ghost predicate RollMeans(before: Roll, after: Roll, rows: seq<Row>, gone: set<Id>, k: RollKey) {
    && after.n == before.n + GoneUnder(rows, gone, k, Count) && after.total == before.total + GoneUnder(rows, gone, k, Cents)
    && IsEnd(after.first, before.first, rows, gone, k, false) && IsEnd(after.last, before.last, rows, gone, k, true)
  }

  lemma {:induction false} KeyIsUnder(r: Row, k: RollKey)
    requires IsLine(r)
    ensures FactOf(r).Key() == k <==> Under(r, k)
  {
    var d := r.date.value;
    assert FyOf(d) == k.fy <==> k.fy * 10000 + 701 <= d < (k.fy + 1) * 10000 + 701;
    assert r.direction.Some? ==> r.direction.value.Debit? || r.direction.value.Credit?;
    assert k.direction.Debit? || k.direction.Credit?;
  }

  lemma {:induction false} OneMoreMeans(before: Roll, rest: Roll, after: Roll, init: seq<Row>, r: Row, gone: set<Id>, k: RollKey)
    requires RollMeans(before, rest, init, gone, k)
    requires if IsLine(r) && r.id in gone && Under(r, k) then after == Plus(rest, Roll(1, r.aud.value, r.date, r.date)) else after == rest
    requires r.id in gone ==> IsLine(r)
    ensures RollMeans(before, after, init + [r], gone, k)
  {
    assert (init + [r])[..|init|] == init && forall x :: x in init + [r] <==> x in init || x == r;
    if after.first.Some? && after.first != before.first && (rest.first != after.first) { assert r in init + [r]; }
  }

  /** The lines that went, added to a rollup. */
  lemma {:induction false} TotalMeans(before: Roll, rows: seq<Row>, gone: set<Id>, k: RollKey)
    requires forall r | r in rows && r.id in gone :: IsLine(r)
    ensures RollMeans(before, Plus(before, Total(Only(Lines(rows), gone), k)), rows, gone, k)
  {
    if rows == [] {
      PlusZero(before);
    } else {
      var init, r := rows[..|rows| - 1], rows[|rows| - 1];
      assert rows == init + [r] && r in rows && forall x | x in init :: x in rows;
      TotalMeans(before, init, gone, k);
      var rest := Total(Only(Lines(init), gone), k);
      if IsLine(r) {
        KeyIsUnder(r, k);
        assert Lines(rows)[..|Lines(init)|] == Lines(init);
        TotalSnoc(Only(Lines(init), gone), FactOf(r), k);
        PlusAssociates(before, rest, FactOf(r).One());
      }
      OneMoreMeans(before, Plus(before, rest), Plus(before, Total(Only(Lines(rows), gone), k)), init, r, gone, k);
    }
  }

  lemma {:induction false} RollOnFile(rolls: seq<RollRow>, x: RollRow)
    requires UniqueKeys(rolls) && x in rolls
    ensures RollAt(rolls, x.key) == x.roll
  {
    var init := rolls[..|rolls| - 1];
    UniqueInit(rolls);
    if x != rolls[|rolls| - 1] { RollOnFile(init, x); }
  }

  /** A rollup on file after a shrink: its count, cents and first and last day are those of before with the rows that went added,
      and every row that went is in one. */
  lemma {:induction false} RollupsMean(b: Books, c: Books, gone: set<Id>)
    requires IsShrunk(b, c, gone) && forall r | r in b.rows && r.id in gone :: IsLine(r)
    ensures forall x | x in c.rolls :: RollMeans(RollAt(b.rolls, x.key), x.roll, b.rows, gone, x.key)
    ensures forall r | r in b.rows && r.id in gone :: exists x | x in c.rolls :: Under(r, x.key)
  {
    forall x | x in c.rolls ensures RollMeans(RollAt(b.rolls, x.key), x.roll, b.rows, gone, x.key) {
      RollOnFile(c.rolls, x);
      TotalMeans(RollAt(b.rolls, x.key), b.rows, gone, x.key);
    }
    forall r | r in b.rows && r.id in gone ensures exists x | x in c.rolls :: Under(r, x.key) {
      var k := FactOf(r).Key();
      KeyIsUnder(r, k);
      TotalMeans(RollAt(b.rolls, k), b.rows, gone, k);
      assert RollAt(c.rolls, k).first.Some?;
      if !HasKey(c.rolls, k) { AbsentIsZero(c.rolls, k); }
    }
  }

  /** The tombstone is the row's: its account and fingerprint, its statement, and its year. */
  predicate TombOf(m: Mark, t: Tomb, r: Row) {
    && r.account == Some(m.account) && r.fp == Some(m.fp) && t.statement == r.statement
    && r.date.Some? && t.fy * 10000 + 701 <= r.date.value < (t.fy + 1) * 10000 + 701
  }

  /** A tombstone for every line that went, under its account and fingerprint, with its year and statement (one that was there
      before stays as it was), and no other. */
  lemma {:induction false} TombsMean(b: Books, c: Books, gone: set<Id>)
    requires IsShrunk(b, c, gone) && forall r | r in b.rows && r.id in gone :: IsLine(r)
    ensures forall r | r in b.rows && r.id in gone :: r.account.Some? && r.fp.Some? && Mark(r.account.value, r.fp.value) in c.tombs
    ensures forall m | m in b.tombs :: m in c.tombs && c.tombs[m] == b.tombs[m]
    ensures forall m | m in c.tombs && m !in b.tombs :: exists r | r in b.rows && r.id in gone :: TombOf(m, c.tombs[m], r)
  {
    var fs := Only(Lines(b.rows), gone);
    forall r | r in b.rows && r.id in gone ensures r.account.Some? && r.fp.Some? && Mark(r.account.value, r.fp.value) in c.tombs {
      assert FactOf(r) in fs;
      TombedAt(b.tombs, fs, Mark(r.account.value, r.fp.value));
    }
    forall m | m in b.tombs ensures m in c.tombs && c.tombs[m] == b.tombs[m] { TombedAt(b.tombs, fs, m); }
    forall m | m in c.tombs && m !in b.tombs ensures exists r | r in b.rows && r.id in gone :: TombOf(m, c.tombs[m], r) {
      TombedAt(b.tombs, fs, m);
      var f :| f in fs && f.mark == m && c.tombs[m] == f.ToTomb();
      var r :| r in b.rows && IsLine(r) && FactOf(r) == f;
      KeyIsUnder(r, f.Key());
      assert TombOf(m, c.tombs[m], r);
    }
  }

  // ── Chunking does not matter ────────────────────────────────────────────────────────────────────────

  lemma {:induction false} TombedAt(tombs: map<Mark, Tomb>, fs: seq<Fact>, m: Mark)
    ensures m in Tombed(tombs, fs) <==> m in tombs || exists f | f in fs :: f.mark == m
    ensures m in tombs ==> Tombed(tombs, fs)[m] == tombs[m]
    ensures m in Tombed(tombs, fs) && m !in tombs ==> exists f | f in fs :: f.mark == m && Tombed(tombs, fs)[m] == f.ToTomb()
  {
    if fs != [] {
      var init, f := fs[..|fs| - 1], fs[|fs| - 1];
      TombedAt(tombs, init, m);
      assert forall x :: x in fs <==> x in init || x == f;
    }
  }

  predicate UniqueMarks(fs: seq<Fact>) { forall f, g | f in fs && g in fs && f.mark == g.mark :: f == g }

  /** Tombstones of unique fingerprints depend only on which lines there are. */
  lemma {:induction false} TombedSame(tombs: map<Mark, Tomb>, fs: seq<Fact>, gs: seq<Fact>, hs: seq<Fact>)
    requires UniqueMarks(hs) && (forall f :: f in hs <==> f in fs || f in gs)
    ensures Tombed(Tombed(tombs, fs), gs) == Tombed(tombs, hs)
  {
    var a, b := Tombed(Tombed(tombs, fs), gs), Tombed(tombs, hs);
    forall m ensures (m in a <==> m in b) && (m in a ==> a[m] == b[m]) {
      TombedAt(tombs, fs, m);
      TombedAt(Tombed(tombs, fs), gs, m);
      TombedAt(tombs, hs, m);
    }
  }

  lemma {:induction false} WithoutTwice(rows: seq<Row>, g: set<Id>, h: set<Id>)
    ensures Without(Without(rows, g), h) == Without(rows, g + h)
  {
    if rows != [] {
      var init, r := rows[..|rows| - 1], rows[|rows| - 1];
      WithoutTwice(init, g, h);
      if r.id !in g { assert Without(rows, g)[..|Without(init, g)|] == Without(init, g); }
    }
  }

  lemma {:induction false} TotalOfUnion(fs: seq<Fact>, g: set<Id>, h: set<Id>, k: RollKey)
    ensures Total(Only(fs, g + h), k) == Plus(Total(Only(fs, g), k), Total(Only(Except(fs, g), h), k))
  {
    if fs == [] {
      PlusZero(ZERO);
    } else {
      var init, f := fs[..|fs| - 1], fs[|fs| - 1];
      TotalOfUnion(init, g, h, k);
      TotalSnoc(Only(init, g + h), f, k);
      TotalSnoc(Only(init, g), f, k);
      TotalSnoc(Only(Except(init, g), h), f, k);
      CountedEither(Total(Only(init, g), k), Total(Only(Except(init, g), h), k), f, k);
      if f.id !in g { assert Except(fs, g)[..|Except(init, g)|] == Except(init, g); }
    }
  }

  lemma {:induction false} PostedOfUnion(fs: seq<Fact>, g: set<Id>, h: set<Id>, s: Id, m: Measure)
    ensures Posted(Only(fs, g + h), s, m) == Posted(Only(fs, g), s, m) + Posted(Only(Except(fs, g), h), s, m)
  {
    if fs != [] {
      var init, f := fs[..|fs| - 1], fs[|fs| - 1];
      PostedOfUnion(init, g, h, s, m);
      PostedSnoc(Only(init, g + h), f, s, m);
      PostedSnoc(Only(init, g), f, s, m);
      PostedSnoc(Only(Except(init, g), h), f, s, m);
      if f.id !in g { assert Except(fs, g)[..|Except(init, g)|] == Except(init, g); }
    }
  }

  lemma {:induction false} RollsCompose(a: seq<RollRow>, b: seq<RollRow>, c: seq<RollRow>, fs: seq<Fact>, g: set<Id>, h: set<Id>)
    requires RollsGrew(a, b, Only(fs, g)) && RollsGrew(b, c, Only(Except(fs, g), h))
    ensures RollsGrew(a, c, Only(fs, g + h))
  {
    forall k ensures RollAt(c, k) == Plus(RollAt(a, k), Total(Only(fs, g + h), k)) {
      TotalOfUnion(fs, g, h, k);
      PlusAssociates(RollAt(a, k), Total(Only(fs, g), k), Total(Only(Except(fs, g), h), k));
    }
    forall s, m ensures RolledUp(c, s, m) == RolledUp(a, s, m) + Posted(Only(fs, g + h), s, m) {
      PostedOfUnion(fs, g, h, s, m);
    }
  }

  /** Shrinking one set of lines and then another is shrinking both at once. */
  lemma {:induction false} ShrinksCompose(a: Books, b: Books, c: Books, g: set<Id>, h: set<Id>)
    requires IsShrunk(a, b, g) && IsShrunk(b, c, h) && UniqueMarks(Lines(a.rows))
    ensures IsShrunk(a, c, g + h)
  {
    var fs := Lines(a.rows);
    LinesWithout(a.rows, g);
    WithoutTwice(a.rows, g, h);
    RollsCompose(a.rolls, b.rolls, c.rolls, fs, g, h);
    TombedSame(a.tombs, Only(fs, g), Only(Except(fs, g), h), Only(fs, g + h));
  }

  lemma {:induction false} WithoutNone(rows: seq<Row>)
    ensures Without(rows, {}) == rows
  {
    if rows != [] {
      WithoutNone(rows[..|rows| - 1]);
    }
  }

  lemma {:induction false} OnlyNone(fs: seq<Fact>)
    ensures Only(fs, {}) == []
  {
    if fs != [] {
      OnlyNone(fs[..|fs| - 1]);
    }
  }

  lemma {:induction false} ShrunkByNothing(b: Books)
    requires UniqueKeys(b.rolls)
    ensures IsShrunk(b, b, {})
  {
    WithoutNone(b.rows);
    OnlyNone(Lines(b.rows));
    forall k ensures RollAt(b.rolls, k) == Plus(RollAt(b.rolls, k), Total([], k)) {
      PlusZero(RollAt(b.rolls, k));
    }
  }

  // ── Shrinking a line never makes another eligible or ineligible ─────────────────────────────────────

  lemma {:induction false} SameId(rows: seq<Row>, r: Row, o: Row)
    requires UniqueIds(rows) && r in rows && o in rows && r.id == o.id
    ensures r == o
  {
    var i :| 0 <= i < |rows| && rows[i] == r;
    var j :| 0 <= j < |rows| && rows[j] == o;
  }

  lemma {:induction false} WithoutUnique(rows: seq<Row>, gone: set<Id>)
    requires UniqueIds(rows)
    ensures UniqueIds(Without(rows, gone))
  {
    if rows != [] {
      var init, r := rows[..|rows| - 1], rows[|rows| - 1];
      WithoutUnique(init, gone);
      forall x | x in Without(init, gone) ensures x.id != r.id {
        var i :| 0 <= i < |init| && init[i] == x;
        assert rows[i].id != rows[|init|].id;
      }
      var kept := Without(init, gone);
      assert forall i | 0 <= i < |kept| :: kept[i] in kept;
    }
  }

  lemma {:induction false} EligibilityKept(rows: seq<Row>, refs: Refs, w: Window, gone: set<Id>, r: Row)
    requires forall o | o in rows && o.id in gone :: Unlinked(o.tags)
    ensures May(Without(rows, gone), refs, w, r) <==> May(rows, refs, w, r)
  {
    if Referenced(rows, r.id) {
      var o :| o in rows && Points(o, r.id);
      assert o.id !in gone;
      assert o in Without(rows, gone);
    }
  }

  lemma {:induction false} PickedIs(rows: seq<Row>, refs: Refs, w: Window, ids: set<Id>, r: Row)
    requires UniqueIds(rows) && r in rows
    ensures r.id in Picked(rows, refs, w, ids) <==> r.id in ids && May(rows, refs, w, r)
  {
    if r.id in Picked(rows, refs, w, ids) {
      var o :| o in rows && o.id == r.id && o.id in ids && May(rows, refs, w, o);
      SameId(rows, r, o);
    }
  }

  // ── Why a row stays, in the columns of the books ────────────────────────────────────────────────────

  /** Something else in the books is tied to the row, or the row to something else. */
  predicate Tied(rows: seq<Row>, refs: Refs, r: Row) {
    || r.id in refs.claimLinks || r.id in refs.attributions || r.id in refs.suggestions || r.id in refs.holdings || r.id in refs.phi
    || (exists o | o in rows :: o.tags.matchedTxn == Some(r.id) || o.tags.refundFor == Some(r.id) || o.tags.duplicateOf == Some(r.id))
    || r.tags.matchedTxn.Some? || r.tags.matchedIncome.Some? || r.tags.refundFor.Some? || r.tags.duplicateOf.Some?
    || r.tags.asset.Some? || r.tags.property.Some? || r.tags.receiptKey.Some? || r.tags.document.Some? || r.tags.payer.Some?
  }

  /** It is worth something to the return, or may be. */
  predicate Worth(t: Tags) {
    t.reimbursed || t.relevance in {Some(WorthALook), Some(Relevant)} || (t.claim.Some? && t.claim.value != 0) || (t.gst.Some? && t.gst.value != 0)
  }

  /** Nobody has decided that it is private spending: a sorted row is, when a wage earner's and not deductible; an ignored one,
      unless it is in another bucket or reads as deductible in part. */
  predicate Undecided(t: Tags) {
    match t.status
    case Ignored => t.bucket !in {None, Some(Payg)} || t.verdict in {Some(Suggested), Some(NeedsApportionment), Some(ConfirmedDeductible), Some(OtherVerdict)}
    case OtherStatus => t.bucket != Some(Payg) || t.verdict !in {Some(LikelyNot), Some(ConfirmedNot)}
    case _ => true
  }

  /** It is not a converted debit that a statement or a feed posted, or it is on a loan account. */
  predicate NotEveryday(refs: Refs, r: Row) {
    || r.kind != BankLine || r.source == OtherSource || r.direction != Some(Debit)
    || r.account == None || r.fp == None || r.date == None || r.aud == None
    || (r.account.Some? && r.account.value in refs.loans)
  }

  /** Its day is in none of the years, from 1 July to 30 June, or it came on file after the cutoff. */
  predicate OutOfWindow(years: set<int>, cutoff: int, r: Row) {
    r.created > cutoff || forall y | y in years :: r.date == None || r.date.value < y * 10000 + 701 || r.date.value > (y + 1) * 10000 + 630
  }

  predicate Stays(rows: seq<Row>, refs: Refs, years: set<int>, cutoff: int, r: Row) {
    Tied(rows, refs, r) || Worth(r.tags) || Undecided(r.tags) || NotEveryday(refs, r) || OutOfWindow(years, cutoff, r)
  }

  lemma {:induction false} UntiedIff(rows: seq<Row>, refs: Refs, r: Row)
    ensures Shrinkable(rows, refs, r) <==> !Tied(rows, refs, r) && !Worth(r.tags) && !Undecided(r.tags) && !NotEveryday(refs, r)
  {
    var t := r.tags;
    assert Referenced(rows, r.id) <==> exists o | o in rows :: o.tags.matchedTxn == Some(r.id) || o.tags.refundFor == Some(r.id) || o.tags.duplicateOf == Some(r.id);
    UndecidedIff(t);
    assert t.relevance.Some? ==> t.relevance.value.Irrelevant? || t.relevance.value.WorthALook? || t.relevance.value.Relevant?;
  }

  lemma {:induction false} UndecidedIff(t: Tags)
    ensures !Undecided(t) <==>
      || (t.bucket == Some(Payg) && t.verdict in {Some(LikelyNot), Some(ConfirmedNot)} && t.status !in {NeedsReview, NeedsExtraction, Duplicate})
      || (t.status == Ignored && t.bucket in {None, Some(Payg)} && t.verdict in {None, Some(Undetermined), Some(LikelyNot), Some(ConfirmedNot)})
  {
    if t.verdict.Some? {
      var v := t.verdict.value;
      assert v.Undetermined? || v.LikelyNot? || v.ConfirmedNot? || v.Suggested? || v.NeedsApportionment? || v.ConfirmedDeductible? || v.OtherVerdict?;
    }
  }

  /** A row is picked for one year exactly when nothing keeps it. */
  lemma {:induction false} PickedUnlessStays(rows: seq<Row>, refs: Refs, w: Window, r: Row)
    ensures May(rows, refs, w, r) <==> !Stays(rows, refs, {w.fy}, w.cutoff, r)
  {
    UntiedIff(rows, refs, r);
  }

  /** After a shrink of any lodged years, a row is on file if and only if something keeps it. */
  lemma {:induction false} StaysIff(rows: seq<Row>, refs: Refs, years: set<int>, cutoff: int, r: Row)
    requires UniqueIds(rows) && r in rows
    ensures r in Without(rows, EligibleIn(rows, refs, years, cutoff)) <==> Stays(rows, refs, years, cutoff, r)
  {
    forall y | y in years ensures May(rows, refs, Window(y, cutoff), r) <==> !Stays(rows, refs, {y}, cutoff, r) {
      PickedUnlessStays(rows, refs, Window(y, cutoff), r);
    }
    if r.id in EligibleIn(rows, refs, years, cutoff) {
      var o, y :| o in rows && y in years && May(rows, refs, Window(y, cutoff), o) && o.id == r.id;
      SameId(rows, r, o);
      assert !Stays(rows, refs, {y}, cutoff, r);
    }
  }

  // ── The batch of one chunk ──────────────────────────────────────────────────────────────────────────

  /** Rows a SELECT read earlier: debits of the window's year, whose posting facts the table still agrees with. */
  predicate ReadFrom(chunk: seq<Row>, rows: seq<Row>, w: Window) {
    && (forall c | c in chunk :: IsLine(c) && c.direction == Some(Debit) && FyStart(w.fy) <= c.date.value <= FyEnd(w.fy))
    && forall c, r | c in chunk && r in rows && c.id == r.id && IsLine(r) :: FactOf(r) == FactOf(c)
  }

  function KeyedIds(chunk: seq<Row>, k: RollKey): set<Id>
    requires forall c | c in chunk :: IsLine(c)
  {
    set c | c in chunk && FactOf(c).Key() == k :: c.id
  }

  method GroupChunk(w: Window, chunk: seq<Row>) returns (order: seq<RollKey>, groups: map<RollKey, set<Id>>)
    requires ReadFrom(chunk, [], w)
    ensures Distinct(order) && groups.Keys == set k | k in order
    ensures forall c | c in chunk :: FactOf(c).Key() in order
    ensures forall k | k in groups :: groups[k] == KeyedIds(chunk, k)
  {
    order, groups := [], map[];
    for i := 0 to |chunk|
      invariant Distinct(order) && groups.Keys == set k | k in order
      invariant forall c | c in chunk[..i] :: IsLine(c) && FactOf(c).Key() in order
      invariant forall k | k in groups :: groups[k] == KeyedIds(chunk[..i], k)
    {
      var c := chunk[i];
      WindowIsFy(c.date.value, w.fy);
      var k := RollKey(c.account.value, c.statement, w.fy, Debit);
      assert k == FactOf(c).Key() && chunk[..i + 1] == chunk[..i] + [c];
      if k !in groups {
        NewGroup(chunk[..i], order, k);
        order, groups := order + [k], groups[k := {}];
      }
      ghost var before := groups;
      groups := groups[k := groups[k] + {c.id}];
      forall q | q in groups ensures groups[q] == KeyedIds(chunk[..i + 1], q) {
        assert before[q] == KeyedIds(chunk[..i], q);
        KeyedSnoc(chunk[..i], c, q);
      }
    }
    assert chunk[..|chunk|] == chunk;
  }

  lemma {:induction false} NewGroup(chunk: seq<Row>, order: seq<RollKey>, k: RollKey)
    requires Distinct(order) && k !in order && forall c | c in chunk :: IsLine(c) && FactOf(c).Key() in order
    ensures Distinct(order + [k]) && KeyedIds(chunk, k) == {}
  {
  }

  lemma {:induction false} KeyedSnoc(chunk: seq<Row>, c: Row, k: RollKey)
    requires (forall x | x in chunk :: IsLine(x)) && IsLine(c)
    ensures (forall x | x in chunk + [c] :: IsLine(x))
    ensures KeyedIds(chunk + [c], k) == KeyedIds(chunk, k) + (if FactOf(c).Key() == k then {c.id} else {})
  {
    assert forall x :: x in chunk + [c] <==> x in chunk || x == c;
  }

  lemma {:induction false} AggregateIs(fs: seq<Fact>, a: set<Id>, b: set<Id>, k: RollKey)
    requires forall f | f in fs :: f.id in a <==> f.id in b && f.Key() == k
    ensures Aggregate(Only(fs, a)) == Total(Only(fs, b), k)
  {
    if fs != [] {
      var init, f := fs[..|fs| - 1], fs[|fs| - 1];
      assert f in fs && forall x | x in init :: x in fs;
      AggregateIs(init, a, b, k);
      TotalSnoc(Only(init, b), f, k);
      assert (Only(init, a) + [f])[..|Only(init, a)|] == Only(init, a);
    }
  }

  /** A group's own re-checked aggregate is its share of the whole chunk's. */
  lemma {:induction false} GroupShare(rows: seq<Row>, refs: Refs, w: Window, chunk: seq<Row>, k: RollKey)
    requires UniqueIds(rows) && ReadFrom(chunk, rows, w)
    ensures Aggregate(Only(Lines(rows), Picked(rows, refs, w, KeyedIds(chunk, k))))
         == Total(Only(Lines(rows), Picked(rows, refs, w, AllIds(chunk))), k)
  {
    var a, b := Picked(rows, refs, w, KeyedIds(chunk, k)), Picked(rows, refs, w, AllIds(chunk));
    forall f | f in Lines(rows) ensures f.id in a <==> f.id in b && f.Key() == k {
      var r :| r in rows && IsLine(r) && FactOf(r) == f;
      PickedIs(rows, refs, w, KeyedIds(chunk, k), r);
      PickedIs(rows, refs, w, AllIds(chunk), r);
      if r.id in AllIds(chunk) {
        var c :| c in chunk && c.id == r.id;
        assert FactOf(c) == f;
      }
    }
    AggregateIs(Lines(rows), a, b, k);
  }

  // ── One year, in rounds ─────────────────────────────────────────────────────────────────────────────

  const SELECT_BATCH := 500
  const ID_CHUNK := 80

  function Eligible(rows: seq<Row>, refs: Refs, w: Window): set<Id> { Picked(rows, refs, w, AllIds(rows)) }

  /** WHERE over the table, in table order. */
  function Matching(scan: seq<Row>, rows: seq<Row>, refs: Refs, w: Window): (found: seq<Row>)
    ensures forall r :: r in found <==> r in scan && May(rows, refs, w, r)
  {
    if scan == [] then [] else
    var init, r := scan[..|scan| - 1], scan[|scan| - 1];
    assert forall x :: x in scan <==> x in init || x == r;
    if May(rows, refs, w, r) then Matching(init, rows, refs, w) + [r] else Matching(init, rows, refs, w)
  }

  lemma {:induction false} MatchingUnique(scan: seq<Row>, rows: seq<Row>, refs: Refs, w: Window)
    requires UniqueIds(scan)
    ensures UniqueIds(Matching(scan, rows, refs, w))
  {
    if scan != [] {
      var init, r := scan[..|scan| - 1], scan[|scan| - 1];
      MatchingUnique(init, rows, refs, w);
      var found := Matching(init, rows, refs, w);
      forall i | 0 <= i < |found| ensures found[i].id != r.id {
        assert found[i] in init;
        var j :| 0 <= j < |init| && init[j] == found[i];
        assert scan[j].id != scan[|init|].id;
      }
    }
  }

  /** Rows still eligible in a partly shrunk table are picked by their own chunk, all of them. */
  lemma {:induction false} ChunkPicksAll(rows: seq<Row>, refs: Refs, w: Window, gone: set<Id>, chunk: seq<Row>)
    requires UniqueIds(rows) && gone <= Eligible(rows, refs, w)
    requires forall c | c in chunk :: c in rows && May(rows, refs, w, c) && c.id !in gone
    ensures Picked(Without(rows, gone), refs, w, AllIds(chunk)) == AllIds(chunk)
    ensures ReadFrom(chunk, Without(rows, gone), w)
  {
    var left := Without(rows, gone);
    GoneUnlinked(rows, refs, w, gone);
    forall c | c in chunk ensures c in left && c.id in Picked(left, refs, w, AllIds(chunk)) {
      EligibilityKept(rows, refs, w, gone, c);
      assert c in left;
    }
    forall c, r | c in chunk && r in left && c.id == r.id && IsLine(r) ensures FactOf(r) == FactOf(c) {
      SameId(rows, c, r);
    }
  }

  lemma {:induction false} GoneUnlinked(rows: seq<Row>, refs: Refs, w: Window, gone: set<Id>)
    requires UniqueIds(rows) && gone <= Eligible(rows, refs, w)
    ensures forall o | o in rows && o.id in gone :: Unlinked(o.tags)
  {
    forall o | o in rows && o.id in gone ensures Unlinked(o.tags) {
      PickedIs(rows, refs, w, AllIds(rows), o);
    }
  }

  lemma {:induction false} IdsAppend(xs: seq<Row>, ys: seq<Row>)
    ensures AllIds(xs + ys) == AllIds(xs) + AllIds(ys)
  {
    assert forall x :: x in xs + ys <==> x in xs || x in ys;
  }

  lemma {:induction false} IdsApart(chunk: seq<Row>, i: nat, j: nat)
    requires i <= j <= |chunk| && UniqueIds(chunk)
    ensures AllIds(chunk[..i]) !! AllIds(chunk[i..j])
  {
    forall a, b | a in chunk[..i] && b in chunk[i..j] ensures a.id != b.id {
      var m :| 0 <= m < i && chunk[m] == a;
      var n :| i <= n < j && chunk[n] == b;
    }
  }

  lemma {:induction false} IdsSplit(chunk: seq<Row>, i: nat, j: nat)
    requires i <= j <= |chunk| && UniqueIds(chunk)
    ensures AllIds(chunk[..j]) == AllIds(chunk[..i]) + AllIds(chunk[i..j])
    ensures AllIds(chunk[..i]) !! AllIds(chunk[i..j])
    ensures |AllIds(chunk[..j])| == |AllIds(chunk[..i])| + |AllIds(chunk[i..j])|
  {
    assert chunk[..j] == chunk[..i] + chunk[i..j];
    IdsAppend(chunk[..i], chunk[i..j]);
    IdsApart(chunk, i, j);
  }

  /** When every match was in the round, nothing eligible is left. */
  lemma {:induction false} RoundWasLast(rows: seq<Row>, refs: Refs, w: Window, gone: set<Id>, found: seq<Row>)
    requires UniqueIds(rows) && gone <= Eligible(rows, refs, w)
    requires found == Matching(Without(rows, gone), Without(rows, gone), refs, w)
    ensures AllIds(found) !! gone && gone + AllIds(found) == Eligible(rows, refs, w)
  {
    GoneUnlinked(rows, refs, w, gone);
    forall r | r in rows ensures r in found <==> May(rows, refs, w, r) && r.id !in gone {
      EligibilityKept(rows, refs, w, gone, r);
    }
    forall id | id in Eligible(rows, refs, w) && id !in gone ensures id in AllIds(found) {
      var r :| r in rows && r.id == id && May(rows, refs, w, r);
      assert r in found;
    }
    forall r | r in found ensures r.id in Eligible(rows, refs, w) && r.id !in gone {
      assert r in rows;
    }
  }

  lemma {:induction false} RoundSoFar(rows: seq<Row>, refs: Refs, w: Window, sel: seq<Row>, i: nat, j: nat)
    requires i <= j <= |sel| && UniqueIds(sel) && forall c | c in sel :: c in rows && May(rows, refs, w, c)
    ensures AllIds(sel[..i]) <= Eligible(rows, refs, w)
    ensures forall c | c in sel[i..j] :: c in rows && May(rows, refs, w, c) && c.id !in AllIds(sel[..i])
  {
    IdsSplit(sel, i, j);
    forall c | c in sel[..i] ensures c in sel && c.id in Eligible(rows, refs, w) {
    }
    forall c | c in sel[i..j] ensures c in sel && c.id in AllIds(sel[i..j]) {
    }
  }

  lemma {:induction false} RoundAdds(found: seq<Row>, sel: seq<Row>, gone: set<Id>, all: set<Id>)
    requires sel <= found && AllIds(found) !! gone && gone + AllIds(found) == all
    ensures |gone + AllIds(sel)| == |gone| + |AllIds(sel)| && (sel != [] ==> |AllIds(sel)| > 0)
    ensures gone + AllIds(sel) <= all && |gone + AllIds(sel)| <= |all|
  {
    PrefixIn(sel, found);
    assert AllIds(sel) <= AllIds(found);
    if sel != [] { assert sel[0].id in AllIds(sel); }
    CardLeq(gone + AllIds(sel), all);
  }

  lemma {:induction false} CardLeq<T>(a: set<T>, b: set<T>)
    requires a <= b
    ensures |a| <= |b|
  {
    assert b == a + (b - a);
  }

  class LedgerDb {
    var rows: seq<Row>
    var rolls: seq<RollRow>
    var tombs: map<Mark, Tomb>

    constructor (b: Books)
      ensures View() == b
    {
      rows, rolls, tombs := b.rows, b.rolls, b.tombs;
    }

    ghost function View(): Books
      reads this
    {
      Books(rows, rolls, tombs)
    }

    /** The pair of statements for one (account, statement) group of the chunk. */
    method FoldGroup(refs: Refs, w: Window, ghost chunk: seq<Row>, k: RollKey, ids: set<Id>)
      requires UniqueIds(rows) && ReadFrom(chunk, rows, w) && ids == KeyedIds(chunk, k)
      modifies `rolls
      ensures rolls == Folded(old(rolls), k, Total(Only(Lines(rows), Picked(rows, refs, w, AllIds(chunk))), k))
    {
      GroupShare(rows, refs, w, chunk, k);
      rolls := Folded(rolls, k, Aggregate(Only(Lines(rows), Picked(rows, refs, w, ids))));
    }

    /** The upserts of the batch. */
    method FoldChunk(refs: Refs, w: Window, chunk: seq<Row>)
      requires UniqueIds(rows) && UniqueKeys(rolls) && ReadFrom(chunk, rows, w)
      modifies `rolls
      ensures UniqueKeys(rolls) && RollsGrew(old(rolls), rolls, Only(Lines(rows), Picked(rows, refs, w, AllIds(chunk))))
    {
      var order, groups := GroupChunk(w, chunk);
      ghost var before, gone := rolls, Only(Lines(rows), Picked(rows, refs, w, AllIds(chunk)));
      for j := 0 to |order|
        invariant rolls == FoldGroups(before, order[..j], gone)
      {
        assert order[..j + 1][..j] == order[..j];
        FoldGroup(refs, w, chunk, order[j], groups[order[j]]);
      }
      assert order[..|order|] == order;
      GoneInOrder(rows, refs, w, chunk, order);
      GroupsGrow(before, order, gone);
    }

    /** INSERT OR IGNORE of the lines' fingerprints. */
    method Entomb(gone: seq<Fact>)
      modifies `tombs
      ensures tombs == Tombed(old(tombs), gone)
    {
      for j := 0 to |gone|
        invariant tombs == Tombed(old(tombs), gone[..j])
      {
        assert gone[..j + 1][..j] == gone[..j];
        if gone[j].mark !in tombs { tombs := tombs[gone[j].mark := gone[j].ToTomb()]; }
      }
      assert gone[..|gone|] == gone;
    }

    /** One atomic batch: every statement re-applies the predicate, so a line linked since it was read is kept by all. */
    method ShrinkChunk(refs: Refs, w: Window, chunk: seq<Row>) returns (deleted: nat)
      requires UniqueIds(rows) && UniqueKeys(rolls) && ReadFrom(chunk, rows, w)
      modifies this
      ensures IsShrunk(old(View()), View(), Picked(old(rows), refs, w, AllIds(chunk)))
      ensures deleted == |Picked(old(rows), refs, w, AllIds(chunk))|
      ensures forall r | r in old(rows) :: r in rows <==> r.id !in AllIds(chunk) || Stays(old(rows), refs, {w.fy}, w.cutoff, r)
    {
      var picked := Picked(rows, refs, w, AllIds(chunk));
      forall r | r in rows ensures r.id in picked <==> r.id in AllIds(chunk) && !Stays(rows, refs, {w.fy}, w.cutoff, r) {
        PickedIs(rows, refs, w, AllIds(chunk), r);
        PickedUnlessStays(rows, refs, w, r);
      }
      FoldChunk(refs, w, chunk);
      Entomb(Only(Lines(rows), picked));
      rows := Without(rows, picked);
      deleted := |picked|;
    }

    /** One round: the selected ids, a chunk at a time. */
    method ShrinkRound(refs: Refs, w: Window, sel: seq<Row>) returns (deleted: nat)
      requires UniqueIds(rows) && UniqueKeys(rolls) && UniqueMarks(Lines(rows))
      requires UniqueIds(sel) && forall c | c in sel :: c in rows && May(rows, refs, w, c)
      modifies this
      ensures IsShrunk(old(View()), View(), AllIds(sel)) && deleted == |AllIds(sel)|
    {
      ghost var b := View();
      var i := 0;
      deleted := 0;
      ShrunkByNothing(b);
      assert AllIds(sel[..0]) == {};
      while i < |sel|
        invariant i <= |sel| && IsShrunk(b, View(), AllIds(sel[..i])) && deleted == |AllIds(sel[..i])|
      {
        var j := if i + ID_CHUNK < |sel| then i + ID_CHUNK else |sel|;
        var chunk := sel[i..j];
        ghost var now, gone := View(), AllIds(sel[..i]);
        IdsSplit(sel, i, j);
        RoundSoFar(b.rows, refs, w, sel, i, j);
        ChunkPicksAll(b.rows, refs, w, gone, chunk);
        WithoutUnique(b.rows, gone);
        var d := ShrinkChunk(refs, w, chunk);
        ShrinksCompose(b, now, View(), gone, AllIds(chunk));
        deleted := deleted + d;
        i := j;
      }
      assert sel[..i] == sel;
    }

    /** Select, shrink, and say whether another round could find anything. */
    method Round(refs: Refs, w: Window, ghost b: Books, ghost gone: set<Id>) returns (deleted: nat, more: bool, ghost now: set<Id>)
      requires IsShrunk(b, View(), gone) && gone <= Eligible(b.rows, refs, w)
      requires UniqueIds(b.rows) && UniqueMarks(Lines(b.rows))
      modifies this
      ensures IsShrunk(b, View(), now) && now <= Eligible(b.rows, refs, w)
      ensures |now| == |gone| + deleted && |now| <= |Eligible(b.rows, refs, w)|
      ensures if more then deleted > 0 else now == Eligible(b.rows, refs, w)
    {
      var sel := Select(refs, w);
      RoundReady(b.rows, refs, w, gone, sel);
      YearRound(b.rows, refs, w, gone, sel);
      now := gone + AllIds(sel);
      ghost var start := View();
      deleted := ShrinkRound(refs, w, sel);
      ShrinksCompose(b, start, View(), gone, AllIds(sel));
      more := !(sel == [] || deleted == 0 || |sel| < SELECT_BATCH);
    }

    /** Every round for one lodged year: exactly the eligible lines go, however they were batched. */
    method ShrinkYear(refs: Refs, w: Window) returns (shrunk: nat)
      requires UniqueIds(rows) && UniqueKeys(rolls) && UniqueMarks(Lines(rows))
      modifies this
      ensures IsShrunk(old(View()), View(), Eligible(old(rows), refs, w))
      ensures shrunk == |Eligible(old(rows), refs, w)|
    {
      ghost var b, gone: set<Id> := View(), {};
      shrunk := 0;
      ShrunkByNothing(b);
      var more := true;
      while more
        invariant gone <= Eligible(b.rows, refs, w) && IsShrunk(b, View(), gone) && shrunk == |gone|
        invariant !more ==> gone == Eligible(b.rows, refs, w)
        decreases |Eligible(b.rows, refs, w)| - |gone|, more
      {
        var deleted;
        deleted, more, gone := Round(refs, w, b, gone);
        shrunk := shrunk + deleted;
      }
    }

    /** The run for a tenant: every candidate year that is lodged, and only with both flags on. */
    method Minimise(refs: Refs, candidates: seq<int>, lodged: set<int>, cutoff: int, minimisation: bool, excludesNonDeductible: bool)
      requires UniqueIds(rows) && UniqueKeys(rolls) && UniqueMarks(Lines(rows))
      modifies this
      ensures if minimisation && excludesNonDeductible
              then IsShrunk(old(View()), View(), EligibleIn(old(rows), refs, (set y | y in candidates && y in lodged), cutoff))
              else View() == old(View())
      ensures minimisation && excludesNonDeductible ==>
        forall r | r in old(rows) :: r in rows <==> Stays(old(rows), refs, (set y | y in candidates && y in lodged), cutoff, r)
    {
      if !minimisation { return; }
      if !excludesNonDeductible { return; }
      ghost var b, years: set<int> := View(), {};
      ShrunkByNothing(b);
      assert EligibleIn(b.rows, refs, years, cutoff) == {};
      for i := 0 to |candidates|
        invariant IsShrunk(b, View(), EligibleIn(b.rows, refs, years, cutoff))
        invariant years == set y | y in candidates[..i] && y in lodged
      {
        assert candidates[..i + 1] == candidates[..i] + [candidates[i]];
        if candidates[i] in lodged {
          OneMoreYear(b.rows, refs, years, cutoff, candidates[i]);
          ShrinkOneMore(refs, candidates[i], cutoff, b, EligibleIn(b.rows, refs, years, cutoff));
          years := years + {candidates[i]};
        }
      }
      assert candidates[..|candidates|] == candidates;
      forall r | r in b.rows ensures r in rows <==> Stays(b.rows, refs, years, cutoff, r) { StaysIff(b.rows, refs, years, cutoff, r); }
    }

    method ShrinkOneMore(refs: Refs, fy: int, cutoff: int, ghost b: Books, ghost gone: set<Id>)
      requires IsShrunk(b, View(), gone) && UniqueIds(b.rows) && UniqueMarks(Lines(b.rows))
      modifies this
      ensures IsShrunk(b, View(), gone + Eligible(Without(b.rows, gone), refs, Window(fy, cutoff)))
    {
      ghost var start := View();
      WithoutUnique(b.rows, gone);
      LinesWithout(b.rows, gone);
      var n := ShrinkYear(refs, Window(fy, cutoff));
      ShrinksCompose(b, start, View(), gone, Eligible(start.rows, refs, Window(fy, cutoff)));
    }

    /** SELECT ... LIMIT 500. */
    method Select(refs: Refs, w: Window) returns (sel: seq<Row>)
      ensures IsSelection(sel, rows, refs, w)
    {
      var found := Matching(rows, rows, refs, w);
      sel := if |found| < SELECT_BATCH then found else found[..SELECT_BATCH];
    }
  }

  predicate IsSelection(sel: seq<Row>, rows: seq<Row>, refs: Refs, w: Window) {
    var found := Matching(rows, rows, refs, w);
    sel <= found && (|sel| < SELECT_BATCH ==> sel == found)
  }

  // ── Every lodged year ───────────────────────────────────────────────────────────────────────────────

  function EligibleIn(rows: seq<Row>, refs: Refs, years: set<int>, cutoff: int): set<Id> {
    set r, fy | r in rows && fy in years && May(rows, refs, Window(fy, cutoff), r) :: r.id
  }

  lemma {:induction false} EligibleLeft(rows: seq<Row>, refs: Refs, w: Window, gone: set<Id>)
    requires UniqueIds(rows) && forall o | o in rows && o.id in gone :: Unlinked(o.tags)
    ensures Eligible(Without(rows, gone), refs, w) == Eligible(rows, refs, w) - gone
  {
    var left := Without(rows, gone);
    forall id | id in Eligible(left, refs, w) ensures id in Eligible(rows, refs, w) - gone {
      var r :| r in left && r.id == id && May(left, refs, w, r);
      EligibilityKept(rows, refs, w, gone, r);
      assert r.id in AllIds(rows);
    }
    forall id | id in Eligible(rows, refs, w) - gone ensures id in Eligible(left, refs, w) {
      var r :| r in rows && r.id == id && May(rows, refs, w, r);
      EligibilityKept(rows, refs, w, gone, r);
      assert r in left && r.id in AllIds(left);
    }
  }

  lemma {:induction false} EligibleUnlinked(rows: seq<Row>, refs: Refs, years: set<int>, cutoff: int)
    requires UniqueIds(rows)
    ensures forall o | o in rows && o.id in EligibleIn(rows, refs, years, cutoff) :: Unlinked(o.tags)
  {
    forall o | o in rows && o.id in EligibleIn(rows, refs, years, cutoff) ensures Unlinked(o.tags) {
      var r, fy :| r in rows && fy in years && May(rows, refs, Window(fy, cutoff), r) && r.id == o.id;
      SameId(rows, r, o);
    }
  }

  lemma {:induction false} OneMoreYear(rows: seq<Row>, refs: Refs, years: set<int>, cutoff: int, fy: int)
    requires UniqueIds(rows)
    ensures var gone := EligibleIn(rows, refs, years, cutoff);
            gone + Eligible(Without(rows, gone), refs, Window(fy, cutoff)) == EligibleIn(rows, refs, years + {fy}, cutoff)
  {
    var gone, w := EligibleIn(rows, refs, years, cutoff), Window(fy, cutoff);
    EligibleUnlinked(rows, refs, years, cutoff);
    EligibleLeft(rows, refs, w, gone);
    forall r | r in rows && May(rows, refs, w, r) ensures r.id in Eligible(rows, refs, w) && r.id in EligibleIn(rows, refs, years + {fy}, cutoff) {
      assert r.id in AllIds(rows);
    }
  }

  /** A second run over the same tables finds nothing. */
  lemma {:induction false} SecondRunIdle(b: Books, c: Books, refs: Refs, years: set<int>, cutoff: int)
    requires UniqueIds(b.rows) && IsShrunk(b, c, EligibleIn(b.rows, refs, years, cutoff))
    ensures EligibleIn(c.rows, refs, years, cutoff) == {}
  {
    EligibleUnlinked(b.rows, refs, years, cutoff);
    forall fy | fy in years ensures Eligible(c.rows, refs, Window(fy, cutoff)) == {} {
      EligibleLeft(b.rows, refs, Window(fy, cutoff), EligibleIn(b.rows, refs, years, cutoff));
      forall id | id in Eligible(b.rows, refs, Window(fy, cutoff)) ensures id in EligibleIn(b.rows, refs, years, cutoff) {
        var r :| r in b.rows && r.id == id && May(b.rows, refs, Window(fy, cutoff), r);
      }
    }
    WithoutUnique(b.rows, EligibleIn(b.rows, refs, years, cutoff));
    forall r, fy | r in c.rows && fy in years ensures !May(c.rows, refs, Window(fy, cutoff), r) {
      assert r.id in AllIds(c.rows);
      PickedIs(c.rows, refs, Window(fy, cutoff), AllIds(c.rows), r);
    }
  }

  lemma {:induction false} RoundReady(rows: seq<Row>, refs: Refs, w: Window, gone: set<Id>, sel: seq<Row>)
    requires UniqueIds(rows) && UniqueMarks(Lines(rows)) && IsSelection(sel, Without(rows, gone), refs, w)
    ensures UniqueIds(Without(rows, gone)) && UniqueIds(sel) && UniqueMarks(Lines(Without(rows, gone)))
    ensures forall c | c in sel :: c in Without(rows, gone) && May(Without(rows, gone), refs, w, c)
  {
    var left := Without(rows, gone);
    WithoutUnique(rows, gone);
    LinesWithout(rows, gone);
    MatchingUnique(left, left, refs, w);
    PrefixIn(sel, Matching(left, left, refs, w));
  }

  lemma {:induction false} PrefixIn(sel: seq<Row>, found: seq<Row>)
    requires sel <= found
    ensures forall r | r in sel :: r in found
  {
    forall r | r in sel ensures r in found {
      var i :| 0 <= i < |sel| && sel[i] == r;
      assert found[i] == r;
    }
  }

  lemma {:induction false} YearRound(rows: seq<Row>, refs: Refs, w: Window, gone: set<Id>, sel: seq<Row>)
    requires UniqueIds(rows) && gone <= Eligible(rows, refs, w) && IsSelection(sel, Without(rows, gone), refs, w)
    ensures gone + AllIds(sel) <= Eligible(rows, refs, w) && |gone + AllIds(sel)| == |gone| + |AllIds(sel)|
    ensures |gone + AllIds(sel)| <= |Eligible(rows, refs, w)|
    ensures sel != [] ==> |AllIds(sel)| > 0
    ensures |sel| < SELECT_BATCH ==> gone + AllIds(sel) == Eligible(rows, refs, w)
  {
    var found := Matching(Without(rows, gone), Without(rows, gone), refs, w);
    RoundWasLast(rows, refs, w, gone, found);
    RoundAdds(found, sel, gone, Eligible(rows, refs, w));
  }

  lemma {:induction false} GoneInOrder(rows: seq<Row>, refs: Refs, w: Window, chunk: seq<Row>, order: seq<RollKey>)
    requires UniqueIds(rows) && ReadFrom(chunk, rows, w) && forall c | c in chunk :: FactOf(c).Key() in order
    ensures forall f | f in Only(Lines(rows), Picked(rows, refs, w, AllIds(chunk))) :: f.Key() in order
  {
    forall f | f in Only(Lines(rows), Picked(rows, refs, w, AllIds(chunk))) ensures f.Key() in order {
      var r :| r in rows && IsLine(r) && FactOf(r) == f;
      PickedIs(rows, refs, w, AllIds(chunk), r);
      var c :| c in chunk && c.id == r.id;
      assert FactOf(c) == f;
    }
  }
}
