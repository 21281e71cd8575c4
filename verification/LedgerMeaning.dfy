/**
 * What importing, shrinking and purging mean for the user: nothing is posted twice, the position and every statement's
 * balance are unchanged by a shrink, and removing a statement makes its lines importable again.
 */
module LedgerMeaning {
  import opened Options
  import opened Fingerprint
  import opened Ledger
  import opened LedgerRuns

  // ── Import is a join on fingerprints ────────────────────────────────────────────────────────────────

  function Imported(b: Books, posts: seq<Row>): Books { b.(rows := b.rows + Kept(Seen(b), posts)) }

  lemma {:induction false} ImportIsJoin(b: Books, posts: seq<Row>)
    requires AllLines(posts)
    ensures Seen(Imported(b, posts)) == Seen(b) + MarksOf(posts)
  {
    forall m | m in Seen(b) + MarksOf(posts) ensures m in Seen(Imported(b, posts)) {
      if m !in Seen(b) {
        var r :| r in posts && IsLine(r) && MarkOf(r) == m;
        assert r in Kept(Seen(b), posts);
      }
    }
  }

  /** Overlapping statements leave the same fingerprints on file whichever is imported first. */
  lemma {:induction false} ImportOrder(b: Books, p: seq<Row>, q: seq<Row>)
    requires AllLines(p) && AllLines(q)
    ensures Seen(Imported(Imported(b, p), q)) == Seen(Imported(Imported(b, q), p))
  {
    ImportIsJoin(b, p);
    ImportIsJoin(b, q);
    ImportIsJoin(Imported(b, p), q);
    ImportIsJoin(Imported(b, q), p);
  }

  /** A purge, or a row deleted by hand. */
  predicate Forgets(e: Event) { e.Purge? || e.DeleteRow? }

  lemma {:induction false} StepKeepsSeen(b: Books, log: seq<Fact>, e: Event, c: Books)
    requires InStep(b, log) && Step(b, e, c) && !Forgets(e) && !Revives(b, e)
    ensures Seen(b) <= Seen(c)
  {
    StepKeeps(b, log, e, c);
    SeenIsLog(b, log);
    SeenIsLog(c, LogAfter(b, log, e));
  }

  /** Whatever happens between, short of a purge, what was seen stays seen. */
  lemma {:induction false} SeenNeverShrinks(states: seq<Books>, events: seq<Event>, log: seq<Fact>, i: nat, j: nat)
    requires IsRun(states, events) && Careful(states, events) && InStep(states[0], log) && i <= j <= |events|
    requires forall k | i <= k < j :: !Forgets(events[k])
    ensures Seen(states[i]) <= Seen(states[j])
    decreases j
  {
    if i < j {
      var k := j - 1;
      SeenNeverShrinks(states, events, log, i, k);
      RunKeepsBooks(states, events, log, k);
      StepAt(states, events, k);
      StepKeepsSeen(states[k], LogAt(states, events, log, k), events[k], states[j]);
    }
  }

  lemma {:induction false} CoveredMarks(account: Id, s: Id, first: seq<Line>, os: seq<Outcome>, t: Id, again: seq<Line>, ps: seq<Outcome>)
    requires |os| == |first| && |ps| == |again| && Continues(first, again)
    ensures AllLines(NewRows(account, s, first, os)) && AllLines(NewRows(account, t, again, ps))
    ensures MarksOf(NewRows(account, t, again, ps)) <= MarksOf(NewRows(account, s, first, os))
  {
    ReimportAddsNothing(account, first, again);
    var xs, ys := NewRows(account, s, first, os), NewRows(account, t, again, ps);
    forall m | m in MarksOf(ys) ensures m in MarksOf(xs) {
      var r :| r in ys && IsLine(r) && MarkOf(r) == m;
      var i :| 0 <= i < |ys| && ys[i] == r;
      assert Prints(account, again)[i] in Prints(account, again);
      var j :| 0 <= j < |first| && Prints(account, first)[j] == Prints(account, again)[i];
      assert MarkOf(xs[j]) == m && xs[j] in xs;
    }
  }

  lemma {:induction false} KeptNone(seen: set<Mark>, posts: seq<Row>)
    requires forall r | r in posts :: OnFile(seen, r)
    ensures Kept(seen, posts) == []
  {
    if posts != [] {
      assert posts[|posts| - 1] in posts && forall r | r in posts[..|posts| - 1] :: r in posts;
      KeptNone(seen, posts[..|posts| - 1]);
    }
  }

  /** After any run without a purge since a statement was imported, importing lines it covers again posts nothing,
      although most of it may since have been shrunk away. */
  lemma {:induction false} ReimportPostsNothing(states: seq<Books>, events: seq<Event>, log: seq<Fact>, i: nat, j: nat,
      account: Id, s: Id, first: seq<Line>, os: seq<Outcome>, t: Id, again: seq<Line>, ps: seq<Outcome>)
    requires IsRun(states, events) && Careful(states, events) && InStep(states[0], log) && i < j <= |events|
    requires |os| == |first| && |ps| == |again| && Continues(first, again)
    requires events[i] == Import(NewRows(account, s, first, os), true) && forall k | i < k < j :: !Forgets(events[k])
    ensures Kept(Seen(states[j]), NewRows(account, t, again, ps)) == []
  {
    var posts, later := NewRows(account, s, first, os), NewRows(account, t, again, ps);
    CoveredMarks(account, s, first, os, t, again, ps);
    StepAt(states, events, i);
    ImportIsJoin(states[i], posts);
    SeenNeverShrinks(states, events, log, i + 1, j);
    assert forall r | r in later :: MarkOf(r) in MarksOf(later);
    KeptNone(Seen(states[j]), later);
  }

  // ── Remove and re-import ────────────────────────────────────────────────────────────────────────────

  function OwnedBy(log: seq<Fact>, s: Id): set<Mark> { set f | f in log && f.statement == Some(s) :: f.mark }

  lemma {:induction false} PurgeForgets(b: Books, log: seq<Fact>, s: Id)
    requires InStep(b, log)
    ensures Seen(Purged(b, s)) == Seen(b) - OwnedBy(log, s)
  {
    StepKeeps(b, log, Purge(s, true), Purged(b, s));
    SeenIsLog(b, log);
    SeenIsLog(Purged(b, s), Keeping(log, s));
    LogUnique(log);
    forall f | f in log ensures f.mark in LogMarks(Keeping(log, s)) <==> f.mark !in OwnedBy(log, s) {
      if f.mark in LogMarks(Keeping(log, s)) {
        var g :| g in Keeping(log, s) && g.mark == f.mark;
      } else {
        assert f !in Keeping(log, s);
      }
    }
  }

  /** The fingerprints a re-import posts. */
  lemma {:induction false} KeptMarks(seen: set<Mark>, posts: seq<Row>)
    requires AllLines(posts)
    ensures MarksOf(Kept(seen, posts)) == MarksOf(posts) - seen
  {
    var kept := Kept(seen, posts);
    forall m | m in MarksOf(posts) - seen ensures m in MarksOf(kept) {
      var r :| r in posts && IsLine(r) && MarkOf(r) == m;
      assert r in kept;
    }
  }

  lemma {:induction false} OwnedSeen(b: Books, log: seq<Fact>, s: Id)
    requires InStep(b, log)
    ensures OwnedBy(log, s) <= Seen(b)
  {
    SeenIsLog(b, log);
    assert forall f | f in log :: f.mark in LogMarks(log);
  }

  /** Purging a statement and re-importing it restores exactly what was on file if and only if the file still holds
      every line the statement had posted and nothing that was not on file. */
  lemma {:induction false} PurgeThenReimport(b: Books, log: seq<Fact>, s: Id, posts: seq<Row>)
    requires InStep(b, log) && AllLines(posts)
    ensures Seen(Imported(Purged(b, s), posts)) == Seen(b) <==> OwnedBy(log, s) <= MarksOf(posts) <= Seen(b)
    ensures MarksOf(Kept(Seen(Purged(b, s)), posts)) == MarksOf(posts) - (Seen(b) - OwnedBy(log, s))
  {
    PurgeForgets(b, log, s);
    OwnedSeen(b, log, s);
    ImportIsJoin(Purged(b, s), posts);
    KeptMarks(Seen(Purged(b, s)), posts);
    JoinBack(Seen(b), OwnedBy(log, s), MarksOf(posts));
  }

  lemma {:induction false} JoinBack(seen: set<Mark>, owned: set<Mark>, posts: set<Mark>)
    requires owned <= seen
    ensures (seen - owned) + posts == seen <==> owned <= posts <= seen
  {
    if (seen - owned) + posts == seen {
      assert forall m | m in posts :: m in (seen - owned) + posts;
      assert forall m | m in owned :: m in (seen - owned) + posts;
    }
  }

  // ── A statement still ties out ──────────────────────────────────────────────────────────────────────

  function LiveShare(r: Row, s: Id, m: Measure): int {
    if !IsOf(r, s) then 0 else if m == Count then 1 else if r.direction == Some(Credit) then r.amount else -r.amount
  }

  function Live(rows: seq<Row>, s: Id, m: Measure): int {
    if rows == [] then 0 else Live(rows[..|rows| - 1], s, m) + LiveShare(rows[|rows| - 1], s, m)
  }

  /** Posted line count: live rows plus rolled-up lines; or the signed cents of both. */
  function OnLedger(b: Books, s: Id, m: Measure): int { Live(b.rows, s, m) + RolledUp(b.rolls, s, m) }

  /** opening + every signed movement; a liability account runs the other way. */
  function Expected(b: Books, s: Id, opening: int, liability: bool): int {
    opening + (if liability then -1 else 1) * OnLedger(b, s, Cents)
  }

  /** How far a line's base-currency amount is from the amount on the statement. */
  function DriftOf(f: Fact, s: Id): int { if f.statement == Some(s) then Signed(f.direction, f.aud - f.amount) else 0 }

  function Drift(fs: seq<Fact>, s: Id): int {
    if fs == [] then 0 else Drift(fs[..|fs| - 1], s) + DriftOf(fs[|fs| - 1], s)
  }

  lemma {:induction false} DriftSnoc(fs: seq<Fact>, f: Fact, s: Id)
    ensures Drift(fs + [f], s) == Drift(fs, s) + DriftOf(f, s)
  {
    assert (fs + [f])[..|fs|] == fs;
  }

  lemma {:induction false} LiveSnoc(rows: seq<Row>, r: Row, s: Id, m: Measure)
    ensures Live(rows + [r], s, m) == Live(rows, s, m) + LiveShare(r, s, m)
  {
    assert (rows + [r])[..|rows|] == rows;
  }

  lemma {:induction false} LineShare(r: Row, s: Id, m: Measure)
    requires IsLine(r)
    ensures LiveShare(r, s, m) == FactShare(FactOf(r), s, m) - if m == Cents then DriftOf(FactOf(r), s) else 0
  {
  }

  lemma {:induction false} OnlySnoc(fs: seq<Fact>, f: Fact, ids: set<Id>)
    ensures Only(fs + [f], ids) == Only(fs, ids) + if f.id in ids then [f] else []
  {
    assert (fs + [f])[..|fs|] == fs;
  }

  lemma {:induction false} LiveSplits(rows: seq<Row>, gone: set<Id>, s: Id, m: Measure)
    requires forall r | r in rows && r.id in gone :: IsLine(r)
    ensures Live(rows, s, m) == Live(Without(rows, gone), s, m) + Posted(Only(Lines(rows), gone), s, m)
                              - if m == Cents then Drift(Only(Lines(rows), gone), s) else 0
  {
    if rows != [] {
      var init, r := rows[..|rows| - 1], rows[|rows| - 1];
      assert r in rows && forall x | x in init :: x in rows;
      LiveSplits(init, gone, s, m);
      if r.id in gone {
        var fs, f := Lines(init), FactOf(r);
        OnlySnoc(fs, f, gone);
        PostedSnoc(Only(fs, gone), f, s, m);
        DriftSnoc(Only(fs, gone), f, s);
        LineShare(r, s, m);
      } else {
        LiveSnoc(Without(init, gone), r, s, m);
        if IsLine(r) { OnlySnoc(Lines(init), FactOf(r), gone); }
      }
    }
  }

  /** Sums over a statement's own lines. */
  function MoneyOf(lines: seq<Line>, paidIn: bool): int {
    if lines == [] then 0 else
    MoneyOf(lines[..|lines| - 1], paidIn) + if (lines[|lines| - 1].direction == Some(Credit)) == paidIn then lines[|lines| - 1].amount else 0
  }

  lemma {:induction false} LiveAppends(rows: seq<Row>, more: seq<Row>, s: Id, m: Measure)
    ensures Live(rows + more, s, m) == Live(rows, s, m) + Live(more, s, m)
  {
    if more == [] {
      assert rows + more == rows;
    } else {
      LiveAppends(rows, more[..|more| - 1], s, m);
      assert (rows + more)[..|rows + more| - 1] == rows + more[..|more| - 1];
    }
  }

  lemma {:induction false} LiveNone(rows: seq<Row>, s: Id, m: Measure)
    requires forall r | r in rows :: r.statement != Some(s)
    ensures Live(rows, s, m) == 0
  {
    if rows != [] {
      assert rows[|rows| - 1] in rows && forall r | r in rows[..|rows| - 1] :: r in rows;
      LiveNone(rows[..|rows| - 1], s, m);
    }
  }

  lemma {:induction false} RolledNone(rolls: seq<RollRow>, s: Id, m: Measure)
    requires forall x | x in rolls :: x.key.statement != Some(s)
    ensures RolledUp(rolls, s, m) == 0
  {
    if rolls != [] {
      assert rolls[|rolls| - 1] in rolls && forall x | x in rolls[..|rolls| - 1] :: x in rolls;
      RolledNone(rolls[..|rolls| - 1], s, m);
    }
  }

  lemma {:induction false} LiveImported(posts: seq<Row>, lines: seq<Line>, s: Id)
    requires |posts| == |lines| && forall i | 0 <= i < |posts| ::
      posts[i].kind == BankLine && posts[i].statement == Some(s) && posts[i].direction == lines[i].direction && posts[i].amount == lines[i].amount
    ensures Live(posts, s, Count) == |lines| && Live(posts, s, Cents) == MoneyOf(lines, true) - MoneyOf(lines, false)
  {
    if posts != [] { LiveImported(posts[..|posts| - 1], lines[..|lines| - 1], s); }
  }

  /** A statement imported whole reads as complete, and its expected balance is the opening one with the money paid in added and
      the money paid out taken off, or the other way round on a liability. */
  lemma {:induction false} ImportTiesOut(b: Books, account: Id, s: Id, lines: seq<Line>, os: seq<Outcome>, opening: int, liability: bool)
    requires |os| == |lines| && (forall r | r in b.rows :: r.statement != Some(s)) && (forall x | x in b.rolls :: x.key.statement != Some(s))
    requires Kept(Seen(b), NewRows(account, s, lines, os)) == NewRows(account, s, lines, os)
    ensures var c, paid := Imported(b, NewRows(account, s, lines, os)), MoneyOf(lines, true) - MoneyOf(lines, false);
      && OnLedger(c, s, Count) == |lines|
      && Expected(c, s, opening, liability) == if liability then opening - paid else opening + paid
  {
    var posts := NewRows(account, s, lines, os);
    LiveImported(posts, lines, s);
    forall m ensures OnLedger(Imported(b, posts), s, m) == Live(posts, s, m) {
      LiveAppends(b.rows, posts, s, m);
      LiveNone(b.rows, s, m);
      RolledNone(b.rolls, s, m);
    }
  }

  /** A shrink keeps every statement's line count, and its expected balance exactly when the shrunk lines' amounts do
      not drift. */
  lemma {:induction false} ShrinkTiesOut(b: Books, c: Books, refs: Refs, w: Window, ids: set<Id>, s: Id, opening: int, liability: bool)
    requires UniqueIds(b.rows) && IsShrunk(b, c, Picked(b.rows, refs, w, ids))
    ensures OnLedger(c, s, Count) == OnLedger(b, s, Count)
    ensures Expected(c, s, opening, liability) == Expected(b, s, opening, liability)
            <==> Drift(Only(Lines(b.rows), Picked(b.rows, refs, w, ids)), s) == 0
  {
    var gone := Picked(b.rows, refs, w, ids);
    forall r | r in b.rows && r.id in gone ensures IsLine(r) {
      PickedIs(b.rows, refs, w, ids, r);
    }
    LiveSplits(b.rows, gone, s, Count);
    LiveSplits(b.rows, gone, s, Cents);
  }

  lemma {:induction false} PlainNoDrift(fs: seq<Fact>, s: Id)
    requires Plain(fs)
    ensures Drift(fs, s) == 0
  {
    if fs != [] {
      assert fs[|fs| - 1] in fs && forall f | f in fs[..|fs| - 1] :: f in fs;
      PlainNoDrift(fs[..|fs| - 1], s);
    }
  }

  /** Statement rows carry one amount, so in any run a shrink leaves every balance as it was. */
  lemma {:induction false} RunTiesOut(b: Books, c: Books, log: seq<Fact>, refs: Refs, w: Window, ids: set<Id>, s: Id, opening: int, liability: bool)
    requires InStep(b, log) && Step(b, Shrink(refs, w, ids), c)
    ensures Expected(c, s, opening, liability) == Expected(b, s, opening, liability)
  {
    ShrinkTiesOut(b, c, refs, w, ids, s, opening, liability);
    PlainNoDrift(Only(Lines(b.rows), Picked(b.rows, refs, w, ids)), s);
  }

  // ── The position is unchanged ───────────────────────────────────────────────────────────────────────

  /** A countable expense: not a duplicate or ignored, a bank line or an unmatched receipt, money out, converted. */
  predicate Countable(r: Row) {
    && r.tags.status !in {Duplicate, Ignored}
    && (r.kind == BankLine || (r.kind == Receipt && r.tags.matchedTxn == None))
    && r.direction.GetOr(Debit) == Debit
    && !(r.foreign && r.aud == None)
  }

  datatype Group = Deduction | Excluded | CompanySpend

  /** deductionGroupForRow; `held` are the rows whose property earns no assessable rent. */
  function GroupOf(r: Row, bucket: Bucket, held: set<Id>, excludeNonDeductible: bool): Group {
    var v := r.tags.verdict.GetOr(Undetermined);
    if bucket == Company then CompanySpend
    else if r.tags.reimbursed then Excluded
    else if r.id in held then Excluded
    else if bucket in {Bucket.Asset, Bucket.Unknown} then Excluded
    else if v == Suggested then Excluded
    else if !excludeNonDeductible then Deduction
    else if v in {LikelyNot, ConfirmedNot, NeedsApportionment} then Excluded
    else if bucket == Payg && v == Undetermined then Excluded
    else Deduction
  }

  function Claim(r: Row): int {
    if r.tags.verdict == Some(ConfirmedDeductible) && r.tags.claim.Some? then r.tags.claim.value else r.aud.GetOr(r.amount)
  }

  predicate Counts(r: Row, fy: int, held: set<Id>, exclude: bool) {
    && Countable(r) && r.tags.bucket.Some? && r.date.Some? && FyStart(fy) <= r.date.value <= FyEnd(fy)
    && GroupOf(r, r.tags.bucket.value, held, exclude) == Deduction
  }

  /** The schedules a year's report and its accountant pack are made of. */
  datatype Schedule = Deductible | OfProperty | OfCompany | MoneyIn

  predicate InFy(r: Row, fy: int) { r.date.Some? && FyStart(fy) <= r.date.value <= FyEnd(fy) }

  predicate OnSchedule(k: Schedule, r: Row, fy: int, held: set<Id>, exclude: bool) {
    match k
    case Deductible => Counts(r, fy, held, exclude)
    case OfProperty => Countable(r) && InFy(r, fy) && r.tags.property.Some?
    case OfCompany => Countable(r) && InFy(r, fy) && r.tags.bucket == Some(Company)
    case MoneyIn => InFy(r, fy) && r.direction == Some(Credit)
  }

  /** What a row adds to a subtotal: the count of rows, or their cents, of one section of a schedule (a bucket, a return label,
      one property: any test on rows). */
  function Added(k: Schedule, section: Row -> bool, r: Row, fy: int, held: set<Id>, exclude: bool, m: Measure): int {
    if OnSchedule(k, r, fy, held, exclude) && section(r) then (if m.Count? then 1 else Claim(r)) else 0
  }

  function SumOf(rows: seq<Row>, f: Row -> int): int {
    if rows == [] then 0 else SumOf(rows[..|rows| - 1], f) + f(rows[|rows| - 1])
  }

  function Subtotal(k: Schedule, section: Row -> bool, rows: seq<Row>, fy: int, held: set<Id>, exclude: bool, m: Measure): int {
    SumOf(rows, (r: Row) => Added(k, section, r, fy, held, exclude, m))
  }

  function Deductions(rows: seq<Row>, fy: int, held: set<Id>, exclude: bool): int {
    Subtotal(Deductible, (r: Row) => true, rows, fy, held, exclude, Cents)
  }

  lemma {:induction false} SumSnoc(rows: seq<Row>, r: Row, f: Row -> int)
    ensures SumOf(rows + [r], f) == SumOf(rows, f) + f(r)
  {
    assert (rows + [r])[..|rows|] == rows;
  }

  /** Money out of the year that is anybody's to claim: a bank line, or a receipt not tied to one, converted, and neither a
      duplicate nor ignored. */
  predicate SpentIn(r: Row, fy: int) {
    && r.direction != Some(Credit) && r.kind != OtherKind && (r.kind == Receipt ==> r.tags.matchedTxn == None)
    && r.tags.status != Duplicate && r.tags.status != Ignored && (r.aud == None ==> !r.foreign)
    && r.date.Some? && fy * 10000 + 701 <= r.date.value <= (fy + 1) * 10000 + 630
  }

  /** Bucket by bucket, the verdicts with which a row is claimed: with the exclusion flag a wage earner's row needs a positive
      one, any other claimable bucket no negative one; a suggestion is never claimed. */
  predicate ClaimedWith(bucket: Option<Bucket>, verdict: Option<Verdict>, exclude: bool) {
    match bucket
    case Some(Payg) => if exclude then verdict in {Some(ConfirmedDeductible), Some(OtherVerdict)} else verdict != Some(Suggested)
    case Some(OtherBucket) =>
      if exclude then verdict in {None, Some(Undetermined), Some(ConfirmedDeductible), Some(OtherVerdict)} else verdict != Some(Suggested)
    case _ => false
  }

  lemma {:induction false} CountsIff(r: Row, fy: int, held: set<Id>, exclude: bool)
    ensures Counts(r, fy, held, exclude)
      <==> SpentIn(r, fy) && !r.tags.reimbursed && r.id !in held && ClaimedWith(r.tags.bucket, r.tags.verdict, exclude)
  {
    assert r.direction.Some? ==> r.direction.value.Debit? || r.direction.value.Credit?;
    if r.tags.verdict.Some? {
      var v := r.tags.verdict.value;
      assert v.Undetermined? || v.LikelyNot? || v.ConfirmedNot? || v.Suggested? || v.NeedsApportionment? || v.ConfirmedDeductible? || v.OtherVerdict?;
    }
  }

  /** What one row adds to each schedule of a year, by its columns: the part confirmed as deductible where there is one, and
      otherwise its amount in base currency, or as printed. */
  lemma {:induction false} RowAdds(k: Schedule, section: Row -> bool, rows: seq<Row>, r: Row, fy: int, held: set<Id>, exclude: bool, m: Measure)
    ensures Subtotal(k, section, [], fy, held, exclude, m) == 0
    ensures var on := match k
        case Deductible => SpentIn(r, fy) && !r.tags.reimbursed && r.id !in held && ClaimedWith(r.tags.bucket, r.tags.verdict, exclude)
        case OfProperty => SpentIn(r, fy) && r.tags.property.Some?
        case OfCompany => SpentIn(r, fy) && r.tags.bucket == Some(Company)
        case MoneyIn => r.direction == Some(Credit) && r.date.Some? && fy * 10000 + 701 <= r.date.value <= (fy + 1) * 10000 + 630;
      Subtotal(k, section, rows + [r], fy, held, exclude, m) - Subtotal(k, section, rows, fy, held, exclude, m)
        == if !on || !section(r) then 0 else if m == Count then 1
           else if r.tags.verdict == Some(ConfirmedDeductible) && r.tags.claim.Some? then r.tags.claim.value
           else if r.aud.Some? then r.aud.value else r.amount
  {
    CountsIff(r, fy, held, exclude);
    SumSnoc(rows, r, (x: Row) => Added(k, section, x, fy, held, exclude, m));
  }

  lemma {:induction false} UncountedGo(rows: seq<Row>, gone: set<Id>, f: Row -> int)
    requires forall r | r in rows && r.id in gone :: f(r) == 0
    ensures SumOf(Without(rows, gone), f) == SumOf(rows, f)
  {
    if rows != [] {
      var init, r := rows[..|rows| - 1], rows[|rows| - 1];
      assert r in rows && forall x | x in init :: x in rows;
      UncountedGo(init, gone, f);
      if r.id !in gone { SumSnoc(Without(init, gone), r, f); }
    }
  }

  /** An eligible line never counts, in any year, while the exclusion flag is on; with it off it counts in its own year
      exactly when it is not an ignored transfer, which is why the run refuses to start. */
  lemma {:induction false} EligibleNeverCounts(rows: seq<Row>, refs: Refs, w: Window, r: Row, fy: int, held: set<Id>)
    requires May(rows, refs, w, r)
    ensures !Counts(r, fy, held, true)
    ensures r.id !in held ==> (Counts(r, w.fy, held, false) <==> r.tags.status != Ignored)
  {
  }

  lemma {:induction false} SectionKept(b: Books, refs: Refs, w: Window, ids: set<Id>, k: Schedule, section: Row -> bool, fy: int, held: set<Id>, m: Measure)
    requires UniqueIds(b.rows)
    ensures var kept := Without(b.rows, Picked(b.rows, refs, w, ids));
      Subtotal(k, section, kept, fy, held, true, m) == Subtotal(k, section, b.rows, fy, held, true, m)
  {
    var gone, f := Picked(b.rows, refs, w, ids), (r: Row) => Added(k, section, r, fy, held, true, m);
    forall r | r in b.rows && r.id in gone ensures f(r) == 0 {
      PickedIs(b.rows, refs, w, ids, r);
      EligibleNeverCounts(b.rows, refs, w, r, fy, held);
      EligibleOnNoSchedule(b.rows, refs, w, r, k, fy, held);
    }
    UncountedGo(b.rows, gone, f);
  }

  lemma {:induction false} EligibleOnNoSchedule(rows: seq<Row>, refs: Refs, w: Window, r: Row, k: Schedule, fy: int, held: set<Id>)
    requires May(rows, refs, w, r)
    ensures !OnSchedule(k, r, fy, held, true)
  {
    EligibleNeverCounts(rows, refs, w, r, fy, held);
  }

  /** A shrink keeps every subtotal of every year: the count and the cents of any section of the deductions, of a property's
      spend, of company spend and of money in; so the position too. */
  lemma {:induction false} ShrinkKeepsSubtotals(b: Books, c: Books, refs: Refs, w: Window, ids: set<Id>,
      k: Schedule, section: Row -> bool, fy: int, held: set<Id>, m: Measure)
    requires UniqueIds(b.rows) && IsShrunk(b, c, Picked(b.rows, refs, w, ids))
    ensures Subtotal(k, section, c.rows, fy, held, true, m) == Subtotal(k, section, b.rows, fy, held, true, m)
    ensures Deductions(c.rows, fy, held, true) == Deductions(b.rows, fy, held, true)
  {
    SectionKept(b, refs, w, ids, k, section, fy, held, m);
    SectionKept(b, refs, w, ids, Deductible, (r: Row) => true, fy, held, Cents);
  }

  /** No kept row is left pointing at a shrunk one: refund netting and receipt matches still resolve. */
  lemma {:induction false} NoDanglingLinks(b: Books, c: Books, refs: Refs, w: Window, ids: set<Id>, o: Row, id: Id)
    requires UniqueIds(b.rows) && IsShrunk(b, c, Picked(b.rows, refs, w, ids))
    requires o in c.rows && Points(o, id) && id in AllIds(b.rows)
    ensures id in AllIds(c.rows)
  {
    var r :| r in b.rows && r.id == id;
    PickedIs(b.rows, refs, w, ids, r);
    assert Referenced(b.rows, id);
    assert r in c.rows;
  }
}
