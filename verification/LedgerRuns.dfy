/**
 * Whole runs of the statement ledger: import (src/agent.ts confirmImport), edits, shrinks and purges
 * (deleteStatement). The books are compared with a log of the lines posted and not since purged.
 */
module LedgerRuns {
  import opened Options
  import opened Fingerprint
  import opened Ledger

  // ── Import ──────────────────────────────────────────────────────────────────────────────────────────

  function LiveMarks(rows: seq<Row>): set<Mark> {
    set r | r in rows && r.account.Some? && r.fp.Some? :: Mark(r.account.value, r.fp.value)
  }

  /** The fingerprints a re-upload skips: live lines and, while the minimisation flag is on, tombstones. */
  function SeenBy(b: Books, on: bool): set<Mark> { LiveMarks(b.rows) + if on then b.tombs.Keys else {} }

  function Seen(b: Books): set<Mark> { SeenBy(b, true) }

  /** What the categoriser and the clock decide about a new row; a statement row carries one base-currency amount. */
  datatype Outcome = Outcome(id: Id, tags: Tags, created: int)

  function NewRow(account: Id, statement: Id, l: Line, p: Print, o: Outcome): Row {
    Row(o.id, BankLine, Source.Statement, Some(account), Some(statement), Some(p), Some(l.date), l.direction, l.amount, Some(l.amount),
        false, o.created, o.tags)
  }

  /** A statement's lines as the rows they would be posted as. */
  function NewRows(account: Id, statement: Id, lines: seq<Line>, os: seq<Outcome>): (rows: seq<Row>)
    requires |os| == |lines|
    ensures |rows| == |lines|
    ensures forall i | 0 <= i < |rows| :: rows[i] == NewRow(account, statement, lines[i], Prints(account, lines)[i], os[i])
  {
    seq(|lines|, i requires 0 <= i < |lines| => NewRow(account, statement, lines[i], Prints(account, lines)[i], os[i]))
  }

  function MarkOf(r: Row): Mark
    requires IsLine(r)
  {
    FactOf(r).mark
  }

  predicate OnFile(seen: set<Mark>, r: Row) { IsLine(r) && MarkOf(r) in seen }

  /** The rows whose fingerprint is not on file. */
  function Kept(seen: set<Mark>, posts: seq<Row>): (kept: seq<Row>)
    ensures forall r :: r in kept <==> r in posts && !OnFile(seen, r)
  {
    if posts == [] then [] else
    var init, r := posts[..|posts| - 1], posts[|posts| - 1];
    assert forall x :: x in posts <==> x in init || x == r;
    if OnFile(seen, r) then Kept(seen, init) else Kept(seen, init) + [r]
  }

  predicate AllLines(rows: seq<Row>) { forall r | r in rows :: IsLine(r) }

  predicate DistinctMarks(rows: seq<Row>)
    requires AllLines(rows)
  {
    forall i, j | 0 <= i < j < |rows| :: MarkOf(rows[i]) != MarkOf(rows[j])
  }

  /** One statement never posts a fingerprint twice. */
  lemma {:induction false} NewRowsDistinct(account: Id, statement: Id, lines: seq<Line>, os: seq<Outcome>)
    requires |os| == |lines|
    ensures AllLines(NewRows(account, statement, lines, os)) && DistinctMarks(NewRows(account, statement, lines, os))
  {
    PrintsDistinct(account, lines);
  }

  /** The fingerprint of line i was on file: on a live row of the account, or, with the flag on, under a tombstone. */
  predicate WasOnFile(b: Books, account: Id, p: Print, on: bool) {
    (exists o | o in b.rows :: o.account == Some(account) && o.fp == Some(p)) || (on && Mark(account, p) in b.tombs)
  }

  /** The row line i is posted as, column by column. */
  predicate PostedAs(r: Row, account: Id, statement: Id, l: Line, p: Print, o: Outcome) {
    && r.id == o.id && r.kind == BankLine && r.source == Source.Statement && r.account == Some(account) && r.statement == Some(statement)
    && r.fp == Some(p) && r.date == Some(l.date) && r.direction == l.direction && r.amount == l.amount && r.aud == Some(l.amount)
    && !r.foreign && r.created == o.created && r.tags == o.tags
  }

  /** An import posts, for each line whose fingerprint was not on file, that line's row, and nothing else. */
  lemma {:induction false} ImportPosts(b: Books, account: Id, statement: Id, lines: seq<Line>, os: seq<Outcome>, on: bool, r: Row)
    requires |os| == |lines|
    ensures r in Kept(SeenBy(b, on), NewRows(account, statement, lines, os)) <==>
      exists i | 0 <= i < |lines| :: PostedAs(r, account, statement, lines[i], Prints(account, lines)[i], os[i])
        && !WasOnFile(b, account, Prints(account, lines)[i], on)
  {
    var rows := NewRows(account, statement, lines, os);
    assert forall p :: Mark(account, p) in SeenBy(b, on) <==> WasOnFile(b, account, p, on);
    if i :| 0 <= i < |lines| && PostedAs(r, account, statement, lines[i], Prints(account, lines)[i], os[i]) { assert rows[i] == r; }
  }

  class StatementImport {
    var db: Books

    constructor (db: Books)
      ensures this.db == db
    {
      this.db := db;
    }

    /** confirmImport's loop: skip what is on file, post the rest, and remember each fingerprint as it goes. */
    method ConfirmImport(account: Id, statement: Id, lines: seq<Line>, os: seq<Outcome>, on: bool) returns (imported: nat, skipped: nat)
      requires |os| == |lines| && AllLines(NewRows(account, statement, lines, os))
      modifies this
      ensures db == old(db).(rows := old(db).rows + Kept(SeenBy(old(db), on), NewRows(account, statement, lines, os)))
      ensures imported == |Kept(SeenBy(old(db), on), NewRows(account, statement, lines, os))| && imported + skipped == |lines|
    {
      var fps := StatementPrints(account, lines);
      var posts := seq(|lines|, i requires 0 <= i < |lines| => NewRow(account, statement, lines[i], fps[i], os[i]));
      assert posts == NewRows(account, statement, lines, os);
      NewRowsDistinct(account, statement, lines, os);
      var inserts;
      inserts, skipped := Inserts(posts, SeenBy(db, on));
      db := db.(rows := db.rows + inserts);
      imported := |inserts|;
    }
  }

  method Inserts(posts: seq<Row>, onFile: set<Mark>) returns (inserts: seq<Row>, skipped: nat)
    requires AllLines(posts) && DistinctMarks(posts)
    ensures inserts == Kept(onFile, posts) && skipped + |inserts| == |posts|
  {
    var seen := onFile;
    inserts, skipped := [], 0;
    for i := 0 to |posts|
      invariant inserts == Kept(onFile, posts[..i]) && skipped + |inserts| == i
      invariant seen == onFile + MarksOf(posts[..i])
    {
      NewMark(posts, onFile, i);
      var r := posts[i];
      if OnFile(seen, r) {
        skipped := skipped + 1;
      } else {
        inserts := inserts + [r];
      }
      seen := seen + {MarkOf(r)};
    }
    assert posts[..|posts|] == posts;
  }

  function MarksOf(rows: seq<Row>): set<Mark> { set r | r in rows && IsLine(r) :: MarkOf(r) }

  lemma {:induction false} NewMark(posts: seq<Row>, onFile: set<Mark>, i: nat)
    requires AllLines(posts) && DistinctMarks(posts) && i < |posts|
    ensures OnFile(onFile + MarksOf(posts[..i]), posts[i]) <==> OnFile(onFile, posts[i])
    ensures MarksOf(posts[..i + 1]) == MarksOf(posts[..i]) + {MarkOf(posts[i])}
    ensures Kept(onFile, posts[..i + 1]) == Kept(onFile, posts[..i]) + if OnFile(onFile, posts[i]) then [] else [posts[i]]
  {
    forall r | r in posts[..i] ensures MarkOf(r) != MarkOf(posts[i]) {
      var j :| 0 <= j < i && posts[j] == r;
    }
    var all := posts[..i + 1];
    assert all[..i] == posts[..i] && all == posts[..i] + [posts[i]];
    assert forall r :: r in all <==> r in posts[..i] || r == posts[i];
  }

  // ── Remove and re-import ────────────────────────────────────────────────────────────────────────────

  predicate IsOf(r: Row, s: Id) { r.kind == BankLine && r.statement == Some(s) }

  function OfStatement(rows: seq<Row>, s: Id): set<Id> { set r | r in rows && IsOf(r, s) :: r.id }

  /** A receipt matched to a deleted line goes back to extracted. */
  function Unmatched(rows: seq<Row>, lines: set<Id>): (out: seq<Row>)
    ensures |out| == |rows| && Lines(out) == Lines(rows)
    ensures forall i | 0 <= i < |rows| :: out[i].id == rows[i].id && out[i] == rows[i].(tags := out[i].tags)
  {
    if rows == [] then [] else
    var r := rows[|rows| - 1];
    var t := r.tags.(matchedTxn := None, status := OtherStatus);
    Unmatched(rows[..|rows| - 1], lines)
      + [if r.kind == Receipt && r.tags.matchedTxn.Some? && r.tags.matchedTxn.value in lines then r.(tags := t) else r]
  }

  function WithoutRolls(rolls: seq<RollRow>, s: Id): (kept: seq<RollRow>)
    ensures forall r :: r in kept <==> r in rolls && r.key.statement != Some(s)
  {
    if rolls == [] then [] else
    var init, r := rolls[..|rolls| - 1], rolls[|rolls| - 1];
    assert forall x :: x in rolls <==> x in init || x == r;
    if r.key.statement == Some(s) then WithoutRolls(init, s) else WithoutRolls(init, s) + [r]
  }

  function WithoutTombs(tombs: map<Mark, Tomb>, s: Id): map<Mark, Tomb> { map m | m in tombs && tombs[m].statement != Some(s) :: tombs[m] }

  /** deleteStatement with purge: the statement's lines go, and while the flag is on its rollups and tombstones too. */
  function PurgedBy(b: Books, s: Id, on: bool): Books {
    var gone := OfStatement(b.rows, s);
    Books(Without(Unmatched(b.rows, gone), gone), if on then WithoutRolls(b.rolls, s) else b.rolls, if on then WithoutTombs(b.tombs, s) else b.tombs)
  }

  function Purged(b: Books, s: Id): Books { PurgedBy(b, s, true) }

  /** What a purge of statement s leaves of a row: a receipt matched to one of its lines is unmatched and put back to extracted,
      every other row is as it was. */
  predicate LeftBy(b: Books, s: Id, o: Row, r: Row) {
    if o.kind == Receipt && exists l | l in b.rows :: l.kind == BankLine && l.statement == Some(s) && o.tags.matchedTxn == Some(l.id)
    then r == o.(tags := o.tags.(matchedTxn := None, status := OtherStatus)) else r == o
  }

  lemma {:induction false} UnmatchedIn(rows: seq<Row>, lines: set<Id>, r: Row)
    ensures r in Unmatched(rows, lines) <==> exists o | o in rows ::
      r == if o.kind == Receipt && o.tags.matchedTxn.Some? && o.tags.matchedTxn.value in lines
           then o.(tags := o.tags.(matchedTxn := None, status := OtherStatus)) else o
  {
    if rows != [] {
      assert forall o :: o in rows <==> o in rows[..|rows| - 1] || o == rows[|rows| - 1];
      UnmatchedIn(rows[..|rows| - 1], lines, r);
    }
  }

  /** A purge removes the statement's bank lines and unmatches their receipts, and with the flag on removes its rollups and
      tombstones; all else stays. */
  lemma {:induction false} PurgeLeaves(b: Books, s: Id, on: bool)
    requires UniqueIds(b.rows)
    ensures var c := PurgedBy(b, s, on);
      && (forall r :: r in c.rows <==> exists o | o in b.rows :: !(o.kind == BankLine && o.statement == Some(s)) && LeftBy(b, s, o, r))
      && (forall x :: x in c.rolls <==> x in b.rolls && !(on && x.key.statement == Some(s)))
      && (forall m :: m in c.tombs <==> m in b.tombs && !(on && b.tombs[m].statement == Some(s)))
      && (forall m | m in c.tombs :: c.tombs[m] == b.tombs[m])
  {
    forall r ensures r in PurgedBy(b, s, on).rows <==> exists o | o in b.rows :: !(o.kind == BankLine && o.statement == Some(s)) && LeftBy(b, s, o, r) {
      PurgeLeavesRow(b, s, r);
    }
  }

  lemma {:induction false} GoneAre(rows: seq<Row>, s: Id, o: Row)
    requires UniqueIds(rows) && o in rows
    ensures o.id in OfStatement(rows, s) <==> o.kind == BankLine && o.statement == Some(s)
  {
    if o.id in OfStatement(rows, s) {
      var l :| l in rows && IsOf(l, s) && l.id == o.id;
      SameId(rows, o, l);
    }
  }

  lemma {:induction false} PurgeLeavesRow(b: Books, s: Id, r: Row)
    requires UniqueIds(b.rows)
    ensures r in Without(Unmatched(b.rows, OfStatement(b.rows, s)), OfStatement(b.rows, s))
      <==> exists o | o in b.rows :: !(o.kind == BankLine && o.statement == Some(s)) && LeftBy(b, s, o, r)
  {
    UnmatchedIn(b.rows, OfStatement(b.rows, s), r);
    forall o | o in b.rows ensures o.id in OfStatement(b.rows, s) <==> o.kind == BankLine && o.statement == Some(s) { GoneAre(b.rows, s, o); }
  }

  function Keeping(fs: seq<Fact>, s: Id): (kept: seq<Fact>)
    ensures forall f :: f in kept <==> f in fs && f.statement != Some(s)
  {
    if fs == [] then [] else
    var init, f := fs[..|fs| - 1], fs[|fs| - 1];
    assert forall x :: x in fs <==> x in init || x == f;
    if f.statement == Some(s) then Keeping(init, s) else Keeping(init, s) + [f]
  }

  lemma {:induction false} PurgedLines(rows: seq<Row>, s: Id, gone: set<Id>)
    requires forall r | r in rows :: r.id in gone <==> IsOf(r, s)
    ensures Except(Lines(rows), gone) == Keeping(Lines(rows), s)
  {
    if rows != [] {
      var init, r := rows[..|rows| - 1], rows[|rows| - 1];
      assert r in rows && forall x | x in init :: x in rows;
      PurgedLines(init, s, gone);
      if IsLine(r) { assert Lines(rows)[..|Lines(init)|] == Lines(init); }
    }
  }

  lemma {:induction false} PurgeLines(b: Books, s: Id)
    requires UniqueIds(b.rows)
    ensures forall on :: Lines(PurgedBy(b, s, on).rows) == Keeping(Lines(b.rows), s) && UniqueIds(PurgedBy(b, s, on).rows)
  {
    var gone := OfStatement(b.rows, s);
    var rows := Unmatched(b.rows, gone);
    LinesWithout(rows, gone);
    WithoutUnique(rows, gone);
    forall r | r in b.rows ensures r.id in gone <==> IsOf(r, s) {
      if r.id in gone {
        var o :| o in b.rows && IsOf(o, s) && o.id == r.id;
        SameId(b.rows, r, o);
      }
    }
    PurgedLines(b.rows, s, gone);
  }

  lemma {:induction false} KeepingTotal(fs: seq<Fact>, s: Id, k: RollKey)
    ensures Total(Keeping(fs, s), k) == if k.statement == Some(s) then ZERO else Total(fs, k)
  {
    if fs != [] {
      var init, f := fs[..|fs| - 1], fs[|fs| - 1];
      KeepingTotal(init, s, k);
      TotalSnoc(Keeping(init, s), f, k);
    }
  }

  lemma {:induction false} KeepingPosted(fs: seq<Fact>, s: Id, t: Id, m: Measure)
    ensures Posted(Keeping(fs, s), t, m) == if t == s then 0 else Posted(fs, t, m)
  {
    if fs != [] {
      var init, f := fs[..|fs| - 1], fs[|fs| - 1];
      KeepingPosted(init, s, t, m);
      PostedSnoc(Keeping(init, s), f, t, m);
    }
  }

  lemma {:induction false} WithoutRollsAt(rolls: seq<RollRow>, s: Id, k: RollKey)
    ensures RollAt(WithoutRolls(rolls, s), k) == if k.statement == Some(s) then ZERO else RollAt(rolls, k)
  {
    if rolls != [] {
      var init, r := rolls[..|rolls| - 1], rolls[|rolls| - 1];
      WithoutRollsAt(init, s, k);
      if r.key.statement != Some(s) {
        assert WithoutRolls(rolls, s)[..|WithoutRolls(init, s)|] == WithoutRolls(init, s);
      }
    }
  }

  lemma {:induction false} WithoutRollsUp(rolls: seq<RollRow>, s: Id, t: Id, m: Measure)
    ensures RolledUp(WithoutRolls(rolls, s), t, m) == if t == s then 0 else RolledUp(rolls, t, m)
  {
    if rolls != [] {
      var init, r := rolls[..|rolls| - 1], rolls[|rolls| - 1];
      WithoutRollsUp(init, s, t, m);
      RolledSnoc(WithoutRolls(init, s), r, t, m);
    }
  }

  lemma {:induction false} WithoutRollsUnique(rolls: seq<RollRow>, s: Id)
    requires UniqueKeys(rolls)
    ensures UniqueKeys(WithoutRolls(rolls, s))
  {
    if rolls != [] {
      var init, r := rolls[..|rolls| - 1], rolls[|rolls| - 1];
      UniqueInit(rolls);
      WithoutRollsUnique(init, s);
      var kept := WithoutRolls(init, s);
      forall i | 0 <= i < |kept| ensures kept[i].key != r.key {
        assert kept[i] in init;
      }
    }
  }

  // ── What every run keeps ────────────────────────────────────────────────────────────────────────────

  /** Primary keys, and only bank lines carry a fingerprint. */
  predicate Keyed(b: Books) {
    && UniqueIds(b.rows) && UniqueKeys(b.rolls)
    && forall r | r in b.rows && r.account.Some? && r.fp.Some? :: IsLine(r)
  }

  predicate NoneTwice(log: seq<Fact>) { forall i, j | 0 <= i < j < |log| :: log[i].mark != log[j].mark }

  function Among(fs: seq<Fact>, ms: set<Mark>): (kept: seq<Fact>)
    ensures forall f :: f in kept <==> f in fs && f.mark in ms
  {
    if fs == [] then [] else
    var init, f := fs[..|fs| - 1], fs[|fs| - 1];
    assert forall x :: x in fs <==> x in init || x == f;
    if f.mark in ms then Among(init, ms) + [f] else Among(init, ms)
  }

  function Outside(fs: seq<Fact>, ms: set<Mark>): (kept: seq<Fact>)
    ensures forall f :: f in kept <==> f in fs && f.mark !in ms
  {
    if fs == [] then [] else
    var init, f := fs[..|fs| - 1], fs[|fs| - 1];
    assert forall x :: x in fs <==> x in init || x == f;
    if f.mark in ms then Outside(init, ms) else Outside(init, ms) + [f]
  }

  /** The live lines are exactly the posted ones without a tombstone, in the order they were posted. */
  predicate LiveAre(b: Books, log: seq<Fact>) { Lines(b.rows) == Outside(log, b.tombs.Keys) }

  /** Each tombstone is a posted line's, with that line's own year and statement. */
  ghost predicate TombsAre(b: Books, log: seq<Fact>) {
    && (forall f | f in log && f.mark in b.tombs :: b.tombs[f.mark] == f.ToTomb())
    && forall m | m in b.tombs :: exists f | f in log :: f.mark == m
  }

  /** The rollups hold exactly the counts, cents and dates of the posted lines that have a tombstone. */
  ghost predicate RollsAre(rolls: seq<RollRow>, fs: seq<Fact>) {
    && (forall k :: RollAt(rolls, k) == Total(fs, k))
    && forall s, m :: RolledUp(rolls, s, m) == Posted(fs, s, m)
  }

  /** Live lines and rollups together hold the log's counts, cents and date ranges, key by key, and each statement's
      count and signed cents. */
  ghost predicate Conserved(b: Books, log: seq<Fact>) {
    && (forall k :: Plus(RollAt(b.rolls, k), Total(Lines(b.rows), k)) == Total(log, k))
    && forall s, m :: RolledUp(b.rolls, s, m) + Posted(Lines(b.rows), s, m) == Posted(log, s, m)
  }

  lemma {:induction false} TotalParts(fs: seq<Fact>, ms: set<Mark>, k: RollKey)
    ensures Total(fs, k) == Plus(Total(Among(fs, ms), k), Total(Outside(fs, ms), k))
  {
    if fs == [] {
      PlusZero(ZERO);
    } else {
      var init, f := fs[..|fs| - 1], fs[|fs| - 1];
      TotalParts(init, ms, k);
      TotalSnoc(Among(init, ms), f, k);
      TotalSnoc(Outside(init, ms), f, k);
      CountedEither(Total(Among(init, ms), k), Total(Outside(init, ms), k), f, k);
    }
  }

  lemma {:induction false} PostedParts(fs: seq<Fact>, ms: set<Mark>, s: Id, m: Measure)
    ensures Posted(fs, s, m) == Posted(Among(fs, ms), s, m) + Posted(Outside(fs, ms), s, m)
  {
    if fs != [] {
      var init, f := fs[..|fs| - 1], fs[|fs| - 1];
      PostedParts(init, ms, s, m);
      PostedSnoc(Among(init, ms), f, s, m);
      PostedSnoc(Outside(init, ms), f, s, m);
    }
  }

  /** So the compressed ledger agrees with the full one. */
  lemma {:induction false} InStepConserves(b: Books, log: seq<Fact>)
    requires InStep(b, log)
    ensures Conserved(b, log)
  {
    forall k ensures Plus(RollAt(b.rolls, k), Total(Lines(b.rows), k)) == Total(log, k) {
      TotalParts(log, b.tombs.Keys, k);
    }
    forall s, m ensures RolledUp(b.rolls, s, m) + Posted(Lines(b.rows), s, m) == Posted(log, s, m) {
      PostedParts(log, b.tombs.Keys, s, m);
    }
  }

  lemma {:induction false} LogUnique(log: seq<Fact>)
    requires NoneTwice(log)
    ensures UniqueMarks(log)
  {
    forall f, g | f in log && g in log && f.mark == g.mark ensures f == g {
      var i :| 0 <= i < |log| && log[i] == f;
      var j :| 0 <= j < |log| && log[j] == g;
    }
  }

  // Shrink

  lemma {:induction false} OutsideShrinks(log: seq<Fact>, ms: set<Mark>, more: set<Mark>, gone: set<Id>)
    requires forall f | f in log && f.mark !in ms :: f.mark in more <==> f.id in gone
    ensures Outside(log, ms + more) == Except(Outside(log, ms), gone)
  {
    if log != [] {
      var init, f := log[..|log| - 1], log[|log| - 1];
      assert f in log && forall x | x in init :: x in log;
      OutsideShrinks(init, ms, more, gone);
      if f.mark !in ms { assert (Outside(init, ms) + [f])[..|Outside(init, ms)|] == Outside(init, ms); }
    }
  }

  lemma {:induction false} AmongShrinks(log: seq<Fact>, ms: set<Mark>, more: set<Mark>, gone: set<Id>, k: RollKey)
    requires forall f | f in log && f.mark !in ms :: f.mark in more <==> f.id in gone
    ensures Total(Among(log, ms + more), k) == Plus(Total(Among(log, ms), k), Total(Only(Outside(log, ms), gone), k))
  {
    if log == [] {
      PlusZero(ZERO);
    } else {
      var init, f := log[..|log| - 1], log[|log| - 1];
      assert f in log && forall x | x in init :: x in log;
      AmongShrinks(init, ms, more, gone, k);
      var kept, live := Among(init, ms), Outside(init, ms);
      TotalSnoc(Among(init, ms + more), f, k);
      TotalSnoc(kept, f, k);
      CountedEither(Total(kept, k), Total(Only(live, gone), k), f, k);
      if f.mark !in ms {
        FactOnlySnoc(live, f, gone);
        TotalSnoc(Only(live, gone), f, k);
      }
    }
  }

  lemma {:induction false} FactOnlySnoc(fs: seq<Fact>, f: Fact, ids: set<Id>)
    ensures Only(fs + [f], ids) == if f.id in ids then Only(fs, ids) + [f] else Only(fs, ids)
  {
    assert (fs + [f])[..|fs|] == fs;
  }

  lemma {:induction false} AmongShrinksPosted(log: seq<Fact>, ms: set<Mark>, more: set<Mark>, gone: set<Id>, s: Id, m: Measure)
    requires forall f | f in log && f.mark !in ms :: f.mark in more <==> f.id in gone
    ensures Posted(Among(log, ms + more), s, m) == Posted(Among(log, ms), s, m) + Posted(Only(Outside(log, ms), gone), s, m)
  {
    if log != [] {
      var init, f := log[..|log| - 1], log[|log| - 1];
      assert f in log && forall x | x in init :: x in log;
      AmongShrinksPosted(init, ms, more, gone, s, m);
      var kept, live := Among(init, ms), Outside(init, ms);
      PostedSnoc(Among(init, ms + more), f, s, m);
      PostedSnoc(kept, f, s, m);
      if f.mark !in ms {
        FactOnlySnoc(live, f, gone);
        PostedSnoc(Only(live, gone), f, s, m);
      }
    }
  }

  /** The tombstones a shrink adds are those of the shrunk lines and no other live one. */
  lemma {:induction false} ShrunkMarks(b: Books, c: Books, gone: set<Id>, log: seq<Fact>)
    requires IsShrunk(b, c, gone) && LiveAre(b, log) && NoneTwice(log)
    ensures c.tombs.Keys == b.tombs.Keys + LogMarks(Only(Lines(b.rows), gone))
    ensures forall f | f in log && f.mark !in b.tombs :: f.mark in LogMarks(Only(Lines(b.rows), gone)) <==> f.id in gone
  {
    var picked := Only(Lines(b.rows), gone);
    LogUnique(log);
    forall m ensures m in c.tombs.Keys <==> m in b.tombs.Keys + LogMarks(picked) {
      TombedAt(b.tombs, picked, m);
    }
    forall f | f in log && f.mark !in b.tombs ensures f.mark in LogMarks(picked) <==> f.id in gone {
      assert f in Lines(b.rows);
      if f.id in gone { assert f in picked; }
      if f.mark in LogMarks(picked) {
        var g :| g in picked && g.mark == f.mark;
        assert g in log && g == f;
      }
    }
  }

  lemma {:induction false} ShrinkLive(b: Books, c: Books, gone: set<Id>, log: seq<Fact>)
    requires IsShrunk(b, c, gone) && LiveAre(b, log) && NoneTwice(log)
    ensures LiveAre(c, log)
  {
    ShrunkMarks(b, c, gone, log);
    LinesWithout(b.rows, gone);
    OutsideShrinks(log, b.tombs.Keys, LogMarks(Only(Lines(b.rows), gone)), gone);
  }

  lemma {:induction false} ShrinkTombs(b: Books, c: Books, gone: set<Id>, log: seq<Fact>)
    requires IsShrunk(b, c, gone) && LiveAre(b, log) && NoneTwice(log) && TombsAre(b, log)
    ensures TombsAre(c, log)
  {
    var picked := Only(Lines(b.rows), gone);
    LogUnique(log);
    forall f | f in log && f.mark in c.tombs ensures c.tombs[f.mark] == f.ToTomb() {
      TombedAt(b.tombs, picked, f.mark);
      if f.mark !in b.tombs {
        var g :| g in picked && g.mark == f.mark && c.tombs[f.mark] == g.ToTomb();
        assert g in log && g == f;
      }
    }
    forall m | m in c.tombs ensures exists f | f in log :: f.mark == m {
      TombedAt(b.tombs, picked, m);
      if m !in b.tombs {
        var f :| f in picked && f.mark == m;
        assert f in log;
      }
    }
  }

  lemma {:induction false} ShrinkRolls(b: Books, c: Books, gone: set<Id>, log: seq<Fact>)
    requires IsShrunk(b, c, gone) && LiveAre(b, log) && NoneTwice(log) && RollsAre(b.rolls, Among(log, b.tombs.Keys))
    ensures RollsAre(c.rolls, Among(log, c.tombs.Keys))
  {
    var more := LogMarks(Only(Lines(b.rows), gone));
    ShrunkMarks(b, c, gone, log);
    forall k ensures RollAt(c.rolls, k) == Total(Among(log, c.tombs.Keys), k) {
      AmongShrinks(log, b.tombs.Keys, more, gone, k);
    }
    forall s, m ensures RolledUp(c.rolls, s, m) == Posted(Among(log, c.tombs.Keys), s, m) {
      AmongShrinksPosted(log, b.tombs.Keys, more, gone, s, m);
    }
  }

  // Import

  lemma {:induction false} LinesAppend(rows: seq<Row>, more: seq<Row>)
    ensures Lines(rows + more) == Lines(rows) + Lines(more)
  {
    if more == [] {
      assert rows + more == rows;
    } else {
      var init := more[..|more| - 1];
      assert (rows + more)[..|rows + more| - 1] == rows + init;
      LinesAppend(rows, init);
    }
  }

  lemma {:induction false} OutsideAll(gs: seq<Fact>, ms: set<Mark>)
    requires forall i | 0 <= i < |gs| :: gs[i].mark !in ms
    ensures Outside(gs, ms) == gs && Among(gs, ms) == []
  {
    if gs != [] {
      var init, g := gs[..|gs| - 1], gs[|gs| - 1];
      OutsideAll(init, ms);
      assert gs == init + [g];
    }
  }

  lemma {:induction false} Associates(a: seq<Fact>, b: seq<Fact>, c: seq<Fact>)
    ensures a + b + c == a + (b + c)
  {
  }

  /** The last element of the second list is the last of both. */
  lemma {:induction false} LastOfBoth(fs: seq<Fact>, gs: seq<Fact>)
    requires gs != []
    ensures fs + gs != [] && (fs + gs)[..|fs + gs| - 1] == fs + gs[..|gs| - 1] && (fs + gs)[|fs + gs| - 1] == gs[|gs| - 1]
  {
  }

  lemma {:induction false} OutsideAppends(fs: seq<Fact>, gs: seq<Fact>, ms: set<Mark>)
    ensures Outside(fs + gs, ms) == Outside(fs, ms) + Outside(gs, ms)
  {
    if gs == [] {
      assert fs + gs == fs;
    } else {
      var init, g := gs[..|gs| - 1], gs[|gs| - 1];
      LastOfBoth(fs, gs);
      OutsideAppends(fs, init, ms);
      Associates(Outside(fs, ms), Outside(init, ms), [g]);
    }
  }

  lemma {:induction false} AmongAppends(fs: seq<Fact>, gs: seq<Fact>, ms: set<Mark>)
    ensures Among(fs + gs, ms) == Among(fs, ms) + Among(gs, ms)
  {
    if gs == [] {
      assert fs + gs == fs;
    } else {
      var init, g := gs[..|gs| - 1], gs[|gs| - 1];
      LastOfBoth(fs, gs);
      AmongAppends(fs, init, ms);
      Associates(Among(fs, ms), Among(init, ms), [g]);
    }
  }

  lemma {:induction false} OutsideSnoc(fs: seq<Fact>, f: Fact, ms: set<Mark>)
    ensures Outside(fs + [f], ms) == if f.mark in ms then Outside(fs, ms) else Outside(fs, ms) + [f]
  {
    assert (fs + [f])[..|fs|] == fs;
  }

  lemma {:induction false} AmongSnoc(fs: seq<Fact>, f: Fact, ms: set<Mark>)
    ensures Among(fs + [f], ms) == if f.mark in ms then Among(fs, ms) + [f] else Among(fs, ms)
  {
    assert (fs + [f])[..|fs|] == fs;
  }

  lemma {:induction false} PartsAppend(fs: seq<Fact>, gs: seq<Fact>, ms: set<Mark>)
    requires forall g | g in gs :: g.mark !in ms
    ensures Outside(fs + gs, ms) == Outside(fs, ms) + gs && Among(fs + gs, ms) == Among(fs, ms)
  {
    OutsideAll(gs, ms);
    OutsideAppends(fs, gs, ms);
    AmongAppends(fs, gs, ms);
  }

  function LogMarks(log: seq<Fact>): set<Mark> { set f | f in log :: f.mark }

  lemma {:induction false} LiveMarksAre(b: Books)
    requires Keyed(b)
    ensures LiveMarks(b.rows) == LogMarks(Lines(b.rows))
  {
    forall r | r in b.rows && r.account.Some? && r.fp.Some? ensures Mark(r.account.value, r.fp.value) in LogMarks(Lines(b.rows)) {
      assert FactOf(r) in Lines(b.rows);
    }
    forall f | f in Lines(b.rows) ensures f.mark in LiveMarks(b.rows) {
      var r :| r in b.rows && IsLine(r) && FactOf(r) == f;
    }
  }

  /** What is on file is exactly what the log says was posted. */
  lemma {:induction false} SeenIsLog(b: Books, log: seq<Fact>)
    requires Keyed(b) && LiveAre(b, log) && TombsAre(b, log)
    ensures Seen(b) == LogMarks(log)
  {
    LiveMarksAre(b);
    forall m | m in Seen(b) ensures m in LogMarks(log) {
      if m in b.tombs {
        var f :| f in log && f.mark == m;
      }
    }
    forall f | f in log ensures f.mark in Seen(b) {
      if f.mark !in b.tombs { assert f in Lines(b.rows); }
    }
  }

  lemma {:induction false} NoneTwiceSnoc(log: seq<Fact>, f: Fact)
    requires NoneTwice(log) && forall g | g in log :: g.mark != f.mark
    ensures NoneTwice(log + [f])
  {
    var all := log + [f];
    forall i, j | 0 <= i < j < |all| ensures all[i].mark != all[j].mark {
      assert log[i] in log;
    }
  }

  lemma {:induction false} KeptSnoc(seen: set<Mark>, init: seq<Row>, r: Row)
    requires IsLine(r)
    ensures Lines(Kept(seen, init + [r])) == Lines(Kept(seen, init)) + (if OnFile(seen, r) then [] else [FactOf(r)])
  {
    assert (init + [r])[..|init|] == init;
    if !OnFile(seen, r) {
      var k := Kept(seen, init);
      assert (k + [r])[..|k|] == k;
    }
  }

  lemma {:induction false} KeptFacts(seen: set<Mark>, posts: seq<Row>)
    requires AllLines(posts)
    ensures forall f | f in Lines(Kept(seen, posts)) :: f.mark !in seen && f.mark in MarksOf(posts)
  {
    forall f | f in Lines(Kept(seen, posts)) ensures f.mark !in seen && f.mark in MarksOf(posts) {
      var r :| r in Kept(seen, posts) && IsLine(r) && FactOf(r) == f;
    }
  }

  lemma {:induction false} NotYetPosted(log: seq<Fact>, init: seq<Row>, r: Row, seen: set<Mark>)
    requires AllLines(init + [r]) && DistinctMarks(init + [r]) && LogMarks(log) <= seen && !OnFile(seen, r)
    ensures forall f | f in log + Lines(Kept(seen, init)) :: f.mark != MarkOf(r)
  {
    var posts, k := init + [r], Lines(Kept(seen, init));
    assert posts[..|init|] == init && forall x | x in init :: x in posts;
    KeptFacts(seen, init);
    forall f | f in log + k ensures f.mark != MarkOf(r) {
      if f in k { NotRepeated(posts, f.mark); } else { assert f.mark in LogMarks(log); }
    }
  }

  lemma {:induction false} LogGrowsByOne(log: seq<Fact>, init: seq<Row>, r: Row, seen: set<Mark>)
    requires AllLines(init + [r]) && DistinctMarks(init + [r]) && LogMarks(log) <= seen && IsLine(r)
    requires NoneTwice(log + Lines(Kept(seen, init)))
    ensures NoneTwice(log + Lines(Kept(seen, init + [r])))
  {
    KeptSnoc(seen, init, r);
    var k := Lines(Kept(seen, init));
    if OnFile(seen, r) {
      assert k + [] == k;
    } else {
      NotYetPosted(log, init, r, seen);
      NoneTwiceSnoc(log + k, FactOf(r));
      assert log + (k + [FactOf(r)]) == (log + k) + [FactOf(r)];
    }
  }

  lemma {:induction false} InitDistinct(posts: seq<Row>)
    requires posts != [] && AllLines(posts) && DistinctMarks(posts)
    ensures var init := posts[..|posts| - 1]; AllLines(init) && DistinctMarks(init)
  {
    var init := posts[..|posts| - 1];
    assert forall x | x in init :: x in posts;
    assert forall i | 0 <= i < |init| :: init[i] == posts[i];
  }

  /** Distinct fingerprints, none of them on file: the log grows without repeating itself. */
  lemma {:induction false} LogGrows(log: seq<Fact>, posts: seq<Row>, seen: set<Mark>)
    requires NoneTwice(log) && AllLines(posts) && DistinctMarks(posts) && LogMarks(log) <= seen
    ensures NoneTwice(log + Lines(Kept(seen, posts)))
  {
    if posts == [] {
      assert log + [] == log;
    } else {
      var init, r := posts[..|posts| - 1], posts[|posts| - 1];
      assert posts == init + [r] && r in posts;
      InitDistinct(posts);
      LogGrows(log, init, seen);
      LogGrowsByOne(log, init, r, seen);
    }
  }

  lemma {:induction false} NotRepeated(posts: seq<Row>, m: Mark)
    requires AllLines(posts) && DistinctMarks(posts) && posts != [] && m in MarksOf(posts[..|posts| - 1])
    ensures m != MarkOf(posts[|posts| - 1])
  {
    var r :| r in posts[..|posts| - 1] && IsLine(r) && MarkOf(r) == m;
    var j :| 0 <= j < |posts| - 1 && posts[j] == r;
  }

  lemma {:induction false} KeptSame(seen: set<Mark>, also: set<Mark>, posts: seq<Row>)
    requires forall r | r in posts :: OnFile(seen, r) <==> OnFile(also, r)
    ensures Kept(seen, posts) == Kept(also, posts)
  {
    if posts != [] {
      assert posts[|posts| - 1] in posts && forall r | r in posts[..|posts| - 1] :: r in posts;
      KeptSame(seen, also, posts[..|posts| - 1]);
    }
  }

  /** With the flag off, posting a line that has a tombstone would bring a shrunk line back. */
  ghost predicate RevivesLine(b: Books, posts: seq<Row>, on: bool) {
    exists r | r in Kept(SeenBy(b, on), posts) :: IsLine(r) && MarkOf(r) in b.tombs
  }

  /** Short of that, what is posted is what would be posted with the flag on. */
  lemma {:induction false} FlagOrNot(b: Books, posts: seq<Row>, on: bool)
    requires AllLines(posts) && !RevivesLine(b, posts, on)
    ensures Kept(SeenBy(b, on), posts) == Kept(Seen(b), posts)
  {
    forall r | r in posts ensures OnFile(SeenBy(b, on), r) <==> OnFile(Seen(b), r) {
      if !OnFile(SeenBy(b, on), r) { assert r in Kept(SeenBy(b, on), posts); }
    }
    KeptSame(SeenBy(b, on), Seen(b), posts);
  }

  lemma {:induction false} PostKeeps(b: Books, posts: seq<Row>, log: seq<Fact>)
    requires InStep(b, log) && Postable(b, posts)
    ensures InStep(b.(rows := b.rows + Kept(Seen(b), posts)), log + Lines(Kept(Seen(b), posts)))
  {
    var kept := Kept(Seen(b), posts);
    ImportKeyed(b, posts);
    SeenIsLog(b, log);
    LogGrows(log, posts, Seen(b));
    KeptFacts(Seen(b), posts);
    LinesAppend(b.rows, kept);
    PartsAppend(log, Lines(kept), b.tombs.Keys);
    forall f | f in Lines(kept) ensures f.aud == f.amount {
      var r :| r in kept && IsLine(r) && FactOf(r) == f;
    }
    forall m | m in b.tombs ensures exists f | f in log + Lines(kept) :: f.mark == m {
      var f :| f in log && f.mark == m;
      assert f in log + Lines(kept);
    }
  }

  lemma {:induction false} RevivedOut(b: Books, posts: seq<Row>, log: seq<Fact>, on: bool)
    requires RevivesLine(b, posts, on)
    ensures !LiveAre(b.(rows := b.rows + Kept(SeenBy(b, on), posts)), log)
  {
    var kept := Kept(SeenBy(b, on), posts);
    var r :| r in kept && IsLine(r) && MarkOf(r) in b.tombs;
    var rows := b.rows + kept;
    assert r in rows && FactOf(r) in Lines(rows);
    assert FactOf(r) !in Outside(log, b.tombs.Keys);
  }

  // Purge

  lemma {:induction false} KeepingDistinct(log: seq<Fact>, s: Id)
    requires NoneTwice(log)
    ensures NoneTwice(Keeping(log, s))
  {
    if log != [] {
      var init, f := log[..|log| - 1], log[|log| - 1];
      KeepingDistinct(init, s);
      forall g | g in Keeping(init, s) ensures g.mark != f.mark {
        var j :| 0 <= j < |init| && init[j] == g;
        assert log[j].mark != log[|init|].mark;
      }
      NoneTwiceSnoc(Keeping(init, s), f);
    }
  }

  /** A purge with the flag on: a posted line's tombstone goes with its statement. */
  lemma {:induction false} PurgeParts(log: seq<Fact>, tombs: map<Mark, Tomb>, s: Id)
    requires forall f | f in log && f.mark in tombs :: tombs[f.mark] == f.ToTomb()
    ensures Outside(Keeping(log, s), WithoutTombs(tombs, s).Keys) == Keeping(Outside(log, tombs.Keys), s)
    ensures Among(Keeping(log, s), WithoutTombs(tombs, s).Keys) == Keeping(Among(log, tombs.Keys), s)
  {
    if log != [] {
      var init, f := log[..|log| - 1], log[|log| - 1];
      assert f in log && forall x | x in init :: x in log;
      PurgeParts(init, tombs, s);
      KeepingSnoc(Outside(init, tombs.Keys), f, s);
      KeepingSnoc(Among(init, tombs.Keys), f, s);
      OutsideSnoc(Keeping(init, s), f, WithoutTombs(tombs, s).Keys);
      AmongSnoc(Keeping(init, s), f, WithoutTombs(tombs, s).Keys);
    }
  }

  lemma {:induction false} KeepingSnoc(fs: seq<Fact>, f: Fact, s: Id)
    ensures Keeping(fs + [f], s) == if f.statement == Some(s) then Keeping(fs, s) else Keeping(fs, s) + [f]
  {
    assert (fs + [f])[..|fs|] == fs;
  }

  lemma {:induction false} PurgeRolls(rolls: seq<RollRow>, fs: seq<Fact>, s: Id)
    requires RollsAre(rolls, fs)
    ensures RollsAre(WithoutRolls(rolls, s), Keeping(fs, s))
  {
    forall k ensures RollAt(WithoutRolls(rolls, s), k) == Total(Keeping(fs, s), k) {
      WithoutRollsAt(rolls, s, k);
      KeepingTotal(fs, s, k);
    }
    forall t, m ensures RolledUp(WithoutRolls(rolls, s), t, m) == Posted(Keeping(fs, s), t, m) {
      WithoutRollsUp(rolls, s, t, m);
      KeepingPosted(fs, s, t, m);
    }
  }

  lemma {:induction false} PurgeKeeps(b: Books, s: Id, log: seq<Fact>)
    requires InStep(b, log)
    ensures InStep(Purged(b, s), Keeping(log, s))
  {
    var c := Purged(b, s);
    PurgeKeyed(b, s, true);
    KeepingDistinct(log, s);
    PurgeLines(b, s);
    PurgeParts(log, b.tombs, s);
    PurgeRolls(b.rolls, Among(log, b.tombs.Keys), s);
    forall m | m in c.tombs ensures exists f | f in Keeping(log, s) :: f.mark == m {
      var f :| f in log && f.mark == m;
      assert f in Keeping(log, s);
    }
  }

  // Deletes of single lines, and purges with the flag off: only live lines leave the log

  /** The posted lines without the live ones of a statement. */
  function DroppedOf(log: seq<Fact>, ms: set<Mark>, s: Id): (kept: seq<Fact>)
    ensures forall f :: f in kept <==> f in log && (f.mark in ms || f.statement != Some(s))
  {
    if log == [] then [] else
    var init, f := log[..|log| - 1], log[|log| - 1];
    assert forall x :: x in log <==> x in init || x == f;
    if f.mark in ms || f.statement != Some(s) then DroppedOf(init, ms, s) + [f] else DroppedOf(init, ms, s)
  }

  /** The posted lines without the live one of an id. */
  function DroppedId(log: seq<Fact>, ms: set<Mark>, id: Id): (kept: seq<Fact>)
    ensures forall f :: f in kept <==> f in log && (f.mark in ms || f.id != id)
  {
    if log == [] then [] else
    var init, f := log[..|log| - 1], log[|log| - 1];
    assert forall x :: x in log <==> x in init || x == f;
    if f.mark in ms || f.id != id then DroppedId(init, ms, id) + [f] else DroppedId(init, ms, id)
  }

  lemma {:induction false} DroppedOfParts(log: seq<Fact>, ms: set<Mark>, s: Id)
    ensures Outside(DroppedOf(log, ms, s), ms) == Keeping(Outside(log, ms), s) && Among(DroppedOf(log, ms, s), ms) == Among(log, ms)
  {
    if log != [] {
      var init, f := log[..|log| - 1], log[|log| - 1];
      DroppedOfParts(init, ms, s);
      OutsideSnoc(DroppedOf(init, ms, s), f, ms);
      AmongSnoc(DroppedOf(init, ms, s), f, ms);
      KeepingSnoc(Outside(init, ms), f, s);
    }
  }

  lemma {:induction false} ExceptSnoc(fs: seq<Fact>, f: Fact, ids: set<Id>)
    ensures Except(fs + [f], ids) == if f.id in ids then Except(fs, ids) else Except(fs, ids) + [f]
  {
    assert (fs + [f])[..|fs|] == fs;
  }

  lemma {:induction false} DroppedIdParts(log: seq<Fact>, ms: set<Mark>, id: Id)
    ensures Outside(DroppedId(log, ms, id), ms) == Except(Outside(log, ms), {id}) && Among(DroppedId(log, ms, id), ms) == Among(log, ms)
  {
    if log != [] {
      var init, f := log[..|log| - 1], log[|log| - 1];
      DroppedIdParts(init, ms, id);
      OutsideSnoc(DroppedId(init, ms, id), f, ms);
      AmongSnoc(DroppedId(init, ms, id), f, ms);
      ExceptSnoc(Outside(init, ms), f, {id});
    }
  }

  lemma {:induction false} InitDiffers(log: seq<Fact>)
    requires NoneTwice(log) && log != []
    ensures NoneTwice(log[..|log| - 1]) && forall g | g in log[..|log| - 1] :: g.mark != log[|log| - 1].mark
  {
    var init := log[..|log| - 1];
    forall g | g in init ensures g.mark != log[|init|].mark {
      var j :| 0 <= j < |init| && init[j] == g;
      assert log[j].mark != log[|init|].mark;
    }
  }

  lemma {:induction false} DroppedOfDistinct(log: seq<Fact>, ms: set<Mark>, s: Id)
    requires NoneTwice(log)
    ensures NoneTwice(DroppedOf(log, ms, s))
  {
    if log != [] {
      InitDiffers(log);
      DroppedOfDistinct(log[..|log| - 1], ms, s);
      NoneTwiceSnoc(DroppedOf(log[..|log| - 1], ms, s), log[|log| - 1]);
    }
  }

  lemma {:induction false} DroppedIdDistinct(log: seq<Fact>, ms: set<Mark>, id: Id)
    requires NoneTwice(log)
    ensures NoneTwice(DroppedId(log, ms, id))
  {
    if log != [] {
      InitDiffers(log);
      DroppedIdDistinct(log[..|log| - 1], ms, id);
      NoneTwiceSnoc(DroppedId(log[..|log| - 1], ms, id), log[|log| - 1]);
    }
  }

  lemma {:induction false} DropKeeps(b: Books, c: Books, log: seq<Fact>, kept: seq<Fact>)
    requires InStep(b, log) && Keyed(c) && c.rolls == b.rolls && c.tombs == b.tombs && NoneTwice(kept)
    requires Lines(c.rows) == Outside(kept, b.tombs.Keys) && Among(kept, b.tombs.Keys) == Among(log, b.tombs.Keys)
    requires forall f | f in kept :: f in log
    ensures InStep(c, kept)
  {
    forall m | m in c.tombs ensures exists f | f in kept :: f.mark == m {
      var f :| f in log && f.mark == m;
      assert f in Among(kept, b.tombs.Keys);
    }
  }

  lemma {:induction false} PurgeKeyed(b: Books, s: Id, on: bool)
    requires Keyed(b)
    ensures Keyed(PurgedBy(b, s, on))
  {
    var gone := OfStatement(b.rows, s);
    var rows := Unmatched(b.rows, gone);
    PurgeLines(b, s);
    WithoutRollsUnique(b.rolls, s);
    forall r | r in PurgedBy(b, s, on).rows && r.account.Some? && r.fp.Some? ensures IsLine(r) {
      var i :| 0 <= i < |rows| && rows[i] == r;
      assert b.rows[i] in b.rows && IsLine(b.rows[i]);
    }
  }

  // ── Runs ────────────────────────────────────────────────────────────────────────────────────────────

  /** `on` is the minimisation flag at that moment; a shrink runs only while it is on. */
  datatype Event =
    | Import(posts: seq<Row>, on: bool)
    | Edit                                          // any change of tags, or to rows that are not bank lines
    | Shrink(refs: Refs, w: Window, ids: set<Id>)   // one batch: any ids, stale or not
    | Purge(statement: Id, on: bool)
    | DeleteRow(id: Id)                             // one row, by hand

  predicate Postable(b: Books, posts: seq<Row>) {
    && AllLines(posts) && DistinctMarks(posts) && UniqueIds(b.rows + posts)
    && forall r | r in posts :: r.aud == Some(r.amount)
  }

  ghost predicate Step(b: Books, e: Event, c: Books) {
    match e
    case Import(posts, on) => Postable(b, posts) && c == b.(rows := b.rows + Kept(SeenBy(b, on), posts))
    case Edit => Keyed(c) && c.rolls == b.rolls && c.tombs == b.tombs && Lines(c.rows) == Lines(b.rows)
    case Shrink(refs, w, ids) => IsShrunk(b, c, Picked(b.rows, refs, w, ids))
    case Purge(s, on) => c == PurgedBy(b, s, on)
    case DeleteRow(id) => Keyed(c) && c.rolls == b.rolls && c.tombs == b.tombs && Lines(c.rows) == Except(Lines(b.rows), {id})
  }

  function LogAfter(b: Books, log: seq<Fact>, e: Event): seq<Fact> {
    match e
    case Import(posts, on) => log + Lines(Kept(SeenBy(b, on), posts))
    case Edit => log
    case Shrink(_, _, _) => log
    case Purge(s, on) => if on then Keeping(log, s) else DroppedOf(log, b.tombs.Keys, s)
    case DeleteRow(id) => DroppedId(log, b.tombs.Keys, id)
  }

  /** An import with the flag off that posts a shrunk line again. */
  ghost predicate Revives(b: Books, e: Event) { e.Import? && RevivesLine(b, e.posts, e.on) }

  /** Every row of a statement carries one amount. */
  predicate Plain(log: seq<Fact>) { forall f | f in log :: f.aud == f.amount }

  /** The books agree with the log of the lines posted and not since removed: no line was posted twice, each is live or has
      a tombstone, and the rollups hold exactly those with one. */
  ghost predicate InStep(b: Books, log: seq<Fact>) {
    && Keyed(b) && NoneTwice(log) && Plain(log)
    && LiveAre(b, log) && TombsAre(b, log) && RollsAre(b.rolls, Among(log, b.tombs.Keys))
  }

  lemma {:induction false} KeptUnique(rows: seq<Row>, seen: set<Mark>, posts: seq<Row>)
    requires UniqueIds(rows + posts)
    ensures UniqueIds(rows + Kept(seen, posts))
  {
    if posts == [] {
      assert Kept(seen, posts) == posts;
    } else {
      var init, r := posts[..|posts| - 1], posts[|posts| - 1];
      var all := rows + posts;
      assert all[..|all| - 1] == rows + init && all[|all| - 1] == r;
      KeptUnique(rows, seen, init);
      var now := rows + Kept(seen, init);
      forall i | 0 <= i < |now| ensures now[i].id != r.id {
        assert now[i] in rows + init;
        var j :| 0 <= j < |rows + init| && (rows + init)[j] == now[i];
        assert all[j] == now[i];
      }
      assert rows + (Kept(seen, init) + [r]) == now + [r];
    }
  }

  lemma {:induction false} ImportKeyed(b: Books, posts: seq<Row>)
    requires Keyed(b) && Postable(b, posts)
    ensures Keyed(b.(rows := b.rows + Kept(Seen(b), posts)))
  {
    KeptUnique(b.rows, Seen(b), posts);
  }

  lemma {:induction false} ShrinkKeyed(b: Books, c: Books, gone: set<Id>)
    requires Keyed(b) && IsShrunk(b, c, gone)
    ensures Keyed(c)
  {
    WithoutUnique(b.rows, gone);
  }

  /** A step keeps the agreement exactly when it does not bring a shrunk line back. */
  lemma {:induction false} StepKeeps(b: Books, log: seq<Fact>, e: Event, c: Books)
    requires InStep(b, log) && Step(b, e, c)
    ensures InStep(c, LogAfter(b, log, e)) <==> !Revives(b, e)
  {
    match e
    case Import(posts, on) => ImportKeeps(b, log, posts, on);
    case Edit =>
    case Shrink(refs, w, ids) =>
      ShrinkKeyed(b, c, Picked(b.rows, refs, w, ids));
      ShrinkLive(b, c, Picked(b.rows, refs, w, ids), log);
      ShrinkTombs(b, c, Picked(b.rows, refs, w, ids), log);
      ShrinkRolls(b, c, Picked(b.rows, refs, w, ids), log);
    case Purge(s, on) => PurgeByKeeps(b, log, s, on);
    case DeleteRow(id) =>
      DroppedIdParts(log, b.tombs.Keys, id);
      DroppedIdDistinct(log, b.tombs.Keys, id);
      DropKeeps(b, c, log, DroppedId(log, b.tombs.Keys, id));
  }

  lemma {:induction false} ImportKeeps(b: Books, log: seq<Fact>, posts: seq<Row>, on: bool)
    requires InStep(b, log) && Postable(b, posts)
    ensures InStep(b.(rows := b.rows + Kept(SeenBy(b, on), posts)), log + Lines(Kept(SeenBy(b, on), posts))) <==> !RevivesLine(b, posts, on)
  {
    if RevivesLine(b, posts, on) {
      RevivedOut(b, posts, log + Lines(Kept(SeenBy(b, on), posts)), on);
    } else {
      FlagOrNot(b, posts, on);
      PostKeeps(b, posts, log);
    }
  }

  lemma {:induction false} PurgeByKeeps(b: Books, log: seq<Fact>, s: Id, on: bool)
    requires InStep(b, log)
    ensures InStep(PurgedBy(b, s, on), if on then Keeping(log, s) else DroppedOf(log, b.tombs.Keys, s))
  {
    if on {
      PurgeKeeps(b, s, log);
    } else {
      PurgeKeyed(b, s, false);
      PurgeLines(b, s);
      DroppedOfParts(log, b.tombs.Keys, s);
      DroppedOfDistinct(log, b.tombs.Keys, s);
      DropKeeps(b, PurgedBy(b, s, false), log, DroppedOf(log, b.tombs.Keys, s));
    }
  }

  ghost predicate IsRun(states: seq<Books>, events: seq<Event>) {
    |states| == |events| + 1 && forall i | 0 <= i < |events| :: Step(states[i], events[i], states[i + 1])
  }

  /** The log after the first n events. */
  function LogAt(states: seq<Books>, events: seq<Event>, log: seq<Fact>, n: nat): seq<Fact>
    requires |states| == |events| + 1 && n <= |events|
  {
    if n == 0 then log else LogAfter(states[n - 1], LogAt(states, events, log, n - 1), events[n - 1])
  }

  lemma {:induction false} StepAt(states: seq<Books>, events: seq<Event>, i: nat)
    requires IsRun(states, events) && i < |events|
    ensures Step(states[i], events[i], states[i + 1])
  {
  }

  /** No step of the run brings a shrunk line back; with the flag on throughout none can. */
  ghost predicate Careful(states: seq<Books>, events: seq<Event>)
    requires |states| == |events| + 1
  {
    forall i | 0 <= i < |events| :: !Revives(states[i], events[i])
  }

  lemma {:induction false} FlagOnIsCareful(b: Books, posts: seq<Row>)
    ensures !RevivesLine(b, posts, true)
  {
  }

  /** The main result: after any run the compressed books agree with the log of everything posted and not removed. */
  lemma {:induction false} RunKeepsBooks(states: seq<Books>, events: seq<Event>, log: seq<Fact>, n: nat)
    requires IsRun(states, events) && Careful(states, events) && InStep(states[0], log) && n <= |events|
    ensures InStep(states[n], LogAt(states, events, log, n)) && Conserved(states[n], LogAt(states, events, log, n))
  {
    if n > 0 {
      RunKeepsBooks(states, events, log, n - 1);
      StepAt(states, events, n - 1);
      StepKeeps(states[n - 1], LogAt(states, events, log, n - 1), events[n - 1], states[n]);
    }
    InStepConserves(states[n], LogAt(states, events, log, n));
  }

  lemma {:induction false} EmptyBooksInStep()
    ensures InStep(Books([], [], map[]), [])
  {
  }
}
