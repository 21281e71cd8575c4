/**
 * Receipt and bank-line links (src/lib/receipt-link.ts): the link write with its snapshot, Undo, the manual unlink,
 * and what a linked pair counts for. Rows are one tenant's; a column that may be NULL is an Option.
 */
module ReceiptLink {
  import opened Options

  type Id = string

  datatype Value = Cents(cents: int) | Text(text: string)

  /** The three columns a receipt may donate to its line. */
  datatype Field = Gst | Bucket | Ato

  /** What those columns hold (also: what a link filled in). */
  datatype Gaps = Gaps(gst: Option<Value>, bucket: Option<Value>, ato: Option<Value>) {
    function At(f: Field): Option<Value> {
      match f
      case Gst => gst
      case Bucket => bucket
      case Ato => ato
    }

    function With(f: Field, v: Option<Value>): Gaps {
      match f
      case Gst => this.(gst := v)
      case Bucket => this.(bucket := v)
      case Ato => this.(ato := v)
    }
  }

  const NOTHING := Gaps(None, None, None)

  datatype Snapshot = Snapshot(line: Id, auto: bool, filled: Gaps, lineStatus: Option<string>, receiptStatus: Option<string>)

  datatype Line = Line(own: Gaps, status: string, credit: bool, cents: nat)
  datatype Receipt = Receipt(own: Gaps, status: string, credit: bool, cents: nat, matched: Option<Id>, snapshot: Option<Snapshot>)

  /** The tenant's receipts, bank lines and dismissed pairs. */
  datatype Desk = Desk(receipts: map<Id, Receipt>, lines: map<Id, Line>, dismissed: set<(Id, Id)>)

  function Coalesce(a: Option<Value>, b: Option<Value>): Option<Value> {
    if a.Some? then a else b
  }

  function Gap(had: Option<Value>, given: Option<Value>): Option<Value> {
    if had == None then given else None
  }

  /** The COALESCE donation: what the line lacks it takes from the receipt. */
  function Donate(line: Line, donor: Gaps): Line {
    line.(own := Gaps(Coalesce(line.own.gst, donor.gst), Coalesce(line.own.bucket, donor.bucket), Coalesce(line.own.ato, donor.ato)),
          status := if line.own.bucket == None then "extracted" else line.status)
  }

  function Filled(line: Line, donor: Gaps): Gaps {
    Gaps(Gap(line.own.gst, donor.gst), Gap(line.own.bucket, donor.bucket), Gap(line.own.ato, donor.ato))
  }

  /** Whether a link request names this tenant's receipt and a live bank line (of the same direction, if asked). */
  predicate LinkTargets(d: Desk, r: Id, l: Id, sameDirection: bool) {
    && r != "" && l != "" && r != l
    && r in d.receipts && l in d.lines
    && d.lines[l].status !in {"duplicate", "ignored"}
    && (sameDirection ==> d.receipts[r].credit == d.lines[l].credit)
  }

  function TakeSnapshot(d: Desk, r: Id, l: Id, donor: Option<Gaps>, auto: bool): Snapshot {
    Snapshot(l, auto,
             if l in d.lines && donor.Some? then Filled(d.lines[l], donor.value) else NOTHING,
             if l in d.lines then Some(d.lines[l].status) else None,
             if r in d.receipts then Some(d.receipts[r].status) else None)
  }

  function Linked(d: Desk, r: Id, l: Id, donor: Option<Gaps>, snap: bool, auto: bool): Desk {
    var receipts := if r !in d.receipts then d.receipts else
      var kept := if snap then Some(TakeSnapshot(d, r, l, donor, auto)) else d.receipts[r].snapshot;
      d.receipts[r := d.receipts[r].(matched := Some(l), status := "matched_receipt", snapshot := kept)];
    var lines := if l in d.lines && donor.Some? then d.lines[l := Donate(d.lines[l], donor.value)] else d.lines;
    Desk(receipts, lines, d.dismissed)
  }

  /** The snapshot an Undo reads: the receipt's own, and only when it is for the line the receipt is linked to. */
  function SnapshotFor(r: Receipt, l: Id): Option<Snapshot> {
    if r.snapshot.Some? && r.snapshot.value.line == l then r.snapshot else None
  }

  function Clear(now: Option<Value>, filled: Option<Value>): Option<Value> {
    if filled.Some? && now == filled then None else now
  }

  function RestoredLine(line: Line, snap: Snapshot): Line {
    var f := snap.filled;
    line.(own := Gaps(Clear(line.own.gst, f.gst), Clear(line.own.bucket, f.bucket), Clear(line.own.ato, f.ato)),
          status := if f.bucket.Some? && line.own.bucket == f.bucket && snap.lineStatus.Some? then snap.lineStatus.value else line.status)
  }

  function RestoredStatus(snap: Option<Snapshot>): string {
    if snap.Some? && snap.value.receiptStatus.Some? && snap.value.receiptStatus.value !in {"", "matched_receipt"}
    then snap.value.receiptStatus.value else "extracted"
  }

  predicate On(d: Desk, r: Id, l: Id) { r in d.receipts && d.receipts[r].matched == Some(l) }

  /** Undo's atomic batch, for the link (line `l`, snapshot `snap`) that was read before it. */
  function UndoWrite(d: Desk, r: Id, l: Id, snap: Option<Snapshot>): Desk {
    if r !in d.receipts then d else
    var row := d.receipts[r];
    var receipts := if row.matched != Some(l) then d.receipts else
      d.receipts[r := row.(matched := None, status := RestoredStatus(snap), snapshot := None)];
    if receipts[r].matched.Some? then d else  // still linked, elsewhere: the guarded writes do nothing
    Desk(receipts,
         if snap.Some? && snap.value.filled != NOTHING && l in d.lines then d.lines[l := RestoredLine(d.lines[l], snap.value)] else d.lines,
         d.dismissed + {(r, l)})
  }

  function Undone(d: Desk, r: Id): Desk {
    if r !in d.receipts || d.receipts[r].matched == None then d else
    var l := d.receipts[r].matched.value;
    UndoWrite(d, r, l, SnapshotFor(d.receipts[r], l))
  }

  function Unlinked(d: Desk, r: Id): Desk {
    if r !in d.receipts then d else
    d.(receipts := d.receipts[r := d.receipts[r].(matched := None, status := "extracted", snapshot := None)])
  }

  /** Only this receipt and this line may differ. */
  predicate Untouched(d: Desk, d': Desk, r: Id, l: Id) {
    && d'.receipts.Keys == d.receipts.Keys && d'.lines.Keys == d.lines.Keys && d'.dismissed == d.dismissed
    && d'.receipts - {r} == d.receipts - {r} && d'.lines - {l} == d.lines - {l}
  }

  /** A column that had a value keeps it; an empty one holds what the donor has there. */
  ghost predicate FillsGaps(before: Gaps, after: Gaps, donor: Option<Gaps>) {
    forall f: Field :: after.At(f) == if before.At(f).Some? || donor == None then before.At(f) else donor.value.At(f)
  }

  /** `filled` is exactly what changed. */
  ghost predicate RecordsGaps(before: Gaps, after: Gaps, filled: Gaps) {
    forall f: Field :: filled.At(f) == if after.At(f) != before.At(f) then after.At(f) else None
  }

  /** A link donates only into empty columns, its snapshot records exactly what it filled, and no other row changes. */
  lemma {:induction false} LinkFills(d: Desk, r: Id, l: Id, donor: Option<Gaps>, snap: bool, auto: bool)
    ensures var d', s := Linked(d, r, l, donor, snap, auto), TakeSnapshot(d, r, l, donor, auto);
      && Untouched(d, d', r, l)
      && (l in d.lines ==> FillsGaps(d.lines[l].own, d'.lines[l].own, donor) && RecordsGaps(d.lines[l].own, d'.lines[l].own, s.filled))
      && (r in d.receipts ==> On(d', r, l) && d'.receipts[r].own == d.receipts[r].own && (snap ==> SnapshotFor(d'.receipts[r], l) == Some(s)))
      && (r in d.receipts ==> d'.receipts[r].status == "matched_receipt" && s.receiptStatus == Some(d.receipts[r].status)
                              && d'.receipts[r].credit == d.receipts[r].credit && d'.receipts[r].cents == d.receipts[r].cents)
      && (l in d.lines ==> d'.lines[l].status == (if donor.Some? && d.lines[l].own.bucket == None then "extracted" else d.lines[l].status)
                           && s.lineStatus == Some(d.lines[l].status)
                           && d'.lines[l].credit == d.lines[l].credit && d'.lines[l].cents == d.lines[l].cents)
      && s.line == l && s.auto == auto
  {
    var d' := Linked(d, r, l, donor, snap, auto);
    assert d'.receipts - {r} == d.receipts - {r};
    assert d'.lines - {l} == d.lines - {l};
  }

  // ── The tables, updated in place ────────────────────────────────────────────────────────────────────

  method GapsFilled(own: Gaps, given: Gaps) returns (filled: Gaps)
    ensures forall f: Field :: filled.At(f) == if own.At(f) == None then given.At(f) else None
  {
    filled := NOTHING;
    if own.gst == None && given.gst != None { filled := filled.(gst := given.gst); }
    if own.bucket == None && given.bucket != None { filled := filled.(bucket := given.bucket); }
    if own.ato == None && given.ato != None { filled := filled.(ato := given.ato); }
  }

  lemma {:induction false} SameGaps(a: Gaps, b: Gaps)
    requires forall f: Field :: a.At(f) == b.At(f)
    ensures a == b
  {
    assert a.At(Gst) == b.At(Gst) && a.At(Bucket) == b.At(Bucket) && a.At(Ato) == b.At(Ato);
  }

  class Tables {
    var receipts: map<Id, Receipt>
    var lines: map<Id, Line>
    var dismissed: set<(Id, Id)>

    function State(): Desk
      reads this
    {
      Desk(receipts, lines, dismissed)
    }

    /** applyReceiptLink: the snapshot is read first, then the receipt is written, then the line. */
    method ApplyLink(r: Id, l: Id, donor: Option<Gaps>, snapshot: bool, auto: bool) returns (snap: Option<Snapshot>)
      modifies this
      ensures State() == Linked(old(State()), r, l, donor, snapshot, auto)
      ensures Untouched(old(State()), State(), r, l)
      ensures l in lines ==> FillsGaps(old(lines)[l].own, lines[l].own, donor)
      ensures r in receipts ==> On(State(), r, l) && receipts[r].own == old(receipts)[r].own
      ensures snap.Some? <==> snapshot
      ensures snap.Some? && l in lines ==> RecordsGaps(old(lines)[l].own, lines[l].own, snap.value.filled)
      ensures snap.Some? && r in receipts ==> SnapshotFor(receipts[r], l) == snap
    {
      snap := None;
      if snapshot {
        var filled := NOTHING;
        if l in lines && donor.Some? { filled := GapsFilled(lines[l].own, donor.value); }
        SameGaps(filled, TakeSnapshot(State(), r, l, donor, auto).filled);
        snap := Some(Snapshot(l, auto, filled,
                              if l in lines then Some(lines[l].status) else None,
                              if r in receipts then Some(receipts[r].status) else None));
      }
      if r in receipts {
        var row := receipts[r].(matched := Some(l), status := "matched_receipt");
        receipts := receipts[r := if snap.Some? then row.(snapshot := snap) else row];
      }
      if donor.Some? && l in lines {
        lines := lines[l := Donate(lines[l], donor.value)];
      }
      assert receipts == Linked(old(State()), r, l, donor, snapshot, auto).receipts;
      assert lines == Linked(old(State()), r, l, donor, snapshot, auto).lines;
      LinkFills(old(State()), r, l, donor, snapshot, auto);
    }

    /** linkReceipt: a request is refused, and changes nothing, when it does not name one of the tenant's receipts and another
        row that is a bank line which counts, or, if asked to tell, when money goes opposite ways on the two. */
    method Link(r: Id, l: Id, sameDirection: bool) returns (linked: bool)
      modifies this
      ensures !linked <==>
        || r == "" || l == "" || r == l || r !in old(receipts) || l !in old(lines)
        || old(lines)[l].status == "duplicate" || old(lines)[l].status == "ignored"
        || (sameDirection && old(receipts)[r].credit != old(lines)[l].credit)
      ensures State() == if linked then Linked(old(State()), r, l, Some(old(receipts)[r].own), true, false) else old(State())
    {
      linked := LinkTargets(State(), r, l, sameDirection);
      if linked {
        var snap := ApplyLink(r, l, Some(receipts[r].own), true, false);
      }
    }

    /** undoReceiptLink: read the link, then one batch; the line that was detached, or None when nothing was. */
    method Undo(r: Id) returns (line: Option<Id>)
      modifies this
      ensures State() == Undone(old(State()), r)
      ensures line == if r in old(receipts) then old(receipts)[r].matched else None
    {
      if r !in receipts || receipts[r].matched == None { return None; }
      var l := receipts[r].matched.value;
      var snap := SnapshotFor(receipts[r], l);
      receipts := receipts[r := receipts[r].(matched := None, status := RestoredStatus(snap), snapshot := None)];
      dismissed := dismissed + {(r, l)};
      if snap.Some? && snap.value.filled != NOTHING && l in lines {
        lines := lines[l := RestoredLine(lines[l], snap.value)];
      }
      return Some(l);
    }
  }

  // ── Undo inverts link, and exactly when ─────────────────────────────────────────────────────────────

  predicate Unpaired(d: Desk, r: Id, l: Id) {
    r in d.receipts && l in d.lines && d.receipts[r].matched == None && d.receipts[r].snapshot == None
  }

  /**
   * Link, then Undo, puts both rows back as they were (and remembers the pair as dismissed) if and only if the receipt
   * had an ordinary status and the line's status was not lost: a line with no bucket linked to a receipt with no bucket
   * becomes 'extracted', and as no bucket was donated Undo does not restore its status.
   */
  lemma {:induction false} LinkThenUndo(d: Desk, r: Id, l: Id, donor: Option<Gaps>, auto: bool)
    requires Unpaired(d, r, l)
    ensures var back := Undone(Linked(d, r, l, donor, true, auto), r);
      && (back == d.(dismissed := d.dismissed + {(r, l)})
          <==> d.receipts[r].status !in {"", "matched_receipt"}
               && (donor == None || d.lines[l].own.bucket.Some? || donor.value.bucket.Some? || d.lines[l].status == "extracted"))
      && back.lines[l].own == d.lines[l].own
      && back.receipts[r].matched == None && (r, l) in back.dismissed
      && back.receipts[r].status == (if d.receipts[r].status in {"", "matched_receipt"} then "extracted" else d.receipts[r].status)
  {
    var d1 := Linked(d, r, l, donor, true, auto);
    var back := Undone(d1, r);
    var row := d.receipts[r];
    assert back.receipts == d.receipts[r := row.(status := RestoredStatus(d1.receipts[r].snapshot))];
    if row.status !in {"", "matched_receipt"} {
      assert back.receipts == d.receipts;
    } else {
      assert back.receipts[r].status != row.status || row.status == "extracted";
    }
    if back.lines[l] == d.lines[l] {
      assert back.lines == d.lines;
    }
  }

  /** The status that is lost: a transfer-like line the user had left for review reads 'extracted' for good. */
  lemma {:induction false} UndoLosesStatus()
    ensures var line := Line(NOTHING, "needs_review", false, 8900);
      var receipt := Receipt(NOTHING, "categorised", false, 8900, None, None);
      var d := Desk(map["r" := receipt], map["l" := line], {});
      var back := Undone(Linked(d, "r", "l", Some(receipt.own), true, false), "r");
      back.lines["l"].status == "extracted" && back.receipts["r"] == receipt
  {
  }

  /** One column across link, an edit and Undo. */
  predicate ColumnRule(original: Option<Value>, linked: Option<Value>, later: Option<Value>, undone: Option<Value>) {
    if linked != later then undone == later else undone == original
  }

  /**
   * Whatever is written to the line between link and Undo, an edited column keeps the edit and an untouched column goes
   * back to what the line had before the link; no other row is changed by the Undo.
   */
  lemma {:induction false} UndoKeepsEdits(d: Desk, r: Id, l: Id, donor: Gaps, auto: bool, later: Line, d2: Desk)
    requires Unpaired(d, r, l)
    requires var d1 := Linked(d, r, l, Some(donor), true, auto);
      l in d2.lines && d2.lines[l] == later && r in d2.receipts && d2.receipts[r] == d1.receipts[r]
    ensures var linked := Linked(d, r, l, Some(donor), true, auto).lines[l].own;
      var d3 := Undone(d2, r);
      && l in d3.lines && r in d3.receipts
      && (forall f: Field :: ColumnRule(d.lines[l].own.At(f), linked.At(f), later.own.At(f), d3.lines[l].own.At(f)))
      && d3.lines - {l} == d2.lines - {l} && d3.receipts - {r} == d2.receipts - {r}
      && d3.lines[l].status == if d.lines[l].own.bucket == None && donor.bucket.Some? && later.own.bucket == donor.bucket then d.lines[l].status else later.status
  {
    var d3 := Undone(d2, r);
    assert d3.receipts - {r} == d2.receipts - {r};
    assert d3.lines - {l} == d2.lines - {l};
  }

  /** Tapping a linked receipt onto a line again, its own or another, rewrites the snapshot: Undo then works on line `m`, and
      the columns of the first line come back if and only if the first link filled none. */
  lemma {:induction false} RelinkForgetsDonation(d: Desk, r: Id, l: Id, m: Id, donor: Gaps)
    requires Unpaired(d, r, l) && m in d.lines
    ensures var back := Undone(Linked(Linked(d, r, l, Some(donor), true, true), r, m, Some(donor), true, false), r);
      && l in back.lines && m in back.lines && !On(back, r, l)
      && (back.lines[l].own == d.lines[l].own <==> Filled(d.lines[l], donor) == NOTHING)
      && (m != l ==> back.lines[m].own == d.lines[m].own)
  {
  }

  /** A snapshot left over from another line is not used: the line stays as it is, and the receipt goes back to extracted. */
  lemma {:induction false} StaleSnapshotUnused(d: Desk, r: Id, m: Id, snap: Snapshot)
    requires On(d, r, m) && d.receipts[r].snapshot == Some(snap) && snap.line != m
    ensures Undone(d, r).lines == d.lines && Undone(d, r).receipts[r] == d.receipts[r].(matched := None, status := "extracted", snapshot := None)
  {
  }

  /** A link made between Undo's read and its batch is never undone. */
  lemma {:induction false} RelinkedIsKept(d: Desk, r: Id, l: Id, snap: Option<Snapshot>)
    requires r in d.receipts && d.receipts[r].matched.Some? && d.receipts[r].matched.value != l
    ensures UndoWrite(d, r, l, snap) == d
  {
  }

  // ── Counted once ────────────────────────────────────────────────────────────────────────────────────

  /** What a row adds to countable spend (src/lib/ledger-filter.ts, base currency). */
  function ReceiptSpend(r: Receipt): nat {
    if r.status !in {"duplicate", "ignored"} && r.matched == None && !r.credit then r.cents else 0
  }

  function LineSpend(l: Line): nat {
    if l.status !in {"duplicate", "ignored"} && !l.credit then l.cents else 0
  }

  /** Money out counts once, in full, wherever it stands: on a receipt only while that is on no line, and never on a row set aside as
      a duplicate or ignored. */
  lemma {:induction false} SpendMeans(r: Receipt, l: Line)
    ensures var aside := s => s == "duplicate" || s == "ignored";
      && ReceiptSpend(r) == (if r.credit || r.matched.Some? || aside(r.status) then 0 else r.cents)
      && LineSpend(l) == if l.credit || aside(l.status) then 0 else l.cents
  {
  }

  /**
   * While linked, the pair counts for exactly the line; after Undo it counts for exactly what it did before the link.
   */
  lemma {:induction false} PairCountsOnce(d: Desk, r: Id, l: Id, auto: bool)
    requires Unpaired(d, r, l) && LinkTargets(d, r, l, true) && d.receipts[r].status !in {"", "matched_receipt"}
    ensures var d1 := Linked(d, r, l, Some(d.receipts[r].own), true, auto);
      && ReceiptSpend(d1.receipts[r]) + LineSpend(d1.lines[l]) == LineSpend(d.lines[l])
      && (!d.lines[l].credit ==> LineSpend(d1.lines[l]) == d.lines[l].cents)
      && var d2 := Undone(d1, r);
         ReceiptSpend(d2.receipts[r]) == ReceiptSpend(d.receipts[r]) && LineSpend(d2.lines[l]) == LineSpend(d.lines[l])
  {
  }

  /** The manual unlink writes 'extracted' whatever the status was, so it brings the count back if and only if the
      receipt was not a set-aside duplicate (or worth nothing). */
  lemma {:induction false} UnlinkRestoresCount(d: Desk, r: Id, l: Id)
    requires Unpaired(d, r, l)
    ensures var back := Unlinked(Linked(d, r, l, Some(d.receipts[r].own), true, false), r);
      && back.receipts[r] == d.receipts[r].(status := "extracted", matched := None, snapshot := None) && back.receipts - {r} == d.receipts - {r}
      && (ReceiptSpend(back.receipts[r]) == ReceiptSpend(d.receipts[r])
          <==> d.receipts[r].status !in {"duplicate", "ignored"} || d.receipts[r].credit || d.receipts[r].cents == 0)
  {
    var d1 := Linked(d, r, l, Some(d.receipts[r].own), true, false);
    assert d1.receipts - {r} == d.receipts - {r} && Unlinked(d1, r).receipts - {r} == d1.receipts - {r};
  }

  // ── Whole runs ──────────────────────────────────────────────────────────────────────────────────────

  /**
   * A tap takes any receipt and live line of one direction, linked or not; the auto-matcher takes an unlinked receipt and
   * a live debit line and skips dismissed pairs; an edit writes one column of a line, and its status.
   */
  datatype Act =
    | Tap(r: Id, l: Id)
    | Auto(r: Id, l: Id)
    | UndoAct(r: Id)
    | Unlink(r: Id)
    | Dismiss(r: Id, l: Id)
    | Edit(l: Id, f: Field, v: Option<Value>, status: string)
    | EditReceipt(r: Id, own: Gaps)

  predicate Enabled(d: Desk, a: Act) {
    match a
    case Tap(r, l) => LinkTargets(d, r, l, true)
    case Auto(r, l) =>
      && r in d.receipts && l in d.lines && d.receipts[r].matched == None && d.receipts[r].status != "duplicate"
      && d.lines[l].status !in {"duplicate", "ignored"} && !d.lines[l].credit && (r, l) !in d.dismissed
    case Dismiss(r, l) => LinkTargets(d, r, l, false)
    case Edit(l, _, _, _) => l in d.lines
    case EditReceipt(r, _) => r in d.receipts
    case UndoAct(_) => true
    case Unlink(_) => true
  }

  function Do(d: Desk, a: Act): Desk
    requires Enabled(d, a)
  {
    match a
    case Tap(r, l) => Linked(d, r, l, Some(d.receipts[r].own), true, false)
    case Auto(r, l) => Linked(d, r, l, Some(d.receipts[r].own), true, true)
    case UndoAct(r) => Undone(d, r)
    case Unlink(r) => Unlinked(d, r)
    case Dismiss(r, l) => d.(dismissed := d.dismissed + {(r, l)})
    case Edit(l, f, v, status) => d.(lines := d.lines[l := d.lines[l].(own := d.lines[l].own.With(f, v), status := status)])
    case EditReceipt(r, own) => d.(receipts := d.receipts[r := d.receipts[r].(own := own)])
  }

  /** The auto-matcher may pair any receipt that is on no line and no duplicate with any bank line that counts as money out,
      unless the pair was dismissed; undos, unlinks and edits of rows on file can always happen. */
  lemma {:induction false} EnabledIff(d: Desk, r: Id, l: Id, f: Field, v: Option<Value>, status: string, own: Gaps)
    ensures Enabled(d, Auto(r, l)) <==>
      && r in d.receipts && d.receipts[r].matched.None? && d.receipts[r].status != "duplicate" && (r, l) !in d.dismissed
      && l in d.lines && LineSpend(d.lines[l].(cents := 1)) == 1
    ensures Enabled(d, UndoAct(r)) && Enabled(d, Unlink(r))
    ensures l in d.lines ==> Enabled(d, Edit(l, f, v, status))
    ensures r in d.receipts ==> Enabled(d, EditReceipt(r, own))
    ensures r in d.receipts && l in d.lines && r != l && r != "" && l != "" && d.lines[l].status !in {"duplicate", "ignored"} ==>
      Enabled(d, Dismiss(r, l)) && (d.receipts[r].credit == d.lines[l].credit ==> Enabled(d, Tap(r, l)))
  {
  }

  /** An edit writes the one column of the one line, and its status; an edit of a receipt what it could donate; a dismissal only the
      pair. */
  lemma {:induction false} EditsMean(d: Desk, r: Id, l: Id, f: Field, v: Option<Value>, status: string, own: Gaps)
    requires r in d.receipts && l in d.lines
    ensures var e := Do(d, Edit(l, f, v, status));
      && Untouched(d, e, r, l) && e.receipts == d.receipts && e.lines[l].status == status
      && e.lines[l].credit == d.lines[l].credit && e.lines[l].cents == d.lines[l].cents
      && forall g: Field :: e.lines[l].own.At(g) == if g == f then v else d.lines[l].own.At(g)
    ensures var e := Do(d, EditReceipt(r, own));
      && Untouched(d, e, r, l) && e.lines == d.lines && e.receipts[r].own == own && e.receipts[r].(own := d.receipts[r].own) == d.receipts[r]
    ensures Enabled(d, Dismiss(r, l)) ==> Do(d, Dismiss(r, l)) == Desk(d.receipts, d.lines, d.dismissed + {(r, l)})
  {
    var e, x := Do(d, Edit(l, f, v, status)), Do(d, EditReceipt(r, own));
    assert e.lines - {l} == d.lines - {l} && x.receipts - {r} == d.receipts - {r};
  }

  /** A tap and an auto-link write the same but for who made the link. */
  lemma {:induction false} LinksMean(d: Desk, r: Id, l: Id)
    ensures Enabled(d, Tap(r, l)) ==> var t := Do(d, Tap(r, l)); On(t, r, l) && t.receipts[r].snapshot.Some? && !t.receipts[r].snapshot.value.auto
    ensures Enabled(d, Auto(r, l)) ==> var a := Do(d, Auto(r, l)); On(a, r, l) && a.receipts[r].snapshot.Some? && a.receipts[r].snapshot.value.auto
    ensures Enabled(d, Tap(r, l)) && Enabled(d, Auto(r, l)) ==> Do(d, Tap(r, l)).lines == Do(d, Auto(r, l)).lines
  {
  }

  predicate Runs(d: Desk, acts: seq<Act>)
    decreases |acts|
  {
    acts == [] || (Enabled(d, acts[0]) && Runs(Do(d, acts[0]), acts[1..]))
  }

  function After(d: Desk, acts: seq<Act>): Desk
    requires Runs(d, acts)
    decreases |acts|
  {
    if acts == [] then d else After(Do(d, acts[0]), acts[1..])
  }

  ghost predicate NoneOn(d: Desk, l: Id) { forall r :: !On(d, r, l) }

  // ── One column of one line, and the receipts that filled it ─────────────────────────────────────────

  /** The value it holds, and for each receipt on the line what its link filled in here. */
  datatype Column = Column(now: Option<Value>, fills: map<Id, Option<Value>>)

  datatype Move = Join(r: Id, given: Option<Value>) | Leave(r: Id) | Back(r: Id) | Set(v: Option<Value>) | Rest

  function Moved(c: Column, m: Move): Column {
    match m
    case Join(r, given) => Column(Coalesce(c.now, given), c.fills[r := Gap(c.now, given)])
    case Leave(r) => Column(c.now, c.fills - {r})
    case Back(r) => if r in c.fills then Column(Clear(c.now, c.fills[r]), c.fills - {r}) else c
    case Set(v) => Column(v, c.fills)
    case Rest => c
  }

  function FilledBy(d: Desk, r: Id, l: Id): Gaps
    requires r in d.receipts
  {
    var snap := SnapshotFor(d.receipts[r], l);
    if snap.Some? then snap.value.filled else NOTHING
  }

  ghost function ColumnOf(d: Desk, l: Id, f: Field): Column
    requires l in d.lines
  {
    Column(d.lines[l].own.At(f), map r | r in d.receipts && d.receipts[r].matched == Some(l) :: FilledBy(d, r, l).At(f))
  }

  /** What one step does to the column: a receipt linked elsewhere, or unlinked by hand, leaves without an undo. */
  function MoveOf(d: Desk, a: Act, l: Id, f: Field): Move
    requires Enabled(d, a)
  {
    match a
    case Tap(r, m) => if m == l then Join(r, d.receipts[r].own.At(f)) else if On(d, r, l) then Leave(r) else Rest
    case Auto(r, m) => if m == l then Join(r, d.receipts[r].own.At(f)) else Rest
    case UndoAct(r) => if On(d, r, l) then Back(r) else Rest
    case Unlink(r) => if On(d, r, l) then Leave(r) else Rest
    case Dismiss(_, _) => Rest
    case Edit(m, g, v, _) => if m == l && g == f then Set(v) else Rest
    case EditReceipt(_, _) => Rest
  }

  function MovesOf(d: Desk, acts: seq<Act>, l: Id, f: Field): seq<Move>
    requires Runs(d, acts)
    decreases |acts|
  {
    if acts == [] then [] else [MoveOf(d, acts[0], l, f)] + MovesOf(Do(d, acts[0]), acts[1..], l, f)
  }

  function MovedAll(c: Column, ms: seq<Move>): Column
    decreases |ms|
  {
    if ms == [] then c else MovedAll(Moved(c, ms[0]), ms[1..])
  }

  lemma {:induction false} LinkMoves(d: Desk, r: Id, m: Id, auto: bool, l: Id, f: Field)
    requires r in d.receipts && m in d.lines && l in d.lines
    ensures var d' := Linked(d, r, m, Some(d.receipts[r].own), true, auto);
      l in d'.lines && ColumnOf(d', l, f) == Moved(ColumnOf(d, l, f),
        if m == l then Join(r, d.receipts[r].own.At(f)) else if On(d, r, l) then Leave(r) else Rest)
  {
    var d' := Linked(d, r, m, Some(d.receipts[r].own), true, auto);
    var c, c' := ColumnOf(d, l, f), ColumnOf(d', l, f);
    if m != l { assert c'.fills == c.fills - {r}; }
  }

  lemma {:induction false} UndoMoves(d: Desk, r: Id, l: Id, f: Field)
    requires l in d.lines
    ensures var d' := Undone(d, r);
      l in d'.lines && ColumnOf(d', l, f) == Moved(ColumnOf(d, l, f), if On(d, r, l) then Back(r) else Rest)
  {
    var d' := Undone(d, r);
    var c, c' := ColumnOf(d, l, f), ColumnOf(d', l, f);
    assert c'.fills == c.fills - {r};
  }

  lemma {:induction false} UnlinkMoves(d: Desk, r: Id, l: Id, f: Field)
    requires l in d.lines
    ensures ColumnOf(Unlinked(d, r), l, f) == Moved(ColumnOf(d, l, f), if On(d, r, l) then Leave(r) else Rest)
  {
    assert ColumnOf(Unlinked(d, r), l, f).fills == ColumnOf(d, l, f).fills - {r};
  }

  lemma {:induction false} EditMoves(d: Desk, a: Act, l: Id, f: Field)
    requires (a.Edit? || a.EditReceipt?) && Enabled(d, a) && l in d.lines
    ensures l in Do(d, a).lines && ColumnOf(Do(d, a), l, f) == Moved(ColumnOf(d, l, f), MoveOf(d, a, l, f))
  {
    assert ColumnOf(Do(d, a), l, f).fills == ColumnOf(d, l, f).fills;
  }

  /** Each step moves each column of each line as its own small machine says. */
  lemma {:induction false} StepMoves(d: Desk, a: Act, l: Id, f: Field)
    requires Enabled(d, a) && l in d.lines
    ensures l in Do(d, a).lines && ColumnOf(Do(d, a), l, f) == Moved(ColumnOf(d, l, f), MoveOf(d, a, l, f))
  {
    match a
    case Tap(r, m) => LinkMoves(d, r, m, false, l, f);
    case Auto(r, m) => LinkMoves(d, r, m, true, l, f);
    case UndoAct(r) => UndoMoves(d, r, l, f);
    case Unlink(r) => UnlinkMoves(d, r, l, f);
    case Dismiss(_, _) =>
    case Edit(_, _, _, _) => EditMoves(d, a, l, f);
    case EditReceipt(_, _) => EditMoves(d, a, l, f);
  }

  lemma {:induction false} RunMoves(d: Desk, acts: seq<Act>, l: Id, f: Field)
    requires Runs(d, acts) && l in d.lines
    ensures l in After(d, acts).lines
    ensures ColumnOf(After(d, acts), l, f) == MovedAll(ColumnOf(d, l, f), MovesOf(d, acts, l, f))
    decreases |acts|
  {
    if acts != [] {
      StepMoves(d, acts[0], l, f);
      RunMoves(Do(d, acts[0]), acts[1..], l, f);
    }
  }

  /** A receipt gives up what it filled in here without an undo: it leaves, or is linked to the line again. */
  predicate Drops(c: Column, m: Move) {
    (m.Join? || m.Leave?) && m.r in c.fills && c.fills[m.r].Some?
  }

  predicate DropsIn(c: Column, ms: seq<Move>)
    decreases |ms|
  {
    ms != [] && (Drops(c, ms[0]) || DropsIn(Moved(c, ms[0]), ms[1..]))
  }

  predicate Unedited(ms: seq<Move>) { forall m | m in ms :: !m.Set? }

  /** The invariant: the column holds its original value, or the value exactly one linked receipt filled in; once a filled
      value has been dropped, some value is in the column and no receipt accounts for it. */
  ghost predicate Accounted(original: Option<Value>, c: Column, dropped: bool) {
    if original.Some? then !dropped && c.now == original && Blank(c)
    else if dropped then c.now.Some? && Blank(c)
    else if c.now == None then Blank(c)
    else exists r | r in c.fills :: c.fills[r] == c.now && forall s | s in c.fills && s != r :: c.fills[s] == None
  }

  predicate Blank(c: Column) { forall r | r in c.fills :: c.fills[r] == None }

  lemma {:induction false} MoveAccounts(original: Option<Value>, c: Column, dropped: bool, m: Move)
    requires Accounted(original, c, dropped) && !m.Set?
    ensures Accounted(original, Moved(c, m), dropped || Drops(c, m))
  {
    var c' := Moved(c, m);
    if original == None && !dropped && c.now.Some? {
      var r :| r in c.fills && c.fills[r] == c.now && forall s | s in c.fills && s != r :: c.fills[s] == None;
      assert r in c'.fills && c'.fills[r] == c.now ==> Accounted(original, c', false);
    } else if m.Join? && original == None && !dropped && m.given.Some? {
      assert c'.fills[m.r] == c'.now;
    }
  }

  lemma {:induction false} MovesAccount(original: Option<Value>, c: Column, dropped: bool, ms: seq<Move>)
    requires Accounted(original, c, dropped) && Unedited(ms)
    ensures Accounted(original, MovedAll(c, ms), dropped || DropsIn(c, ms))
    decreases |ms|
  {
    if ms != [] {
      assert ms[0] in ms && forall m | m in ms[1..] :: m in ms;
      MoveAccounts(original, c, dropped, ms[0]);
      MovesAccount(original, Moved(c, ms[0]), dropped || Drops(c, ms[0]), ms[1..]);
    }
  }

  /** The step links a receipt that is on the line again, here or elsewhere, or unlinks it by hand, and that receipt had
      filled the column in. */
  predicate DropsAt(d: Desk, a: Act, l: Id, f: Field) {
    && (a.Tap? || a.Unlink?) && On(d, a.r, l) && FilledBy(d, a.r, l).At(f).Some?
  }

  predicate DonationDropped(d: Desk, acts: seq<Act>, l: Id, f: Field)
    requires Runs(d, acts)
    decreases |acts|
  {
    acts != [] && (DropsAt(d, acts[0], l, f) || DonationDropped(Do(d, acts[0]), acts[1..], l, f))
  }

  lemma {:induction false} DroppedMoves(d: Desk, acts: seq<Act>, l: Id, f: Field)
    requires Runs(d, acts) && l in d.lines
    ensures DonationDropped(d, acts, l, f) <==> DropsIn(ColumnOf(d, l, f), MovesOf(d, acts, l, f))
    decreases |acts|
  {
    if acts != [] {
      StepMoves(d, acts[0], l, f);
      DroppedMoves(Do(d, acts[0]), acts[1..], l, f);
      var ms := MovesOf(d, acts, l, f);
      assert ms[1..] == MovesOf(Do(d, acts[0]), acts[1..], l, f);
    }
  }

  predicate NeverEdited(acts: seq<Act>, l: Id, f: Field) { forall a | a in acts :: !(a.Edit? && a.l == l && a.f == f) }

  lemma {:induction false} NoSetMoves(d: Desk, acts: seq<Act>, l: Id, f: Field)
    requires Runs(d, acts) && NeverEdited(acts, l, f)
    ensures Unedited(MovesOf(d, acts, l, f))
    decreases |acts|
  {
    if acts != [] {
      assert acts[0] in acts && forall a | a in acts[1..] :: a in acts;
      NoSetMoves(Do(d, acts[0]), acts[1..], l, f);
    }
  }

  /** Over any run of taps, auto-links, undos, unlinks, dismissals and edits elsewhere, a column holds its original value
      or the value exactly one linked receipt filled in, until such a value is dropped. */
  lemma {:induction false} RunAccounts(d: Desk, acts: seq<Act>, l: Id, f: Field)
    requires Runs(d, acts) && l in d.lines && NoneOn(d, l) && NeverEdited(acts, l, f)
    ensures l in After(d, acts).lines
    ensures Accounted(d.lines[l].own.At(f), ColumnOf(After(d, acts), l, f), DonationDropped(d, acts, l, f))
  {
    assert forall r :: r in ColumnOf(d, l, f).fills ==> On(d, r, l);
    RunMoves(d, acts, l, f);
    NoSetMoves(d, acts, l, f);
    DroppedMoves(d, acts, l, f);
    MovesAccount(d.lines[l].own.At(f), ColumnOf(d, l, f), false, MovesOf(d, acts, l, f));
  }

  /**
   * However many receipts are linked to a line and undone, in whatever order: once none is on it any more, a column nobody
   * edited is what it was at the start if and only if no step linked again, or unlinked by hand, a receipt on the line
   * that had filled that column in.
   */
  lemma {:induction false} ColumnComesBack(d: Desk, acts: seq<Act>, l: Id, f: Field)
    requires Runs(d, acts) && l in d.lines && NoneOn(d, l) && NoneOn(After(d, acts), l) && NeverEdited(acts, l, f)
    ensures l in After(d, acts).lines
    ensures After(d, acts).lines[l].own.At(f) == d.lines[l].own.At(f) <==> !DonationDropped(d, acts, l, f)
  {
    RunAccounts(d, acts, l, f);
    var c := ColumnOf(After(d, acts), l, f);
    assert forall r :: r in c.fills ==> On(After(d, acts), r, l);
  }

  // ── Edits stay ──────────────────────────────────────────────────────────────────────────────────────

  /** An undo, at some step, of a receipt on the line that had filled in the very value given. */
  predicate UndoesSame(d: Desk, acts: seq<Act>, l: Id, f: Field, v: Value)
    requires Runs(d, acts)
    decreases |acts|
  {
    acts != [] && ((acts[0].UndoAct? && On(d, acts[0].r, l) && FilledBy(d, acts[0].r, l).At(f) == Some(v))
                   || UndoesSame(Do(d, acts[0]), acts[1..], l, f, v))
  }

  predicate HoldsThroughout(d: Desk, acts: seq<Act>, l: Id, f: Field, v: Value)
    requires Runs(d, acts)
    decreases |acts|
  {
    l in d.lines && d.lines[l].own.At(f) == Some(v) && (acts == [] || HoldsThroughout(Do(d, acts[0]), acts[1..], l, f, v))
  }

  /** A value the user has put in a column stays there, until the column is edited again, if and only if no receipt that
      had filled in that same value is undone. */
  lemma {:induction false} EditStays(d: Desk, acts: seq<Act>, l: Id, f: Field, v: Value)
    requires Runs(d, acts) && l in d.lines && d.lines[l].own.At(f) == Some(v) && NeverEdited(acts, l, f)
    ensures HoldsThroughout(d, acts, l, f, v) <==> !UndoesSame(d, acts, l, f, v)
    decreases |acts|
  {
    if acts != [] {
      assert acts[0] in acts && forall a | a in acts[1..] :: a in acts;
      StepMoves(d, acts[0], l, f);
      var c, m := ColumnOf(d, l, f), MoveOf(d, acts[0], l, f);
      assert Moved(c, m).now == Some(v) <==> !(m.Back? && c.fills[m.r] == Some(v));
      if Moved(c, m).now == Some(v) { EditStays(Do(d, acts[0]), acts[1..], l, f, v); }
    }
  }

  // ── Dismissed pairs ─────────────────────────────────────────────────────────────────────────────────

  lemma {:induction false} DismissedStays(d: Desk, acts: seq<Act>, r: Id, l: Id)
    requires Runs(d, acts) && (r, l) in d.dismissed
    ensures (r, l) in After(d, acts).dismissed
    decreases |acts|
  {
    if acts != [] { DismissedStays(Do(d, acts[0]), acts[1..], r, l); }
  }

  /** A pair that was undone is never linked again by the auto-matcher, at any later point of any run. */
  lemma {:induction false} UndonePairNotAutoLinked(d: Desk, acts: seq<Act>, r: Id, l: Id, k: nat)
    requires Enabled(d, UndoAct(r)) && On(d, r, l)
    requires Runs(Undone(d, r), acts) && k < |acts| && Runs(Undone(d, r), acts[..k]) && Enabled(After(Undone(d, r), acts[..k]), acts[k])
    ensures acts[k] != Auto(r, l)
  {
    DismissedStays(Undone(d, r), acts[..k], r, l);
  }
}
