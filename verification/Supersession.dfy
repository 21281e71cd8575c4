/**
 * Income supersession (src/lib/income-supersession.ts, and the order in which src/agent.ts applies it): which rows on
 * file a newly read document replaces, and what is left after any sequence of uploads.
 *
 * Dates are day numbers (ISO days compare in the same order); a missing or non-ISO date is None. Names and ABNs are
 * the normalised ones the rule compares.
 */
module Supersession {
  import opened Options

  type Id = string

  datatype Kind = Salary | Rent | Other

  datatype Income = Income(
    id: Id, kind: Kind, fy: int, person: Option<string>, entity: Option<string>, property: Option<string>,
    doc: Option<Id>, employer: Option<string>, abn: Option<string>, address: Option<string>,
    start: Option<int>, end: Option<int>)

  datatype Decision = Decision(replace: seq<Income>, coveredBy: Option<Income>, overlap: seq<Income>)

  const NO_CHANGE := Decision([], None, [])

  // ── The rule ────────────────────────────────────────────────────────────────────────────────────────

  /** The same entity (or none) and the same person, where no person means the tenant's own. */
  predicate SameTaxpayer(self: string, a: Income, b: Income) {
    a.entity == b.entity && a.person.GetOr(self) == b.person.GetOr(self)
  }

  predicate IsPeer(self: string, incoming: Income, r: Income) {
    r.kind == incoming.kind && (r.doc == None || r.doc != incoming.doc) && SameTaxpayer(self, r, incoming)
  }

  /** By ABN when both rows carry one, otherwise by name. */
  predicate SameEmployer(a: Income, b: Income) {
    if a.abn.Some? && b.abn.Some? then a.abn == b.abn else a.employer.Some? && a.employer == b.employer
  }

  /** The same property on both rows; two rows that do not both carry one may still agree on the address. */
  predicate SameProperty(a: Income, b: Income) { a.property.Some? && a.property == b.property }

  predicate SameAddress(a: Income, b: Income) {
    !(a.property.Some? && b.property.Some?) && a.address.Some? && a.address == b.address
  }

  predicate Dated(r: Income) { r.start.Some? && r.end.Some? }

  predicate Meets(incoming: Income, r: Income) {
    && Dated(incoming) && Dated(r)
    && (SameProperty(r, incoming) || SameAddress(r, incoming))
    && incoming.start.value <= r.end.value && r.start.value <= incoming.end.value
  }

  predicate Spans(a: Income, b: Income)
    requires Dated(a) && Dated(b)
  {
    a.start.value <= b.start.value && b.end.value <= a.end.value
  }

  predicate Decisive(incoming: Income, r: Income) { SameProperty(r, incoming) && r.fy == incoming.fy }

  predicate RentReplaces(incoming: Income, r: Income) {
    Meets(incoming, r) && Decisive(incoming, r) && Spans(incoming, r)
  }

  predicate RentCovers(r: Income, incoming: Income) {
    Meets(incoming, r) && Decisive(incoming, r) && !Spans(incoming, r) && Spans(r, incoming)
  }

  predicate RentOverlaps(incoming: Income, r: Income) {
    Meets(incoming, r) && !RentReplaces(incoming, r) && !RentCovers(r, incoming)
  }

  datatype Class = Replaced | Covering | Overlapping | Apart

  function Classify(incoming: Income, r: Income): Class {
    if RentReplaces(incoming, r) then Replaced
    else if RentCovers(r, incoming) then Covering
    else if RentOverlaps(incoming, r) then Overlapping
    else Apart
  }

  function Pick(self: string, incoming: Income, rows: seq<Income>, c: Class): (picked: seq<Income>)
    ensures forall r :: r in picked <==> r in rows && IsPeer(self, incoming, r) && Classify(incoming, r) == c
  {
    if rows == [] then [] else
    var before, r := Pick(self, incoming, rows[..|rows| - 1], c), rows[|rows| - 1];
    assert forall x :: x in rows <==> x in rows[..|rows| - 1] || x == r;
    if IsPeer(self, incoming, r) && Classify(incoming, r) == c then before + [r] else before
  }

  function PickSalary(self: string, incoming: Income, rows: seq<Income>): (picked: seq<Income>)
    ensures forall r :: r in picked <==> r in rows && IsPeer(self, incoming, r) && r.fy == incoming.fy && SameEmployer(r, incoming)
  {
    if rows == [] then [] else
    var before, r := PickSalary(self, incoming, rows[..|rows| - 1]), rows[|rows| - 1];
    assert forall x :: x in rows <==> x in rows[..|rows| - 1] || x == r;
    if IsPeer(self, incoming, r) && r.fy == incoming.fy && SameEmployer(r, incoming) then before + [r] else before
  }

  function Decided(self: string, incoming: Income, onFile: seq<Income>): Decision {
    if incoming.kind == Salary then
      if incoming.employer == None && incoming.abn == None then NO_CHANGE
      else Decision(PickSalary(self, incoming, onFile), None, [])
    else if incoming.kind != Rent || !Dated(incoming) then NO_CHANGE
    else
      var covering := Pick(self, incoming, onFile, Covering);
      if covering != [] then Decision([], Some(covering[0]), [])
      else Decision(Pick(self, incoming, onFile, Replaced), None, Pick(self, incoming, onFile, Overlapping))
  }

  /** decideSupersession: one pass over the rows on file. */
  method Decide(self: string, incoming: Income, onFile: seq<Income>) returns (d: Decision)
    ensures d == Decided(self, incoming, onFile)
  {
    if incoming.kind == Salary {
      if incoming.employer == None && incoming.abn == None { return NO_CHANGE; }
      return Decision(PickSalary(self, incoming, onFile), None, []);
    }
    if incoming.kind != Rent || !Dated(incoming) { return NO_CHANGE; }
    var out := NO_CHANGE;
    for i := 0 to |onFile|
      invariant out.replace == Pick(self, incoming, onFile[..i], Replaced)
      invariant out.overlap == Pick(self, incoming, onFile[..i], Overlapping)
      invariant var covering := Pick(self, incoming, onFile[..i], Covering);
        out.coveredBy == if covering == [] then None else Some(covering[0])
    {
      var r := onFile[i];
      assert onFile[..i + 1][..i] == onFile[..i];
      if IsPeer(self, incoming, r) && Dated(r) && (SameProperty(r, incoming) || SameAddress(r, incoming)) {
        if incoming.start.value <= r.end.value && r.start.value <= incoming.end.value {
          var decisive := SameProperty(r, incoming) && r.fy == incoming.fy;
          if decisive && Spans(incoming, r) {
            out := out.(replace := out.replace + [r]);
          } else if decisive && Spans(r, incoming) {
            if out.coveredBy == None { out := out.(coveredBy := Some(r)); }
          } else {
            out := out.(overlap := out.overlap + [r]);
          }
        }
      }
    }
    assert onFile[..|onFile|] == onFile;
    if out.coveredBy.Some? { return Decision([], out.coveredBy, []); }
    return out;
  }

  // ── The decision, in the columns of the two rows ────────────────────────────────────────────────────

  /** Both rows are of one kind and one taxpayer, and were not read from the same document. */
  predicate Rivals(self: string, a: Income, b: Income) {
    && a.kind == b.kind && a.entity == b.entity && !(a.doc.Some? && a.doc == b.doc)
    && (if a.person.Some? then a.person.value else self) == (if b.person.Some? then b.person.value else self)
  }

  /** They name one employer: by ABN when both have one, by name otherwise. */
  predicate OneEmployer(a: Income, b: Income) {
    if a.abn == None || b.abn == None then a.employer.Some? && a.employer == b.employer else a.abn == b.abn
  }

  /** Rent of one property, or of one address when either row has no property, whose periods share a day. */
  predicate OnePlace(a: Income, b: Income) {
    && (if a.property == None || b.property == None then a.address.Some? && a.address == b.address else a.property == b.property)
    && a.start.Some? && a.end.Some? && b.start.Some? && b.end.Some? && a.start.value <= b.end.value && b.start.value <= a.end.value
  }

  /** It is the very same property and year, and the first period contains the second. */
  predicate Contains(a: Income, b: Income) {
    a.property.Some? && a.property == b.property && a.fy == b.fy && OnePlace(a, b) && a.start.value <= b.start.value && b.end.value <= a.end.value
  }

  /** The new row restates the one on file. */
  predicate Restated(u: Income, r: Income) {
    match u.kind
    case Salary => r.fy == u.fy && OneEmployer(r, u)
    case Rent => Contains(u, r)
    case Other => false
  }

  /**
   * What a newly read row does to the rows on file. A salary row replaces those of its employer and year. A rent row that a
   * row on file contains (without itself containing that row) is covered, and then changes nothing; otherwise it replaces the
   * rows it contains, and is reported as overlapping the rest it shares a day with. No other row does anything.
   */
  lemma {:induction false} DecidedMeans(self: string, u: Income, onFile: seq<Income>, r: Income)
    requires r in onFile
    ensures var d := Decided(self, u, onFile);
      && (r in d.replace <==> Rivals(self, r, u) && Restated(u, r) && d.coveredBy == None)
      && (r in d.overlap <==> Rivals(self, r, u) && u.kind == Rent && OnePlace(r, u) && !Contains(u, r) && d.coveredBy == None)
      && (u.kind == Rent && Rivals(self, r, u) && Contains(r, u) && !Contains(u, r) ==> d.coveredBy.Some?)
  {
  }

  /** The covering row is one on file that contains the new one, which does not contain it. */
  lemma {:induction false} CoveredMeans(self: string, u: Income, onFile: seq<Income>)
    requires Decided(self, u, onFile).coveredBy.Some?
    ensures var c := Decided(self, u, onFile).coveredBy.value;
      c in onFile && u.kind == Rent && Rivals(self, c, u) && Contains(c, u) && !Contains(u, c)
    ensures Decided(self, u, onFile).replace == [] && Decided(self, u, onFile).overlap == []
    ensures forall r | r in Decided(self, u, onFile).replace :: r in onFile
  {
    assert Pick(self, u, onFile, Covering)[0] in Pick(self, u, onFile, Covering);
  }

  // ── Applying it: the rows, the fees each document recorded, and bank credits matched to a row ────────

  datatype Upload = Upload(row: Income, fees: seq<nat>)

  datatype Book = Book(income: seq<Income>, fees: map<Id, seq<nat>>, credits: map<Id, Option<Id>>, supersededBy: map<Id, Option<Id>>)

  const EMPTY_BOOK := Book([], map[], map[], map[])

  function Without(rows: seq<Income>, gone: seq<Income>): (kept: seq<Income>)
    ensures forall r :: r in kept <==> r in rows && forall g | g in gone :: g.id != r.id
  {
    if rows == [] then [] else
    var before, r := Without(rows[..|rows| - 1], gone), rows[|rows| - 1];
    assert forall x :: x in rows <==> x in rows[..|rows| - 1] || x == r;
    if exists g | g in gone :: g.id == r.id then before else before + [r]
  }

  function DocsOf(gone: seq<Income>): set<Id> {
    set g | g in gone && g.kind == Rent && g.doc.Some? :: g.doc.value
  }

  function Repointed(credits: map<Id, Option<Id>>, gone: seq<Income>, to: Id): map<Id, Option<Id>> {
    map c | c in credits :: if exists g | g in gone :: credits[c] == Some(g.id) then Some(to) else credits[c]
  }

  function Marked(m: map<Id, Option<Id>>, docs: set<Id>, byDoc: Option<Id>): map<Id, Option<Id>> {
    m + map d | d in docs :: byDoc
  }

  function Retired(b: Book, gone: seq<Income>, replacement: Id, byDoc: Option<Id>): Book {
    Book(Without(b.income, gone), b.fees - DocsOf(gone), Repointed(b.credits, gone, replacement),
         Marked(b.supersededBy, DocsOf(gone), byDoc))
  }

  /** A document's income row and fees, in the agent's order: decide, write the new rows, then retire the replaced. */
  function Uploaded(self: string, b: Book, u: Upload): Book {
    var d := Decided(self, u.row, b.income);
    if d.coveredBy.Some? then
      if u.row.doc.Some? then b.(supersededBy := b.supersededBy[u.row.doc.value := d.coveredBy.value.doc]) else b
    else
      var written := b.(income := b.income + [u.row],
                        fees := if u.row.doc.Some? then b.fees[u.row.doc.value := u.fees] else b.fees);
      Retired(written, d.replace, u.row.id, u.row.doc)
  }

  class IncomeBook {
    var income: seq<Income>
    var fees: map<Id, seq<nat>>
    var credits: map<Id, Option<Id>>
    var supersededBy: map<Id, Option<Id>>

    function State(): Book
      reads this
    {
      Book(income, fees, credits, supersededBy)
    }

    /** One row of retireIncome: re-point its credit, delete it, delete its document's transactions, mark the document. */
    method RetireRow(r: Income, replacement: Id, byDoc: Option<Id>)
      modifies this
      ensures State() == RetireOne(old(State()), r, replacement, byDoc)
    {
      credits := map c | c in credits :: if credits[c] == Some(r.id) then Some(replacement) else credits[c];
      income := Without(income, [r]);
      if r.kind == Rent && r.doc.Some? {
        fees := fees - {r.doc.value};
        supersededBy := supersededBy[r.doc.value := byDoc];
      }
    }

    /** retireIncome: every replaced row in turn. */
    method Retire(gone: seq<Income>, replacement: Id, byDoc: Option<Id>)
      requires forall g | g in gone :: g.id != replacement
      modifies this
      ensures State() == Retired(old(State()), gone, replacement, byDoc)
    {
      ghost var b := State();
      RetiredNothing(b, replacement, byDoc);
      for i := 0 to |gone|
        invariant State() == Retired(b, gone[..i], replacement, byDoc)
      {
        assert gone[..i + 1] == gone[..i] + [gone[i]];
        RetiredOneMore(b, gone[..i], gone[i], replacement, byDoc);
        RetireRow(gone[i], replacement, byDoc);
      }
      assert gone[..|gone|] == gone;
    }
  }

  function RetireOne(b: Book, r: Income, to: Id, byDoc: Option<Id>): Book {
    var tied := r.kind == Rent && r.doc.Some?;
    Book(Without(b.income, [r]),
         if tied then b.fees - {r.doc.value} else b.fees,
         map c | c in b.credits :: if b.credits[c] == Some(r.id) then Some(to) else b.credits[c],
         if tied then b.supersededBy[r.doc.value := byDoc] else b.supersededBy)
  }

  lemma {:induction false} RetiredNothing(b: Book, to: Id, byDoc: Option<Id>)
    ensures Retired(b, [], to, byDoc) == b
  {
    WithoutNothing(b.income);
    assert DocsOf([]) == {};
    assert Repointed(b.credits, [], to) == b.credits;
  }

  lemma {:induction false} RetiredOneMore(b: Book, gone: seq<Income>, r: Income, to: Id, byDoc: Option<Id>)
    requires r.id != to && forall g | g in gone :: g.id != to
    ensures Retired(b, gone + [r], to, byDoc) == RetireOne(Retired(b, gone, to, byDoc), r, to, byDoc)
  {
    var docs := DocsOf(gone);
    assert Without(b.income, gone + [r]) == Without(Without(b.income, gone), [r]) by { WithoutOneMore(b.income, gone, r); }
    var credits := Repointed(b.credits, gone, to);
    assert Repointed(b.credits, gone + [r], to) == map c | c in credits :: if credits[c] == Some(r.id) then Some(to) else credits[c] by {
      RepointOneMore(b.credits, gone, r, to);
    }
    FeesOneMore(b.fees, gone, r);
    MarksOneMore(b.supersededBy, gone, r, byDoc);
  }

  lemma {:induction false} FeesOneMore(fees: map<Id, seq<nat>>, gone: seq<Income>, r: Income)
    ensures fees - DocsOf(gone + [r]) ==
      if r.kind == Rent && r.doc.Some? then (fees - DocsOf(gone)) - {r.doc.value} else fees - DocsOf(gone)
  {
    DocsOneMore(gone, r);
  }

  lemma {:induction false} MarksOneMore(m: map<Id, Option<Id>>, gone: seq<Income>, r: Income, byDoc: Option<Id>)
    ensures Marked(m, DocsOf(gone + [r]), byDoc) ==
      if r.kind == Rent && r.doc.Some? then Marked(m, DocsOf(gone), byDoc)[r.doc.value := byDoc] else Marked(m, DocsOf(gone), byDoc)
  {
    DocsOneMore(gone, r);
  }

  lemma {:induction false} DocsOneMore(gone: seq<Income>, r: Income)
    ensures DocsOf(gone + [r]) == DocsOf(gone) + if r.kind == Rent && r.doc.Some? then {r.doc.value} else {}
  {
    assert forall g :: g in gone + [r] <==> g in gone || g == r;
  }

  lemma {:induction false} WithoutSnoc(rows: seq<Income>, last: Income, gone: seq<Income>)
    ensures Without(rows + [last], gone) == Without(rows, gone) + if exists g | g in gone :: g.id == last.id then [] else [last]
  {
    assert (rows + [last])[..|rows|] == rows;
  }

  lemma {:induction false} GoneOneMore(gone: seq<Income>, r: Income, id: Id)
    ensures (exists g | g in gone + [r] :: g.id == id) <==> (exists g | g in gone :: g.id == id) || r.id == id
  {
    assert r in gone + [r] && forall g :: g in gone + [r] <==> g in gone || g == r;
  }

  lemma {:induction false} WithoutOneMore(rows: seq<Income>, gone: seq<Income>, r: Income)
    ensures Without(rows, gone + [r]) == Without(Without(rows, gone), [r])
  {
    if rows != [] {
      var init, last := rows[..|rows| - 1], rows[|rows| - 1];
      WithoutOneMore(init, gone, r);
      GoneOneMore(gone, r, last.id);
      GoneOneMore([], r, last.id);
      assert [] + [r] == [r];
      WithoutSnoc(Without(init, gone), last, [r]);
    }
  }

  lemma {:induction false} RepointOneMore(credits: map<Id, Option<Id>>, gone: seq<Income>, r: Income, to: Id)
    requires r.id != to && forall g | g in gone :: g.id != to
    ensures Repointed(credits, gone + [r], to) ==
      map c | c in Repointed(credits, gone, to) :: if Repointed(credits, gone, to)[c] == Some(r.id) then Some(to) else Repointed(credits, gone, to)[c]
  {
    assert forall g :: g in gone + [r] <==> g in gone || g == r;
  }

  lemma {:induction false} WithoutNothing(rows: seq<Income>)
    ensures Without(rows, []) == rows
  {
    if rows != [] {
      WithoutNothing(rows[..|rows| - 1]);
      assert rows == rows[..|rows| - 1] + [rows[|rows| - 1]];
    }
  }

  // ── What is left after any sequence of uploads ──────────────────────────────────────────────────────

  function UploadAll(self: string, b: Book, ups: seq<Upload>): Book {
    if ups == [] then b else Uploaded(self, UploadAll(self, b, ups[..|ups| - 1]), ups[|ups| - 1])
  }

  /** Statements as the agent files them: a rent row for a known property, dated, one row to a document. */
  predicate RentUploads(ups: seq<Upload>) {
    && (forall i | 0 <= i < |ups| ::
          var r := ups[i].row;
          r.kind == Rent && Dated(r) && r.start.value <= r.end.value && r.property.Some? && r.doc.Some?)
    && forall i, j | 0 <= i < |ups| && 0 <= j < |ups| && i != j ::
          ups[i].row.id != ups[j].row.id && ups[i].row.doc != ups[j].row.doc
  }

  /** Statement `a` restates `b`: the same taxpayer, property and FY, over a period that contains b's. */
  predicate Restates(self: string, a: Income, b: Income) {
    SameTaxpayer(self, a, b) && SameProperty(a, b) && a.fy == b.fy && Dated(a) && Dated(b) && Spans(a, b)
  }

  /** Something uploaded restates statement `i`: over a longer period, or over the same period and later. */
  predicate Beaten(self: string, ups: seq<Upload>, i: nat)
    requires i < |ups|
  {
    exists j | 0 <= j < |ups| && j != i :: RestatedBy(self, ups, i, j)
  }

  predicate RestatedBy(self: string, ups: seq<Upload>, i: nat, j: nat)
    requires i < |ups| && j < |ups|
  {
    Restates(self, ups[j].row, ups[i].row) && (!Restates(self, ups[i].row, ups[j].row) || j > i)
  }

  ghost function Survivors(self: string, ups: seq<Upload>): set<nat> {
    set i: nat | i < |ups| && !Beaten(self, ups, i)
  }

  ghost predicate RowOf(ups: seq<Upload>, live: set<nat>, r: Income) {
    exists i | i in live :: i < |ups| && ups[i].row == r
  }

  ghost predicate DocOf(ups: seq<Upload>, live: set<nat>, d: Id) {
    exists i | i in live :: i < |ups| && ups[i].row.doc == Some(d)
  }

  /** The rows on file are exactly those of the uploads in `live`, and the fees on file exactly their documents'. */
  ghost predicate Holds(ups: seq<Upload>, live: set<nat>, b: Book) {
    && (forall i | i in live :: i < |ups| && ups[i].row.doc.Some?)
    && (forall r :: r in b.income <==> RowOf(ups, live, r))
    && (forall d :: d in b.fees <==> DocOf(ups, live, d))
    && (forall i | i in live :: ups[i].row.doc.value in b.fees && b.fees[ups[i].row.doc.value] == ups[i].fees)
  }

  ghost predicate Settled(self: string, ups: seq<Upload>, b: Book) {
    Holds(ups, Survivors(self, ups), b)
  }

  predicate Strictly(self: string, a: Income, b: Income) { Restates(self, a, b) && !Restates(self, b, a) }

  lemma {:induction false} RestatesTransitive(self: string, a: Income, b: Income, c: Income)
    requires Restates(self, a, b) && Restates(self, b, c)
    ensures Restates(self, a, c)
  {
  }

  function Longest(ups: seq<Upload>): (n: int)
    requires RentUploads(ups)
    ensures forall i | 0 <= i < |ups| :: ups[i].row.end.value - ups[i].row.start.value <= n
  {
    if ups == [] then 0 else
    var n, r := Longest(ups[..|ups| - 1]), ups[|ups| - 1].row;
    assert forall i | 0 <= i < |ups| - 1 :: ups[..|ups| - 1][i] == ups[i];
    if r.end.value - r.start.value > n then r.end.value - r.start.value else n
  }

  /** Every statement uploaded is restated (or is itself) by one that nothing beats: its period is still counted. */
  lemma {:induction false} SomeSurvivorRestates(self: string, ups: seq<Upload>, i: nat) returns (j: nat)
    requires RentUploads(ups) && i < |ups|
    ensures j < |ups| && !Beaten(self, ups, j) && Restates(self, ups[j].row, ups[i].row)
    decreases Longest(ups) - (ups[i].row.end.value - ups[i].row.start.value), |ups| - i
  {
    if !Beaten(self, ups, i) { return i; }
    var k :| 0 <= k < |ups| && k != i && RestatedBy(self, ups, i, k);
    j := SomeSurvivorRestates(self, ups, k);
    RestatesTransitive(self, ups[j].row, ups[k].row, ups[i].row);
  }

  lemma {:induction false} BeatenOneMore(self: string, ups: seq<Upload>, u: Upload, i: nat)
    requires RentUploads(ups + [u]) && i < |ups|
    ensures Beaten(self, ups + [u], i) <==> Beaten(self, ups, i) || Restates(self, u.row, ups[i].row)
  {
    var all := ups + [u];
    assert forall j | 0 <= j < |ups| :: RestatedBy(self, all, i, j) <==> RestatedBy(self, ups, i, j);
    if Restates(self, u.row, ups[i].row) { assert RestatedBy(self, all, i, |ups|); }
    if Beaten(self, ups, i) {
      var j :| 0 <= j < |ups| && j != i && RestatedBy(self, ups, i, j);
      assert RestatedBy(self, all, i, j);
    }
  }

  lemma {:induction false} NewestBeaten(self: string, ups: seq<Upload>, u: Upload)
    requires RentUploads(ups + [u])
    ensures Beaten(self, ups + [u], |ups|) <==> exists j | 0 <= j < |ups| :: Strictly(self, ups[j].row, u.row)
  {
    var all := ups + [u];
    assert forall j | 0 <= j < |ups| :: RestatedBy(self, all, |ups|, j) <==> Strictly(self, ups[j].row, u.row);
  }

  /** On a settled book the rule sees exactly the uploads: it finds a covering row iff some upload strictly restates. */
  lemma {:induction false} CoveringIff(self: string, ups: seq<Upload>, b: Book, u: Upload)
    requires RentUploads(ups + [u]) && RentUploads(ups) && Settled(self, ups, b)
    ensures Pick(self, u.row, b.income, Covering) != [] <==> exists j | 0 <= j < |ups| :: Strictly(self, ups[j].row, u.row)
  {
    var covering := Pick(self, u.row, b.income, Covering);
    PrefixUploads(ups, u);
    if covering != [] {
      assert covering[0] in covering;
      assert RowOf(ups, Survivors(self, ups), covering[0]);
    }
    if j :| 0 <= j < |ups| && Strictly(self, ups[j].row, u.row) {
      var t := SomeSurvivorRestates(self, ups, j);
      RestatesTransitive(self, ups[t].row, ups[j].row, u.row);
      assert RowOf(ups, Survivors(self, ups), ups[t].row);
      assert ups[t].row in covering;
    }
  }

  lemma {:induction false} CoveredUploadBeatsNone(self: string, ups: seq<Upload>, u: Upload, c: nat)
    requires RentUploads(ups) && RentUploads(ups + [u])
    requires c < |ups| && !Beaten(self, ups, c) && Strictly(self, ups[c].row, u.row)
    ensures forall i | 0 <= i < |ups| :: Beaten(self, ups + [u], i) <==> Beaten(self, ups, i)
    ensures Beaten(self, ups + [u], |ups|)
  {
    NewestBeaten(self, ups, u);
    forall i | 0 <= i < |ups|
      ensures Beaten(self, ups + [u], i) <==> Beaten(self, ups, i)
    {
      BeatenOneMore(self, ups, u, i);
      if Restates(self, u.row, ups[i].row) {
        RestatesTransitive(self, ups[c].row, u.row, ups[i].row);
        if Restates(self, ups[i].row, ups[c].row) { RestatesTransitive(self, u.row, ups[i].row, ups[c].row); }
        assert i != c && RestatedBy(self, ups, i, c);
      }
    }
  }

  lemma {:induction false} PrefixUploads(ups: seq<Upload>, u: Upload)
    requires RentUploads(ups + [u])
    ensures RentUploads(ups)
    ensures var r := u.row; r.kind == Rent && Dated(r) && r.start.value <= r.end.value && r.property.Some? && r.doc.Some?
    ensures forall i | 0 <= i < |ups| :: ups[i].row.id != u.row.id && ups[i].row.doc != u.row.doc
  {
    var all := ups + [u];
    assert all[|ups|] == u;
    assert forall i | 0 <= i < |ups| :: all[i] == ups[i];
  }

  lemma {:induction false} RowOfOneMore(ups: seq<Upload>, live: set<nat>, u: Upload, r: Income)
    requires forall i | i in live :: i < |ups|
    ensures RowOf(ups + [u], live, r) <==> RowOf(ups, live, r)
    ensures RowOf(ups + [u], live + {|ups|}, r) <==> RowOf(ups, live, r) || r == u.row
  {
    var all := ups + [u];
    assert forall i: nat | i in live :: all[i] == ups[i];
    if r == u.row { assert |ups| in live + {|ups|} && all[|ups|].row == r; }
    if RowOf(ups, live, r) {
      var i :| i in live && i < |ups| && ups[i].row == r;
      assert i in live + {|ups|} && all[i].row == r;
    }
  }

  lemma {:induction false} DocOfOneMore(ups: seq<Upload>, live: set<nat>, u: Upload, d: Id)
    requires forall i | i in live :: i < |ups|
    ensures DocOf(ups + [u], live, d) <==> DocOf(ups, live, d)
    ensures DocOf(ups + [u], live + {|ups|}, d) <==> DocOf(ups, live, d) || u.row.doc == Some(d)
  {
    var all := ups + [u];
    assert forall i: nat | i in live :: all[i] == ups[i];
    if u.row.doc == Some(d) { assert |ups| in live + {|ups|} && all[|ups|].row.doc == Some(d); }
    if DocOf(ups, live, d) {
      var i :| i in live && i < |ups| && ups[i].row.doc == Some(d);
      assert i in live + {|ups|} && all[i].row.doc == Some(d);
    }
  }

  lemma {:induction false} HoldsOneMore(ups: seq<Upload>, live: set<nat>, b: Book, u: Upload)
    requires Holds(ups, live, b)
    ensures Holds(ups + [u], live, b)
  {
    forall r ensures RowOf(ups + [u], live, r) <==> RowOf(ups, live, r) { RowOfOneMore(ups, live, u, r); }
    forall d ensures DocOf(ups + [u], live, d) <==> DocOf(ups, live, d) { DocOfOneMore(ups, live, u, d); }
  }

  lemma {:induction false} CoveringStrictly(self: string, incoming: Income, rows: seq<Income>, r: Income)
    requires r in Pick(self, incoming, rows, Covering)
    ensures r in rows && Strictly(self, r, incoming)
  {
  }

  lemma {:induction false} CoveredSurvivors(self: string, ups: seq<Upload>, b: Book, u: Upload)
    requires RentUploads(ups + [u]) && RentUploads(ups) && Settled(self, ups, b)
    requires Pick(self, u.row, b.income, Covering) != []
    ensures Survivors(self, ups + [u]) == Survivors(self, ups)
  {
    var r := Pick(self, u.row, b.income, Covering)[0];
    CoveringStrictly(self, u.row, b.income, r);
    assert RowOf(ups, Survivors(self, ups), r);
    var c :| c in Survivors(self, ups) && c < |ups| && ups[c].row == r;
    SurvivorsKept(self, ups, u, c);
  }

  lemma {:induction false} SurvivorsKept(self: string, ups: seq<Upload>, u: Upload, c: nat)
    requires RentUploads(ups + [u]) && RentUploads(ups)
    requires c < |ups| && !Beaten(self, ups, c) && Strictly(self, ups[c].row, u.row)
    ensures Survivors(self, ups + [u]) == Survivors(self, ups)
  {
    CoveredUploadBeatsNone(self, ups, u, c);
    forall i: nat ensures i in Survivors(self, ups + [u]) <==> i in Survivors(self, ups) {
    }
  }

  lemma {:induction false} SettleCovered(self: string, ups: seq<Upload>, b: Book, u: Upload)
    requires RentUploads(ups + [u]) && RentUploads(ups) && Settled(self, ups, b)
    requires Pick(self, u.row, b.income, Covering) != []
    ensures Settled(self, ups + [u], Uploaded(self, b, u))
  {
    PrefixUploads(ups, u);
    CoveredSurvivors(self, ups, b, u);
    HoldsOneMore(ups, Survivors(self, ups), b, u);
    var b' := Uploaded(self, b, u);
    assert b'.income == b.income && b'.fees == b.fees;
  }

  /** The survivors the upload leaves standing. */
  ghost function Standing(self: string, ups: seq<Upload>, live: set<nat>, u: Upload): set<nat> {
    set i | i in live && i < |ups| && !Restates(self, u.row, ups[i].row)
  }

  lemma {:induction false} PlainSurvivors(self: string, ups: seq<Upload>, b: Book, u: Upload)
    requires RentUploads(ups + [u]) && Settled(self, ups, b)
    requires Pick(self, u.row, b.income, Covering) == []
    ensures Survivors(self, ups + [u]) == Standing(self, ups, Survivors(self, ups), u) + {|ups|}
  {
    PrefixUploads(ups, u);
    CoveringIff(self, ups, b, u);
    NewestBeaten(self, ups, u);
    forall i: nat | i < |ups|
      ensures Beaten(self, ups + [u], i) <==> Beaten(self, ups, i) || Restates(self, u.row, ups[i].row)
    {
      BeatenOneMore(self, ups, u, i);
    }
  }

  /** No two rows on file share an id, and none has the new row's. */
  predicate FreshIds(rows: seq<Income>, id: Id) {
    && (forall a, b | a in rows && b in rows && a.id == b.id :: a == b)
    && forall a | a in rows :: a.id != id
  }

  lemma {:induction false} HeldIdsFresh(ups: seq<Upload>, live: set<nat>, b: Book, u: Upload)
    requires RentUploads(ups + [u]) && Holds(ups, live, b)
    ensures FreshIds(b.income, u.row.id)
  {
    PrefixUploads(ups, u);
    forall x, y | x in b.income && y in b.income && x.id == y.id ensures x == y {
      assert RowOf(ups, live, x) && RowOf(ups, live, y);
      var i :| i in live && i < |ups| && ups[i].row == x;
      var j :| j in live && j < |ups| && ups[j].row == y;
      assert (ups + [u])[i] == ups[i] && (ups + [u])[j] == ups[j];
    }
    forall x | x in b.income ensures x.id != u.row.id {
      assert RowOf(ups, live, x);
    }
  }

  /** Of the rows on file, those the upload does not restate stay. */
  lemma {:induction false} PlainStays(self: string, ups: seq<Upload>, live: set<nat>, b: Book, u: Upload, r: Income)
    requires Holds(ups, live, b)
    ensures r in b.income && !Restates(self, u.row, r) <==> RowOf(ups, Standing(self, ups, live, u), r)
  {
    var stand := Standing(self, ups, live, u);
    if r in b.income && !Restates(self, u.row, r) {
      assert RowOf(ups, live, r);
      var i :| i in live && i < |ups| && ups[i].row == r;
      assert i in stand;
    }
    if RowOf(ups, stand, r) {
      var i :| i in stand && i < |ups| && ups[i].row == r;
      assert i in live && RowOf(ups, live, r);
    }
  }

  lemma {:induction false} PlainRows(self: string, ups: seq<Upload>, live: set<nat>, b: Book, u: Upload, r: Income)
    requires Holds(ups, live, b) && FreshIds(b.income, u.row.id)
    requires u.row.kind == Rent && Dated(u.row) && u.row.start.value <= u.row.end.value
    requires forall x | x in b.income :: RentReplaces(u.row, x) && IsPeer(self, u.row, x) <==> Restates(self, u.row, x)
    requires Pick(self, u.row, b.income, Covering) == []
    ensures r in Uploaded(self, b, u).income <==> RowOf(ups, Standing(self, ups, live, u), r) || r == u.row
  {
    var gone := Pick(self, u.row, b.income, Replaced);
    assert Uploaded(self, b, u).income == Without(b.income + [u.row], gone);
    PlainStays(self, ups, live, b, u, r);
    assert r in b.income ==> (r in gone <==> Restates(self, u.row, r));
  }

  lemma {:induction false} PeerRestates(self: string, ups: seq<Upload>, live: set<nat>, b: Book, u: Upload)
    requires RentUploads(ups + [u]) && Holds(ups, live, b)
    ensures forall x | x in b.income :: RentReplaces(u.row, x) && IsPeer(self, u.row, x) <==> Restates(self, u.row, x)
  {
    PrefixUploads(ups, u);
    forall x | x in b.income
      ensures RentReplaces(u.row, x) && IsPeer(self, u.row, x) <==> Restates(self, u.row, x)
    {
      assert RowOf(ups, live, x);
      var i :| i in live && i < |ups| && ups[i].row == x;
      assert (ups + [u])[i] == ups[i];
    }
  }

  lemma {:induction false} PlainGoneDocs(self: string, ups: seq<Upload>, live: set<nat>, b: Book, u: Upload, d: Id)
    requires RentUploads(ups + [u]) && Holds(ups, live, b)
    ensures d in DocsOf(Pick(self, u.row, b.income, Replaced)) <==>
      exists i | i in live :: i < |ups| && ups[i].row.doc == Some(d) && Restates(self, u.row, ups[i].row)
  {
    PrefixUploads(ups, u);
    var gone := Pick(self, u.row, b.income, Replaced);
    if d in DocsOf(gone) {
      var g :| g in gone && g.kind == Rent && g.doc == Some(d);
      assert RowOf(ups, live, g);
    }
    if i :| i in live && i < |ups| && ups[i].row.doc == Some(d) && Restates(self, u.row, ups[i].row) {
      assert RowOf(ups, live, ups[i].row);
      assert ups[i].row in gone;
    }
  }

  lemma {:induction false} SameDocSameUpload(ups: seq<Upload>, i: nat, j: nat)
    requires RentUploads(ups) && i < |ups| && j < |ups| && ups[i].row.doc == ups[j].row.doc
    ensures i == j
  {
  }

  /** Of the documents on file, those whose row the upload does not restate keep their fees. */
  lemma {:induction false} PlainDocStays(self: string, ups: seq<Upload>, live: set<nat>, b: Book, u: Upload, d: Id)
    requires RentUploads(ups + [u]) && RentUploads(ups) && Holds(ups, live, b)
    ensures d in b.fees && d !in DocsOf(Pick(self, u.row, b.income, Replaced)) <==> DocOf(ups, Standing(self, ups, live, u), d)
  {
    PlainGoneDocs(self, ups, live, b, u, d);
    var stand, gone := Standing(self, ups, live, u), DocsOf(Pick(self, u.row, b.income, Replaced));
    if d in b.fees && d !in gone {
      assert DocOf(ups, live, d);
      var i :| i in live && i < |ups| && ups[i].row.doc == Some(d);
      assert i in stand;
    }
    if DocOf(ups, stand, d) {
      var i :| i in stand && i < |ups| && ups[i].row.doc == Some(d);
      assert DocOf(ups, live, d);
      if j :| j in live && j < |ups| && ups[j].row.doc == Some(d) && Restates(self, u.row, ups[j].row) {
        SameDocSameUpload(ups, i, j);
      }
    }
  }

  lemma {:induction false} NewDocFree(self: string, ups: seq<Upload>, live: set<nat>, b: Book, u: Upload)
    requires RentUploads(ups + [u]) && Holds(ups, live, b)
    ensures u.row.doc.Some? && u.row.doc.value !in DocsOf(Pick(self, u.row, b.income, Replaced))
  {
    PrefixUploads(ups, u);
    PlainGoneDocs(self, ups, live, b, u, u.row.doc.value);
  }

  lemma {:induction false} PlainDocs(self: string, ups: seq<Upload>, live: set<nat>, b: Book, u: Upload, d: Id)
    requires RentUploads(ups + [u]) && RentUploads(ups) && Holds(ups, live, b)
    requires Pick(self, u.row, b.income, Covering) == []
    ensures u.row.doc.Some?
    ensures u.row.doc == Some(d) ==> d !in DocsOf(Pick(self, u.row, b.income, Replaced))
    ensures d in Uploaded(self, b, u).fees <==> DocOf(ups, Standing(self, ups, live, u), d) || u.row.doc == Some(d)
  {
    NewDocFree(self, ups, live, b, u);
    PlainDocStays(self, ups, live, b, u, d);
    PrefixUploads(ups, u);
    assert Uploaded(self, b, u).fees == b.fees[u.row.doc.value := u.fees] - DocsOf(Pick(self, u.row, b.income, Replaced));
  }

  lemma {:induction false} PlainFees(self: string, ups: seq<Upload>, live: set<nat>, b: Book, u: Upload, i: nat)
    requires RentUploads(ups + [u]) && RentUploads(ups) && Holds(ups, live, b)
    requires Pick(self, u.row, b.income, Covering) == []
    requires i in Standing(self, ups, live, u) + {|ups|}
    ensures var all, fees := ups + [u], Uploaded(self, b, u).fees;
      i < |all| && all[i].row.doc.Some? && all[i].row.doc.value in fees && fees[all[i].row.doc.value] == all[i].fees
  {
    PrefixUploads(ups, u);
    var gone, stand := Pick(self, u.row, b.income, Replaced), Standing(self, ups, live, u);
    PlainDocs(self, ups, live, b, u, u.row.doc.value);
    if i != |ups| {
      assert (ups + [u])[i] == ups[i] && i in live;
      assert DocOf(ups, stand, ups[i].row.doc.value);
      PlainDocs(self, ups, live, b, u, ups[i].row.doc.value);
    }
  }

  /** Without a covering row the upload is filed, and the rows it retires are exactly the survivors it restates. */
  lemma {:induction false} SettlePlain(self: string, ups: seq<Upload>, b: Book, u: Upload)
    requires RentUploads(ups + [u]) && RentUploads(ups) && Settled(self, ups, b)
    requires Pick(self, u.row, b.income, Covering) == []
    ensures Settled(self, ups + [u], Uploaded(self, b, u))
  {
    var all, live, k := ups + [u], Survivors(self, ups), |ups|;
    var stand, b' := Standing(self, ups, live, u), Uploaded(self, b, u);
    assert Survivors(self, all) == stand + {k} by { PlainSurvivors(self, ups, b, u); }
    assert forall r :: r in b'.income <==> RowOf(all, stand + {k}, r) by {
      PrefixUploads(ups, u);
      HeldIdsFresh(ups, live, b, u);
      PeerRestates(self, ups, live, b, u);
      forall r ensures r in b'.income <==> RowOf(all, stand + {k}, r) {
        PlainRows(self, ups, live, b, u, r);
        RowOfOneMore(ups, stand, u, r);
      }
    }
    assert forall d :: d in b'.fees <==> DocOf(all, stand + {k}, d) by {
      forall d ensures d in b'.fees <==> DocOf(all, stand + {k}, d) {
        PlainDocs(self, ups, live, b, u, d);
        DocOfOneMore(ups, stand, u, d);
      }
    }
    forall i | i in stand + {k}
      ensures i < |all| && all[i].row.doc.Some?
      ensures all[i].row.doc.value in b'.fees && b'.fees[all[i].row.doc.value] == all[i].fees
    {
      PlainFees(self, ups, live, b, u, i);
    }
  }

  lemma {:induction false} UploadsSettle(self: string, ups: seq<Upload>)
    requires RentUploads(ups)
    ensures Settled(self, ups, UploadAll(self, EMPTY_BOOK, ups))
  {
    if ups != [] {
      var init, u := ups[..|ups| - 1], ups[|ups| - 1];
      assert init + [u] == ups;
      PrefixUploads(init, u);
      UploadsSettle(self, init);
      var b := UploadAll(self, EMPTY_BOOK, init);
      if Pick(self, u.row, b.income, Covering) != [] { SettleCovered(self, init, b, u); } else { SettlePlain(self, init, b, u); }
    }
  }

  // ── Upload order ────────────────────────────────────────────────────────────────────────────────────

  ghost predicate SameUploads(xs: seq<Upload>, ys: seq<Upload>) { forall u :: u in xs <==> u in ys }

  /** The same rows count and the same fees count. */
  ghost predicate SameBooks(a: Book, b: Book) {
    (forall r :: r in a.income <==> r in b.income) && a.fees == b.fees
  }

  predicate Outdone(self: string, ups: seq<Upload>, u: Upload) {
    exists v | v in ups :: Strictly(self, v.row, u.row)
  }

  /** No two statements over the very same period are both free of a longer one. */
  ghost predicate NoTies(self: string, ups: seq<Upload>) {
    forall u, v | u in ups && v in ups && u != v && Restates(self, u.row, v.row) && Restates(self, v.row, u.row) :: Outdone(self, ups, u)
  }

  lemma {:induction false} BeatenIsOutdone(self: string, ups: seq<Upload>, i: nat)
    requires RentUploads(ups) && i < |ups| && NoTies(self, ups)
    ensures Beaten(self, ups, i) <==> Outdone(self, ups, ups[i])
  {
    if Outdone(self, ups, ups[i]) {
      var v :| v in ups && Strictly(self, v.row, ups[i].row);
      var j :| 0 <= j < |ups| && ups[j] == v;
      assert j != i && RestatedBy(self, ups, i, j);
    }
    if Beaten(self, ups, i) {
      var j :| 0 <= j < |ups| && j != i && RestatedBy(self, ups, i, j);
      assert ups[j] in ups;
    }
  }

  lemma {:induction false} SurvivorRow(self: string, ups: seq<Upload>, u: Upload)
    requires RentUploads(ups) && NoTies(self, ups) && u in ups
    ensures u.row in UploadAll(self, EMPTY_BOOK, ups).income <==> !Outdone(self, ups, u)
  {
    UploadsSettle(self, ups);
    var i :| 0 <= i < |ups| && ups[i] == u;
    BeatenIsOutdone(self, ups, i);
    if u.row in UploadAll(self, EMPTY_BOOK, ups).income {
      assert RowOf(ups, Survivors(self, ups), u.row);
      var j :| j in Survivors(self, ups) && j < |ups| && ups[j].row == u.row;
    } else {
      assert !RowOf(ups, Survivors(self, ups), u.row);
    }
  }

  lemma {:induction false} TieFreeFees(self: string, xs: seq<Upload>, ys: seq<Upload>)
    requires RentUploads(xs) && RentUploads(ys) && SameUploads(xs, ys) && NoTies(self, xs) && NoTies(self, ys)
    ensures forall d | d in UploadAll(self, EMPTY_BOOK, xs).fees ::
      d in UploadAll(self, EMPTY_BOOK, ys).fees && UploadAll(self, EMPTY_BOOK, xs).fees[d] == UploadAll(self, EMPTY_BOOK, ys).fees[d]
  {
    UploadsSettle(self, xs);
    UploadsSettle(self, ys);
    forall d | d in UploadAll(self, EMPTY_BOOK, xs).fees
      ensures d in UploadAll(self, EMPTY_BOOK, ys).fees && UploadAll(self, EMPTY_BOOK, xs).fees[d] == UploadAll(self, EMPTY_BOOK, ys).fees[d]
    {
      assert DocOf(xs, Survivors(self, xs), d);
      var i :| i in Survivors(self, xs) && i < |xs| && xs[i].row.doc == Some(d);
      BeatenIsOutdone(self, xs, i);
      assert xs[i] in ys;
      var j :| 0 <= j < |ys| && ys[j] == xs[i];
      BeatenIsOutdone(self, ys, j);
      assert j in Survivors(self, ys);
    }
  }

  /**
   * Confluence: with no tie, every order of uploading the same statements (monthlies, quarterlies, annual summaries, of
   * any number of properties, years and taxpayers) ends with the same rows and the same fees counted.
   */
  lemma {:induction false} OrderDoesNotMatter(self: string, xs: seq<Upload>, ys: seq<Upload>)
    requires RentUploads(xs) && RentUploads(ys) && SameUploads(xs, ys) && NoTies(self, xs)
    ensures SameBooks(UploadAll(self, EMPTY_BOOK, xs), UploadAll(self, EMPTY_BOOK, ys))
  {
    assert NoTies(self, ys) by {
      forall u, v | u in ys && v in ys && u != v && Restates(self, u.row, v.row) && Restates(self, v.row, u.row)
        ensures Outdone(self, ys, u)
      {
        assert Outdone(self, xs, u);
      }
    }
    UploadsSettle(self, xs);
    UploadsSettle(self, ys);
    var a, b := UploadAll(self, EMPTY_BOOK, xs), UploadAll(self, EMPTY_BOOK, ys);
    TieFreeFees(self, xs, ys);
    TieFreeFees(self, ys, xs);
    assert a.fees.Keys == b.fees.Keys && a.fees == b.fees;
    forall r ensures r in a.income <==> r in b.income {
      SameRow(self, xs, ys, r);
      SameRow(self, ys, xs, r);
    }
  }

  lemma {:induction false} SameRow(self: string, xs: seq<Upload>, ys: seq<Upload>, r: Income)
    requires RentUploads(xs) && RentUploads(ys) && SameUploads(xs, ys) && NoTies(self, xs) && NoTies(self, ys)
    ensures r in UploadAll(self, EMPTY_BOOK, xs).income ==> r in UploadAll(self, EMPTY_BOOK, ys).income
  {
    UploadsSettle(self, xs);
    if r in UploadAll(self, EMPTY_BOOK, xs).income {
      assert RowOf(xs, Survivors(self, xs), r);
      var i :| i in Survivors(self, xs) && i < |xs| && xs[i].row == r;
      SurvivorRow(self, xs, xs[i]);
      SurvivorRow(self, ys, xs[i]);
      assert Outdone(self, xs, xs[i]) <==> Outdone(self, ys, xs[i]);
    }
  }

  function Swapped(xs: seq<Upload>, i: nat, j: nat): seq<Upload>
    requires i < j < |xs|
  {
    xs[i := xs[j]][j := xs[i]]
  }

  lemma {:induction false} SwapKeepsUploads(xs: seq<Upload>, i: nat, j: nat)
    requires RentUploads(xs) && i < j < |xs|
    ensures SameUploads(xs, Swapped(xs, i, j)) && RentUploads(Swapped(xs, i, j))
  {
    var ys := Swapped(xs, i, j);
    forall u ensures u in xs <==> u in ys {
      if u in xs { var k :| 0 <= k < |xs| && xs[k] == u; assert ys[if k == i then j else if k == j then i else k] == u; }
    }
    forall p, q | 0 <= p < |ys| && 0 <= q < |ys| && p != q
      ensures ys[p].row.id != ys[q].row.id && ys[p].row.doc != ys[q].row.doc
    {
      var p' := if p == i then j else if p == j then i else p;
      var q' := if q == i then j else if q == j then i else q;
      assert ys[p] == xs[p'] && ys[q] == xs[q'];
    }
  }

  lemma {:induction false} RowNeedsSurvivor(self: string, ups: seq<Upload>, i: nat)
    requires RentUploads(ups) && i < |ups|
    ensures ups[i].row in UploadAll(self, EMPTY_BOOK, ups).income <==> !Beaten(self, ups, i)
  {
    UploadsSettle(self, ups);
    var live := Survivors(self, ups);
    if !Beaten(self, ups, i) { assert i in live && RowOf(ups, live, ups[i].row); }
    if RowOf(ups, live, ups[i].row) {
      var j :| j in live && j < |ups| && ups[j].row == ups[i].row;
      assert ups[j].row.id == ups[i].row.id;
    }
  }

  /** With a tie the last upload wins, so exchanging the two uploads changes which row counts. */
  lemma {:induction false} TieMakesOrderMatter(self: string, xs: seq<Upload>, i: nat, j: nat)
    requires RentUploads(xs) && i < j < |xs| && !Beaten(self, xs, j)
    requires Restates(self, xs[i].row, xs[j].row) && Restates(self, xs[j].row, xs[i].row)
    ensures SameUploads(xs, Swapped(xs, i, j)) && RentUploads(Swapped(xs, i, j))
    ensures xs[j].row in UploadAll(self, EMPTY_BOOK, xs).income
    ensures xs[j].row !in UploadAll(self, EMPTY_BOOK, Swapped(xs, i, j)).income
  {
    SwapKeepsUploads(xs, i, j);
    var ys := Swapped(xs, i, j);
    RowNeedsSurvivor(self, xs, j);
    RowNeedsSurvivor(self, ys, i);
    assert ys[i] == xs[j] && ys[j] == xs[i];
    assert RestatedBy(self, ys, i, j);
  }

  /** A tie leaves two statements, the later of which nothing else restates. */
  lemma {:induction false} TieStands(self: string, xs: seq<Upload>) returns (i: nat, j: nat)
    requires RentUploads(xs) && !NoTies(self, xs)
    ensures i < j < |xs| && !Beaten(self, xs, j)
    ensures Restates(self, xs[i].row, xs[j].row) && Restates(self, xs[j].row, xs[i].row)
  {
    var u, v :| u in xs && v in xs && u != v && Restates(self, u.row, v.row) && Restates(self, v.row, u.row) && !Outdone(self, xs, u);
    var k: nat :| k < |xs| && xs[k] == u;
    var l: nat :| l < |xs| && xs[l] == v;
    j := SomeSurvivorRestates(self, xs, k);
    assert !Strictly(self, xs[j].row, u.row);
    i := if j == k then l else k;
    assert i > j ==> RestatedBy(self, xs, j, i);
  }

  /** Exactly when the upload order cannot be seen: the same books result from every order if and only if no two statements
      tie for the longest period. */
  lemma {:induction false} OrderIrrelevantIff(self: string, xs: seq<Upload>)
    requires RentUploads(xs)
    ensures NoTies(self, xs) <==>
      forall ys | RentUploads(ys) && SameUploads(xs, ys) :: SameBooks(UploadAll(self, EMPTY_BOOK, xs), UploadAll(self, EMPTY_BOOK, ys))
  {
    if NoTies(self, xs) {
      forall ys | RentUploads(ys) && SameUploads(xs, ys)
        ensures SameBooks(UploadAll(self, EMPTY_BOOK, xs), UploadAll(self, EMPTY_BOOK, ys))
      {
        OrderDoesNotMatter(self, xs, ys);
      }
    } else {
      var i, j := TieStands(self, xs);
      TieMakesOrderMatter(self, xs, i, j);
      assert !SameBooks(UploadAll(self, EMPTY_BOOK, xs), UploadAll(self, EMPTY_BOOK, Swapped(xs, i, j)));
    }
  }

  /** Every period uploaded is still counted by a row on file, and no two rows on file restate one another. */
  lemma {:induction false} EachPeriodCountedOnce(self: string, ups: seq<Upload>)
    requires RentUploads(ups)
    ensures var rows := UploadAll(self, EMPTY_BOOK, ups).income;
      && (forall i | 0 <= i < |ups| :: exists r | r in rows :: Restates(self, r, ups[i].row))
      && forall a, b | a in rows && b in rows && a != b :: !Restates(self, a, b)
  {
    var rows := UploadAll(self, EMPTY_BOOK, ups).income;
    forall i | 0 <= i < |ups| ensures exists r | r in rows :: Restates(self, r, ups[i].row) {
      var j := SomeSurvivorRestates(self, ups, i);
      RowNeedsSurvivor(self, ups, j);
    }
    forall a, b | a in rows && b in rows && a != b ensures !Restates(self, a, b) {
      NoTwoRestate(self, ups, a, b);
    }
  }

  lemma {:induction false} NoTwoRestate(self: string, ups: seq<Upload>, a: Income, b: Income)
    requires RentUploads(ups) && a != b
    requires a in UploadAll(self, EMPTY_BOOK, ups).income && b in UploadAll(self, EMPTY_BOOK, ups).income
    ensures !Restates(self, a, b)
  {
    UploadsSettle(self, ups);
    var live := Survivors(self, ups);
    assert RowOf(ups, live, a) && RowOf(ups, live, b);
    var i :| i in live && i < |ups| && ups[i].row == a;
    var j :| j in live && j < |ups| && ups[j].row == b;
    assert !RestatedBy(self, ups, j, i) && !RestatedBy(self, ups, i, j);
  }

  // ── Bank credits ────────────────────────────────────────────────────────────────────────────────────

  /** Every matched bank credit points at a row on file. */
  ghost predicate CreditsLive(b: Book) {
    forall c | c in b.credits && b.credits[c].Some? :: exists r | r in b.income :: r.id == b.credits[c].value
  }

  /**
   * An upload of any kind never leaves a bank credit pointing at a retired row, and a credit moves only from a row the
   * upload replaced to the upload's own row.
   */
  lemma {:induction false} UploadKeepsCredits(self: string, b: Book, u: Upload)
    requires CreditsLive(b) && FreshIds(b.income, u.row.id)
    ensures var b' := Uploaded(self, b, u);
      && CreditsLive(b') && b'.credits.Keys == b.credits.Keys
      && forall c | c in b.credits && b'.credits[c] != b.credits[c] ::
           b'.credits[c] == Some(u.row.id) && exists g | g in Decided(self, u.row, b.income).replace :: b.credits[c] == Some(g.id)
  {
    var b', gone := Uploaded(self, b, u), Decided(self, u.row, b.income).replace;
    if Decided(self, u.row, b.income).coveredBy == None {
      forall g | g in gone ensures g in b.income {
      }
      assert u.row in b.income + [u.row] && u.row in b'.income;
      forall c | c in b'.credits && b'.credits[c].Some? ensures exists r | r in b'.income :: r.id == b'.credits[c].value {
        if b'.credits[c] == b.credits[c] && b.credits[c] != Some(u.row.id) {
          var r :| r in b.income && r.id == b.credits[c].value;
          assert r in b.income + [u.row] && r in b'.income;
        }
      }
    }
  }

  /** After an upload: one that is covered writes nothing, and its document is marked with the covering row's; any other is on
      file with its fees, the rows it replaces are not, their credits point at it, and the documents of replaced rent rows have no
      fees and are marked with its own. Everything else is as it was. */
  lemma {:induction false} UploadMeans(self: string, b: Book, u: Upload)
    requires FreshIds(b.income, u.row.id) && u.row.doc.Some?
    requires forall x, y | x in b.income && y in b.income && x.id == y.id :: x == y
    ensures var (d, c) := (Decided(self, u.row, b.income), Uploaded(self, b, u)); var doc := u.row.doc.value;
      && (d.coveredBy.Some? ==> c == b.(supersededBy := b.supersededBy[doc := d.coveredBy.value.doc]))
      && (d.coveredBy == None ==>
            && (forall r :: r in c.income <==> r == u.row || (r in b.income && r !in d.replace))
            && c.credits.Keys == b.credits.Keys
            && (forall k | k in b.credits :: c.credits[k] == if exists r | r in d.replace :: b.credits[k] == Some(r.id) then Some(u.row.id) else b.credits[k])
            && (forall k :: k in c.fees <==> (k == doc || k in b.fees) && !RentDoc(d.replace, k))
            && (forall k | k in c.fees :: c.fees[k] == if k == doc then u.fees else b.fees[k])
            && (forall k :: k in c.supersededBy <==> k in b.supersededBy || RentDoc(d.replace, k))
            && (forall k | k in c.supersededBy :: c.supersededBy[k] == if RentDoc(d.replace, k) then Some(doc) else b.supersededBy[k]))
  {
    if Decided(self, u.row, b.income).coveredBy == None {
      var gone := Decided(self, u.row, b.income).replace;
      WrittenRows(b.income, gone, u.row);
      forall k ensures k in DocsOf(gone) <==> RentDoc(gone, k) {}
    }
  }

  lemma {:induction false} WrittenRows(rows: seq<Income>, gone: seq<Income>, row: Income)
    requires FreshIds(rows, row.id) && (forall g | g in gone :: g in rows) && forall x, y | x in rows && y in rows && x.id == y.id :: x == y
    ensures forall r :: r in Without(rows + [row], gone) <==> r == row || (r in rows && r !in gone)
  {
    forall r ensures r in Without(rows + [row], gone) <==> r == row || (r in rows && r !in gone) {
      if r in rows && r !in gone { assert forall g | g in gone :: g.id != r.id; }
    }
  }

  /** A rent row among them came from the document. */
  predicate RentDoc(rows: seq<Income>, doc: Id) { exists r | r in rows :: r.kind == Rent && r.doc == Some(doc) }

  // ── Salary ──────────────────────────────────────────────────────────────────────────────────────────

  /** An income statement: one document, with a salary row for each employer block in it. */
  datatype Statement = Statement(doc: Id, rows: seq<Income>)

  predicate HasRow(sts: seq<Statement>, r: Income) { exists p | 0 <= p < |sts| :: r in sts[p].rows }

  /** Salary rows as the agent files them: each carries its document, and ids are a primary key. */
  ghost predicate Statements(sts: seq<Statement>) {
    && (forall p, r | 0 <= p < |sts| && r in sts[p].rows :: r.kind == Salary && r.doc == Some(sts[p].doc))
    && (forall p, q | 0 <= p < |sts| && 0 <= q < |sts| && sts[p].doc == sts[q].doc :: p == q)
    && forall r, t | HasRow(sts, r) && HasRow(sts, t) && r.id == t.id :: r == t
  }

  /** Reading a statement files its rows one by one. */
  function Filed(self: string, b: Book, rows: seq<Income>): Book {
    if rows == [] then b else Uploaded(self, Filed(self, b, rows[..|rows| - 1]), Upload(rows[|rows| - 1], []))
  }

  function FiledAll(self: string, sts: seq<Statement>): Book {
    if sts == [] then EMPTY_BOOK else Filed(self, FiledAll(self, sts[..|sts| - 1]), sts[|sts| - 1].rows)
  }

  predicate SameSalary(self: string, a: Income, b: Income) {
    SameTaxpayer(self, a, b) && a.fy == b.fy && SameEmployer(a, b)
  }

  predicate Matched(self: string, r: Income, rows: seq<Income>) { exists t | t in rows :: SameSalary(self, r, t) }

  /** A later statement has a row for the same employer, taxpayer and FY. */
  predicate Reissued(self: string, sts: seq<Statement>, p: nat, r: Income)
    requires p < |sts|
  {
    exists q | p < q < |sts| :: Matched(self, r, sts[q].rows)
  }

  ghost predicate Stands(self: string, sts: seq<Statement>, p: nat, r: Income) {
    p < |sts| && r in sts[p].rows && !Reissued(self, sts, p, r)
  }

  ghost predicate OnFile(self: string, sts: seq<Statement>, r: Income) { exists p :: Stands(self, sts, p, r) }

  /** Filing one statement on a book of other documents' salary rows: its own rows all stay, two for one employer included,
      and the earlier rows they match go. */
  lemma {:induction false} FiledRows(self: string, b: Book, rows: seq<Income>, doc: Id)
    requires forall r | r in rows :: r.kind == Salary && r.doc == Some(doc)
    requires forall x | x in b.income :: x.kind == Salary && x.doc != Some(doc)
    requires forall x, y | (x in rows || x in b.income) && (y in rows || y in b.income) && x.id == y.id :: x == y
    ensures forall x :: x in Filed(self, b, rows).income <==> x in rows || (x in b.income && !Matched(self, x, rows))
  {
    if rows != [] {
      var init, u := rows[..|rows| - 1], rows[|rows| - 1];
      assert u in rows && forall x :: x in rows <==> x in init || x == u;
      FiledRows(self, b, init, doc);
      var c := Filed(self, b, init);
      FileOne(self, c, u);
      forall x ensures x in Filed(self, b, rows).income <==> x in rows || (x in b.income && !Matched(self, x, rows)) {
        MatchedSnoc(self, x, init, u);
      }
    }
  }

  lemma {:induction false} MatchedSnoc(self: string, x: Income, init: seq<Income>, u: Income)
    ensures Matched(self, x, init + [u]) <==> Matched(self, x, init) || SameSalary(self, x, u)
  {
    assert forall t :: t in init + [u] <==> t in init || t == u;
  }

  lemma {:induction false} FileOne(self: string, c: Book, u: Income)
    requires u.kind == Salary && u.doc.Some? && (forall x | x in c.income :: x.kind == Salary)
    requires forall x, y | (x in c.income || x == u) && (y in c.income || y == u) && x.id == y.id :: x == y
    ensures forall x :: (x in Uploaded(self, c, Upload(u, [])).income
                         <==> x == u || (x in c.income && !(SameSalary(self, x, u) && x.doc != u.doc)))
  {
    var gone := Decided(self, u, c.income).replace;
    assert Uploaded(self, c, Upload(u, [])).income == Without(c.income + [u], gone);
    assert forall x | x in c.income :: x in gone <==> SameSalary(self, x, u) && x.doc != u.doc;
    assert forall x :: x in c.income + [u] <==> x in c.income || x == u;
    forall x | x in c.income + [u] ensures x in gone <==> exists g | g in gone :: g.id == x.id {
      if g :| g in gone && g.id == x.id { assert g in c.income; }
    }
  }

  lemma {:induction false} PrefixStatements(sts: seq<Statement>)
    requires Statements(sts) && sts != []
    ensures Statements(sts[..|sts| - 1])
  {
    var init := sts[..|sts| - 1];
    forall r | HasRow(init, r) ensures HasRow(sts, r) {
      var p :| 0 <= p < |init| && r in init[p].rows;
      assert sts[p] == init[p];
    }
  }

  /** Salary rows on file after any statements: those no later statement has a row for the same employer, taxpayer and year. */
  lemma {:induction false} SalaryLastWins(self: string, sts: seq<Statement>)
    requires Statements(sts)
    ensures SalaryHolds(self, sts, FiledAll(self, sts))
  {
    if sts != [] {
      PrefixStatements(sts);
      SalaryLastWins(self, sts[..|sts| - 1]);
      assert sts == sts[..|sts| - 1] + [sts[|sts| - 1]];
      SalaryStep(self, sts[..|sts| - 1], sts[|sts| - 1], FiledAll(self, sts[..|sts| - 1]));
    } else {
      forall r ensures !OnFile(self, sts, r) {}
    }
  }

  ghost predicate SalaryHolds(self: string, sts: seq<Statement>, b: Book) {
    forall r :: r in b.income <==> OnFile(self, sts, r)
  }

  lemma {:induction false} SalaryStep(self: string, init: seq<Statement>, st: Statement, b: Book)
    requires Statements(init + [st]) && SalaryHolds(self, init, b)
    ensures SalaryHolds(self, init + [st], Filed(self, b, st.rows))
  {
    BookRows(self, init, st, b);
    FiledRows(self, b, st.rows, st.doc);
    forall r ensures r in Filed(self, b, st.rows).income <==> OnFile(self, init + [st], r) { OnFileSnoc(self, init, st, r); }
  }

  /** What is on file before the last statement is read. */
  lemma {:induction false} BookRows(self: string, init: seq<Statement>, st: Statement, b: Book)
    requires Statements(init + [st]) && SalaryHolds(self, init, b)
    ensures forall x | x in b.income :: x.kind == Salary && x.doc != Some(st.doc)
    ensures forall r | r in st.rows :: r.kind == Salary && r.doc == Some(st.doc)
    ensures forall x, y | (x in st.rows || x in b.income) && (y in st.rows || y in b.income) && x.id == y.id :: x == y
  {
    var sts := init + [st];
    assert sts[|init|] == st;
    forall x | x in b.income ensures HasRow(sts, x) && x.kind == Salary && x.doc != Some(st.doc) {
      assert OnFile(self, init, x);
      var p: nat :| Stands(self, init, p, x);
      assert sts[p] == init[p] && x in sts[p].rows;
    }
    forall x | x in st.rows ensures HasRow(sts, x) {}
  }

  lemma {:induction false} OnFileSnoc(self: string, init: seq<Statement>, st: Statement, r: Income)
    ensures OnFile(self, init + [st], r) <==> r in st.rows || (OnFile(self, init, r) && !Matched(self, r, st.rows))
  {
    var sts, n := init + [st], |init|;
    assert sts[n] == st;
    if r in st.rows { assert Stands(self, sts, n, r); }
    if OnFile(self, init, r) && !Matched(self, r, st.rows) {
      var p: nat :| Stands(self, init, p, r);
      StandsSnoc(self, init, st, p, r);
    }
    if OnFile(self, sts, r) && r !in st.rows {
      var p: nat :| Stands(self, sts, p, r);
      StandsSnoc(self, init, st, p, r);
    }
  }

  lemma {:induction false} StandsSnoc(self: string, init: seq<Statement>, st: Statement, p: nat, r: Income)
    requires p < |init|
    ensures Stands(self, init + [st], p, r) <==> Stands(self, init, p, r) && !Matched(self, r, st.rows)
  {
    var sts := init + [st];
    assert sts[|init|] == st && forall q | 0 <= q < |init| :: sts[q] == init[q];
  }

  /** Two employers of one name told apart by their ABNs (a and c), and a row under that name with no ABN (b). */
  predicate AbnBridge(self: string, a: Income, b: Income, c: Income) {
    && SameTaxpayer(self, a, b) && SameTaxpayer(self, b, c) && a.fy == b.fy == c.fy
    && a.employer.Some? && a.employer == b.employer == c.employer
    && a.abn.Some? && b.abn == None && c.abn.Some? && a.abn != c.abn
  }

  /** One ABN under two names (a and b), and a row under the second name with no ABN (c). */
  predicate NameBridge(self: string, a: Income, b: Income, c: Income) {
    && SameTaxpayer(self, a, b) && SameTaxpayer(self, b, c) && a.fy == b.fy == c.fy
    && a.abn.Some? && a.abn == b.abn && c.abn == None
    && c.employer.Some? && b.employer == c.employer && a.employer != c.employer
  }

  /** `b` matches both of two rows that do not match each other. */
  predicate Bridges(self: string, a: Income, b: Income, c: Income) {
    SameSalary(self, a, b) && SameSalary(self, b, c) && !SameSalary(self, a, c)
  }

  /** The only ways to bridge: two ABNs under one name, or two names under one ABN, and a row without an ABN. */
  lemma {:induction false} BridgesIff(self: string, a: Income, b: Income, c: Income)
    ensures Bridges(self, a, b, c) <==> AbnBridge(self, a, b, c) || NameBridge(self, a, b, c) || NameBridge(self, c, b, a)
  {
  }

  /** The row counts as, or is restated by, `r`. */
  predicate CountedAs(self: string, a: Income, r: Income) { a == r || SameSalary(self, a, r) }

  ghost predicate SameStatements(xs: seq<Statement>, ys: seq<Statement>) { forall st :: st in xs <==> st in ys }

  /** Each uploaded row is counted on file, and by one statement only. */
  ghost predicate EachCountedOnce(self: string, sts: seq<Statement>) {
    var rows := FiledAll(self, sts).income;
    forall u | HasRow(sts, u) ::
      && (exists r | r in rows :: CountedAs(self, u, r))
      && forall r, s | r in rows && s in rows && CountedAs(self, u, r) && CountedAs(self, u, s) :: r.doc == s.doc
  }

  /** `u` ties two statements together, and row `r` of the first has no match in the second. */
  predicate Clash(self: string, x: Statement, y: Statement, u: Income, r: Income, s: Income) {
    && x.doc != y.doc && r in x.rows && s in y.rows
    && CountedAs(self, u, r) && CountedAs(self, u, s) && !Matched(self, r, y.rows)
  }

  ghost predicate NoClash(self: string, sts: seq<Statement>) {
    forall x, y, u, r, s | x in sts && y in sts && HasRow(sts, u) :: !Clash(self, x, y, u, r, s)
  }

  lemma {:induction false} SameHasRow(xs: seq<Statement>, ys: seq<Statement>, r: Income)
    requires SameStatements(xs, ys)
    ensures HasRow(xs, r) <==> HasRow(ys, r)
  {
    if HasRow(xs, r) {
      var p :| 0 <= p < |xs| && r in xs[p].rows;
      assert xs[p] in ys;
    }
    if HasRow(ys, r) {
      var p :| 0 <= p < |ys| && r in ys[p].rows;
      assert ys[p] in xs;
    }
  }

  /** The last statement with a match for `u`, if any comes after it, still counts it. */
  lemma {:induction false} SomeRowCounts(self: string, sts: seq<Statement>, p: nat, u: Income, q: nat, v: Income) returns (r: Income)
    requires Statements(sts) && NoClash(self, sts) && p < |sts| && u in sts[p].rows
    requires p <= q < |sts| && v in sts[q].rows && CountedAs(self, u, v) && (q == p ==> v == u)
    ensures OnFile(self, sts, r) && CountedAs(self, u, r)
    decreases |sts| - q
  {
    if !Reissued(self, sts, q, v) {
      assert Stands(self, sts, q, v);
      return v;
    }
    var k :| q < k < |sts| && Matched(self, v, sts[k].rows);
    var w :| w in sts[k].rows && SameSalary(self, v, w);
    assert HasRow(sts, v) && sts[p] in sts && sts[k] in sts && sts[p].doc != sts[k].doc;
    assert !Clash(self, sts[p], sts[k], v, u, w);
    var t :| t in sts[k].rows && SameSalary(self, u, t);
    r := SomeRowCounts(self, sts, p, u, k, t);
  }

  lemma {:induction false} LaterUnmatched(self: string, sts: seq<Statement>, p: nat, r: Income, q: nat)
    requires Stands(self, sts, p, r) && p < q < |sts|
    ensures !Matched(self, r, sts[q].rows)
  {
  }

  lemma {:induction false} OneStatementCounts(self: string, sts: seq<Statement>, u: Income, p: nat, r: Income, q: nat, s: Income)
    requires Statements(sts) && NoClash(self, sts) && HasRow(sts, u) && CountedAs(self, u, r) && CountedAs(self, u, s)
    requires Stands(self, sts, p, r) && Stands(self, sts, q, s)
    ensures r.doc == s.doc
  {
    if p < q { LaterUnmatched(self, sts, p, r, q); }
    if q < p { LaterUnmatched(self, sts, q, s, p); }
    assert sts[p] in sts && sts[q] in sts;
    assert !Clash(self, sts[p], sts[q], u, r, s) && !Clash(self, sts[q], sts[p], u, s, r);
  }

  lemma {:induction false} NoClashCountsOnce(self: string, sts: seq<Statement>)
    requires Statements(sts) && NoClash(self, sts)
    ensures EachCountedOnce(self, sts)
  {
    SalaryLastWins(self, sts);
    var rows := FiledAll(self, sts).income;
    forall u | HasRow(sts, u) ensures exists r | r in rows :: CountedAs(self, u, r) {
      var p: nat :| p < |sts| && u in sts[p].rows;
      var r := SomeRowCounts(self, sts, p, u, p, u);
    }
    forall u, r, s | HasRow(sts, u) && r in rows && s in rows && CountedAs(self, u, r) && CountedAs(self, u, s) ensures r.doc == s.doc {
      var p: nat :| Stands(self, sts, p, r);
      var q: nat :| Stands(self, sts, q, s);
      OneStatementCounts(self, sts, u, p, r, q, s);
    }
  }

  // ── Moving two statements last ──────────────────────────────────────────────────────────────────────

  function MovedLast(xs: seq<Statement>, i: nat): seq<Statement>
    requires i < |xs|
  {
    xs[..i] + xs[i + 1..] + [xs[i]]
  }

  /** The index before the move. */
  function Before(n: nat, i: nat, k: nat): nat
    requires i < n && k < n
  {
    if k < i then k else if k == n - 1 then i else k + 1
  }

  lemma {:induction false} MovedAt(xs: seq<Statement>, i: nat, k: nat)
    requires i < |xs| && k < |xs|
    ensures |MovedLast(xs, i)| == |xs| && MovedLast(xs, i)[k] == xs[Before(|xs|, i, k)]
  {
  }

  lemma {:induction false} MovedSame(xs: seq<Statement>, i: nat)
    requires i < |xs|
    ensures SameStatements(xs, MovedLast(xs, i))
  {
    assert xs == xs[..i] + [xs[i]] + xs[i + 1..];
  }

  lemma {:induction false} MovedKeepsStatements(xs: seq<Statement>, i: nat)
    requires Statements(xs) && i < |xs|
    ensures SameStatements(xs, MovedLast(xs, i)) && Statements(MovedLast(xs, i))
  {
    MovedSame(xs, i);
    var ys := MovedLast(xs, i);
    forall p, r | 0 <= p < |ys| && r in ys[p].rows ensures r.kind == Salary && r.doc == Some(ys[p].doc) { MovedAt(xs, i, p); }
    forall p, q | 0 <= p < |ys| && 0 <= q < |ys| && ys[p].doc == ys[q].doc ensures p == q {
      MovedAt(xs, i, p);
      MovedAt(xs, i, q);
    }
    forall r, t | HasRow(ys, r) && HasRow(ys, t) && r.id == t.id ensures r == t {
      SameHasRow(xs, ys, r);
      SameHasRow(xs, ys, t);
    }
  }

  lemma {:induction false} LastTwoOnFile(self: string, ys: seq<Statement>, r: Income, s: Income)
    requires |ys| >= 2 && r in ys[|ys| - 2].rows && s in ys[|ys| - 1].rows && !Matched(self, r, ys[|ys| - 1].rows)
    ensures OnFile(self, ys, r) && OnFile(self, ys, s)
  {
    assert Stands(self, ys, |ys| - 2, r) && Stands(self, ys, |ys| - 1, s);
  }

  /** A clashing pair read last: both stand, and the row between them is counted by both. */
  lemma {:induction false} LastTwoStand(self: string, ys: seq<Statement>, u: Income, r: Income, s: Income)
    requires Statements(ys) && |ys| >= 2 && HasRow(ys, u) && Clash(self, ys[|ys| - 2], ys[|ys| - 1], u, r, s)
    ensures !EachCountedOnce(self, ys)
  {
    SalaryLastWins(self, ys);
    LastTwoOnFile(self, ys, r, s);
    var rows := FiledAll(self, ys).income;
    assert r in rows && s in rows;
    assert r.doc == Some(ys[|ys| - 2].doc) && s.doc == Some(ys[|ys| - 1].doc);
  }

  lemma {:induction false} MoveTwoLast(xs: seq<Statement>, x: Statement, y: Statement) returns (ys: seq<Statement>)
    requires Statements(xs) && x in xs && y in xs && x != y
    ensures Statements(ys) && SameStatements(xs, ys) && |ys| >= 2 && ys[|ys| - 2] == x && ys[|ys| - 1] == y
  {
    var i: nat :| i < |xs| && xs[i] == x;
    var zs := MovedLast(xs, i);
    MovedKeepsStatements(xs, i);
    var j: nat :| j < |zs| && zs[j] == y;
    ys := MovedLast(zs, j);
    MovedKeepsStatements(zs, j);
    MovedAt(zs, j, |zs| - 2);
  }

  lemma {:induction false} SameNoClash(self: string, xs: seq<Statement>, ys: seq<Statement>)
    requires SameStatements(xs, ys) && NoClash(self, xs)
    ensures NoClash(self, ys)
  {
    forall x, y, u, r, s | x in ys && y in ys && HasRow(ys, u) ensures !Clash(self, x, y, u, r, s) {
      SameHasRow(xs, ys, u);
    }
  }

  /**
   * Exactly when salary statements are counted once each in every upload order, however many employer blocks each has:
   * when no row ties together two statements of which the first has, for it, a row with no match in the second.
   */
  lemma {:induction false} SalaryCountsOnceIff(self: string, sts: seq<Statement>)
    requires Statements(sts)
    ensures NoClash(self, sts) <==>
      forall ys | Statements(ys) && SameStatements(sts, ys) :: EachCountedOnce(self, ys)
  {
    if NoClash(self, sts) {
      forall ys | Statements(ys) && SameStatements(sts, ys) ensures EachCountedOnce(self, ys) {
        SameNoClash(self, sts, ys);
        NoClashCountsOnce(self, ys);
      }
    } else {
      var x, y, u, r, s :| x in sts && y in sts && HasRow(sts, u) && Clash(self, x, y, u, r, s);
      var ys := MoveTwoLast(sts, x, y);
      SameHasRow(sts, ys, u);
      LastTwoStand(self, ys, u, r, s);
    }
  }

  /** Statements of one row each clash exactly where a row bridges two others. */
  lemma {:induction false} SingleRowsClash(self: string, x: Statement, y: Statement, u: Income, r: Income, s: Income)
    requires x.rows == [r] && y.rows == [s] && x.doc != y.doc && r != s
    ensures Clash(self, x, y, u, r, s) <==> Bridges(self, r, u, s)
  {
  }

  /** So the order decides how many salary rows count: read last, a statement without an ABN replaces those of both employers
      of its name; read first, it is itself replaced and both stay. */
  lemma {:induction false} SalaryOrderMatters(self: string, a: Statement, b: Statement, c: Statement)
    requires |a.rows| == |b.rows| == |c.rows| == 1 && AbnBridge(self, a.rows[0], b.rows[0], c.rows[0])
    requires Statements([a, c, b]) && Statements([b, a, c])
    ensures forall r :: r in FiledAll(self, [a, c, b]).income <==> r == b.rows[0]
    ensures forall r :: r in FiledAll(self, [b, a, c]).income <==> r == a.rows[0] || r == c.rows[0]
    ensures a.rows[0] != c.rows[0]
  {
    var acb, bac, ra, rb, rc := [a, c, b], [b, a, c], a.rows[0], b.rows[0], c.rows[0];
    forall r ensures OnFile(self, acb, r) <==> r == rb {
      assert Matched(self, ra, acb[2].rows) && Matched(self, rc, acb[2].rows);
      assert Stands(self, acb, 2, rb);
    }
    forall r ensures OnFile(self, bac, r) <==> r == ra || r == rc {
      assert Matched(self, rb, bac[1].rows);
      assert Stands(self, bac, 1, ra) && Stands(self, bac, 2, rc);
    }
    SalaryLastWins(self, acb);
    SalaryLastWins(self, bac);
  }
}
