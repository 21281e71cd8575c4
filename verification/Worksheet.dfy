/**
 * The myTax worksheet (src/lib/mytax-worksheet.ts): the report's own deductions (src/lib/report.ts), the schedule's
 * routing of the same rows (src/lib/accountant-schedule.ts), the lines the worksheet puts them on, and when the lines tie
 * back to the report.
 */
module Worksheet {
  import opened Options
  import P = Position

  type Id = int

  // ── Sums over lists ─────────────────────────────────────────────────────────────────────────────────

  function Sum<T>(xs: seq<T>, f: T -> int): int {
    if xs == [] then 0 else Sum(xs[..|xs| - 1], f) + f(xs[|xs| - 1])
  }

  function Filter<T>(xs: seq<T>, p: T -> bool): seq<T> {
    if xs == [] then [] else Filter(xs[..|xs| - 1], p) + if p(xs[|xs| - 1]) then [xs[|xs| - 1]] else []
  }

  lemma {:induction false} FilterSnoc<T>(xs: seq<T>, i: nat, p: T -> bool)
    requires i < |xs|
    ensures Filter(xs[..i + 1], p) == if p(xs[i]) then Filter(xs[..i], p) + [xs[i]] else Filter(xs[..i], p)
  {
    assert xs[..i + 1][..i] == xs[..i];
  }

  function Map<T, U>(xs: seq<T>, f: T -> U): seq<U> { seq(|xs|, i requires 0 <= i < |xs| => f(xs[i])) }

  lemma {:induction false} SumSame<T>(xs: seq<T>, f: T -> int, g: T -> int)
    requires forall x | x in xs :: f(x) == g(x)
    ensures Sum(xs, f) == Sum(xs, g)
  {
    if xs != [] {
      assert xs[|xs| - 1] in xs && forall x | x in xs[..|xs| - 1] :: x in xs;
      SumSame(xs[..|xs| - 1], f, g);
    }
  }

  lemma {:induction false} SumAdds<T>(xs: seq<T>, f: T -> int, g: T -> int, h: T -> int)
    requires forall x | x in xs :: h(x) == f(x) + g(x)
    ensures Sum(xs, h) == Sum(xs, f) + Sum(xs, g)
  {
    if xs != [] {
      assert xs[|xs| - 1] in xs && forall x | x in xs[..|xs| - 1] :: x in xs;
      SumAdds(xs[..|xs| - 1], f, g, h);
    }
  }

  lemma {:induction false} SumSnoc<T>(xs: seq<T>, x: T, f: T -> int)
    ensures Sum(xs + [x], f) == Sum(xs, f) + f(x)
  {
    assert (xs + [x])[..|xs|] == xs;
  }

  lemma {:induction false} SumConcat<T>(xs: seq<T>, ys: seq<T>, f: T -> int)
    ensures Sum(xs + ys, f) == Sum(xs, f) + Sum(ys, f)
  {
    if ys == [] {
      assert xs + ys == xs;
    } else {
      SumConcat(xs, ys[..|ys| - 1], f);
      assert (xs + ys)[..|xs + ys| - 1] == xs + ys[..|ys| - 1];
    }
  }

  lemma {:induction false} SumFilter<T(!new)>(xs: seq<T>, p: T -> bool, f: T -> int, g: T -> int)
    requires forall x :: g(x) == if p(x) then f(x) else 0
    ensures Sum(Filter(xs, p), f) == Sum(xs, g)
  {
    if xs != [] {
      var init, x := xs[..|xs| - 1], xs[|xs| - 1];
      SumFilter(init, p, f, g);
      if p(x) { SumSnoc(Filter(init, p), x, f); } else { assert Filter(init, p) + [] == Filter(init, p); }
    }
  }

  lemma {:induction false} SumMap<T(!new), U>(xs: seq<T>, e: T -> U, f: U -> int, g: T -> int)
    requires forall x :: g(x) == f(e(x))
    ensures Sum(Map(xs, e), f) == Sum(xs, g)
  {
    if xs != [] {
      SumMap(xs[..|xs| - 1], e, f, g);
      assert Map(xs, e)[..|xs| - 1] == Map(xs[..|xs| - 1], e);
    }
  }

  // ── The rows ────────────────────────────────────────────────────────────────────────────────────────

  datatype Bucket = Payg | Company | Asset | Unknown | PropertyRented | PropertyVacant | IncomeProperty | OtherBucket

  datatype Verdict = Undetermined | Suggested | LikelyNot | ConfirmedNot | NeedsApportionment | LikelyDeductible | Confirmed

  /** A countable, unattributed row of the year; `denied` and `unsettled` are the property markers the query computes. */
  datatype Spend = Spend(id: Id, bucket: Option<Bucket>, verdict: Verdict, reimbursed: bool, denied: bool, unsettled: bool,
                         property: Option<Id>, tag: Option<string>, cents: int)

  datatype Activity = RentalProperty | Business | OtherActivity

  /** One attribution of a transaction: who claims it, for what. */
  datatype Claim = Claim(id: Id, verdict: Verdict, byCompany: bool, privateUse: bool, activity: Activity, activityId: Option<Id>,
                         property: Option<Id>, tag: Option<string>, cents: int)

  datatype Loan = Loan(property: Id, cents: int)

  /** What a year's deductions are read from: netted refunds by expense, the properties the user rents as a tenant, the
      work methods and the labels they go to. */
  datatype Ledger = Ledger(spend: seq<Spend>, claims: seq<Claim>, loans: seq<Loan>, netted: map<Id, int>, tenant: set<Id>,
                           wfh: nat, car: nat, wfhLabel: string, carLabel: string, strict: bool)

  // ── The report's own figures ────────────────────────────────────────────────────────────────────────

  datatype Group = Deduction | Excluded | OnCompany

  function GroupOf(s: Spend, strict: bool): Group
    requires s.bucket.Some?
  {
    if s.bucket == Some(Company) then OnCompany
    else if s.reimbursed || s.denied || s.unsettled then Excluded
    else if s.bucket.value in {Asset, Unknown} then Excluded
    else if s.verdict == Suggested then Excluded
    else if !strict then Deduction
    else if s.verdict in {LikelyNot, ConfirmedNot, NeedsApportionment} then Excluded
    else if s.bucket == Some(Payg) && s.verdict == Undetermined then Excluded
    else Deduction
  }

  /** The row counts in the headline: the query groups rows by bucket, so one without a bucket is not read. */
  predicate Headline(s: Spend, strict: bool) { s.bucket.Some? && GroupOf(s, strict) == Deduction }

  /** The row counts towards its property's figure: that query reads any bucket, and none. */
  predicate PropertyRowCounts(s: Spend, strict: bool) {
    !s.reimbursed && !s.denied && !s.unsettled && (!strict || s.verdict !in {LikelyNot, ConfirmedNot, NeedsApportionment})
  }

  datatype Track = Individual | CompanyTrack | PropertyTrack | ExcludedTrack

  function TrackOf(c: Claim): Track {
    if c.privateUse then ExcludedTrack
    else if c.activity == RentalProperty then PropertyTrack
    else if c.byCompany then CompanyTrack
    else Individual
  }

  predicate CountsInPosition(c: Claim, strict: bool) {
    match TrackOf(c)
    case ExcludedTrack => false
    case CompanyTrack => true
    case _ => c.verdict != Suggested && (!strict || c.verdict !in {LikelyNot, ConfirmedNot, NeedsApportionment})
  }

  /** A claim that reduces the individual's own position. */
  predicate Personal(c: Claim, strict: bool) { CountsInPosition(c, strict) && TrackOf(c) in {Individual, PropertyTrack} }

  function Gross(b: Ledger): int {
    Sum(b.spend, (s: Spend) => if Headline(s, b.strict) then s.cents else 0)
      + Sum(b.claims, (c: Claim) => if Personal(c, b.strict) then c.cents else 0)
      + Sum(b.loans, (n: Loan) => n.cents)
  }

  function Floor(x: int): int { if x < 0 then 0 else x }

  /** total_deductions_cents, from the refunds netted in all. */
  function ReportDeductions(b: Ledger, refunds: int): int { Floor(Gross(b) - refunds) + b.wfh + b.car }

  /** per_property's deduction_cents. */
  function PropertyDeduction(b: Ledger, p: Id): int {
    Sum(b.spend, (s: Spend) => if s.property == Some(p) && PropertyRowCounts(s, b.strict) then s.cents else 0)
      + Sum(b.claims, (c: Claim) => if OfProperty(c, b.strict) && c.property == Some(p) then c.cents else 0)
      + Sum(b.loans, (n: Loan) => if n.property == p then n.cents else 0)
  }

  predicate OfProperty(c: Claim, strict: bool) { CountsInPosition(c, strict) && TrackOf(c) == PropertyTrack && c.property.Some? }

  predicate Distinct<T(==)>(xs: seq<T>) { forall i, j | 0 <= i < j < |xs| :: xs[i] != xs[j] }

  /** The properties per_property lists: every one with a figure, except those the user rents as a tenant. A loan's property
      is let or vacant, so never one of those. */
  predicate Lists(b: Ledger, ps: seq<Id>) {
    && Distinct(ps) && (forall i | 0 <= i < |ps| :: ps[i] !in b.tenant)
    && (forall s | s in b.spend :: Covered(b, ps, s.property))
    && (forall c | c in b.claims && OfProperty(c, b.strict) :: Covered(b, ps, c.property))
    && (forall n | n in b.loans :: n.property in ps)
  }

  predicate Covered(b: Ledger, ps: seq<Id>, p: Option<Id>) { p.Some? ==> p.value in b.tenant || p.value in ps }

  lemma {:induction false} AsList(ids: set<Id>) returns (ps: seq<Id>)
    ensures Distinct(ps) && forall p :: p in ps <==> p in ids
    decreases |ids|
  {
    if p :| p in ids {
      var rest := AsList(ids - {p});
      ps := rest + [p];
    } else {
      ps := [];
    }
  }

  lemma {:induction false} InList(ps: seq<Id>, ids: set<Id>, p: Id)
    requires forall q :: q in ps <==> q in ids
    ensures p in ps <==> p in ids
  {
  }

  /** Every ledger has such a list, as long as no loan is on a property the user rents as a tenant. */
  lemma {:induction false} SomeList(b: Ledger) returns (ps: seq<Id>)
    requires forall n | n in b.loans :: n.property !in b.tenant
    ensures Lists(b, ps)
  {
    var spent, claimed := (set s | s in b.spend && s.property.Some? :: s.property.value), (set c | c in b.claims && c.property.Some? :: c.property.value);
    var lent := set n | n in b.loans :: n.property;
    var wanted := (spent + claimed + lent) - b.tenant;
    ps := AsList(wanted);
    forall s | s in b.spend ensures Covered(b, ps, s.property) {
      if s.property.Some? && s.property.value !in b.tenant { InList(ps, wanted, s.property.value); }
    }
    forall c | c in b.claims ensures Covered(b, ps, c.property) {
      if c.property.Some? && c.property.value !in b.tenant { InList(ps, wanted, c.property.value); }
    }
    forall n | n in b.loans ensures n.property in ps { InList(ps, wanted, n.property); }
    forall i | 0 <= i < |ps| ensures ps[i] !in b.tenant { InList(ps, wanted, ps[i]); }
  }

  // ── The schedule's routing ──────────────────────────────────────────────────────────────────────────

  /** A property's itemised row. */
  predicate IsItem(b: Ledger, s: Spend) {
    s.bucket.Some? && s.bucket != Some(Company) && s.property.Some? && s.property.value !in b.tenant && PropertyRowCounts(s, b.strict)
  }

  /** A work-related row: a headline row that is on no listed property. */
  predicate IsWork(b: Ledger, s: Spend) {
    Headline(s, b.strict) && !(s.property.Some? && s.property.value !in b.tenant)
  }

  function ItemTest(b: Ledger): Spend -> bool { s => IsItem(b, s) }
  function WorkTest(b: Ledger): Spend -> bool { s => IsWork(b, s) }

  method Route(b: Ledger, ps: seq<Id>) returns (items: seq<Spend>, work: seq<Spend>)
    requires Lists(b, ps)
    ensures items == Filter(b.spend, ItemTest(b)) && work == Filter(b.spend, WorkTest(b))
  {
    items, work := [], [];
    for i := 0 to |b.spend|
      invariant items == Filter(b.spend[..i], ItemTest(b)) && work == Filter(b.spend[..i], WorkTest(b))
    {
      var s := b.spend[i];
      assert s in b.spend;
      FilterSnoc(b.spend, i, ItemTest(b));
      FilterSnoc(b.spend, i, WorkTest(b));
      if s.bucket == None { continue; }  // the schedule's query skips it
      var group := GroupOf(s, b.strict);
      if s.bucket == Some(Company) { continue; }
      if s.property.Some? && s.property.value in ps {
        if PropertyRowCounts(s, b.strict) { items := items + [s]; }
        continue;
      }
      if group == Deduction { work := work + [s]; }
    }
    assert b.spend[..|b.spend|] == b.spend;
  }

  // ── The worksheet's lines ───────────────────────────────────────────────────────────────────────────

  datatype Line = Rental(property: Id) | RentalUnlinked | Label(text: string) | Unlabelled | BusinessItem(activity: Option<Id>)

  predicate Digit(c: char) { '0' <= c <= '9' }

  function LabelLine(tag: Option<string>): Line {
    if tag.Some? && |tag.value| >= 2 && tag.value[0] == 'D' && Digit(tag.value[1]) then Label(tag.value) else Unlabelled
  }

  predicate IsPropertyBucket(s: Spend) { s.bucket.Some? && s.bucket.value in {PropertyRented, PropertyVacant, IncomeProperty} }

  /** One amount put on a line; `nets` when the refund of expense `id`, if still unplaced, comes off it. */
  datatype Entry = Entry(line: Line, cents: int, nets: bool, id: Id)

  /** The lines so far, their sum, the refunds not yet placed (by expense), and the refunds placed. */
  datatype Sheet = Sheet(lines: map<Line, int>, sum: int, left: map<Id, int>, placed: int)

  function At(lines: map<Line, int>, l: Line): int { if l in lines then lines[l] else 0 }

  function Due(left: map<Id, int>, id: Id): int { if id in left then left[id] else 0 }

  function Posted(s: Sheet, e: Entry): Sheet {
    var n := if e.nets then Due(s.left, e.id) else 0;
    Sheet(s.lines[e.line := At(s.lines, e.line) + e.cents - n], s.sum + e.cents - n, if n != 0 then s.left - {e.id} else s.left, s.placed + n)
  }

  function Filled(netted: map<Id, int>, es: seq<Entry>): Sheet {
    if es == [] then Sheet(map[], 0, netted, 0) else Posted(Filled(netted, es[..|es| - 1]), es[|es| - 1])
  }

  /** What comes off a property's figure: a row the headline leaves out, or the refund of one it counts. */
  function ItemEntry(b: Ledger, s: Spend): Entry {
    var l := Rental(s.property.GetOr(0));
    if Headline(s, b.strict) then Entry(l, 0, true, s.id) else Entry(l, -s.cents, false, s.id)
  }

  function PropertyEntry(b: Ledger, p: Id): Entry { Entry(Rental(p), PropertyDeduction(b, p), false, 0) }

  function UnlinkedEntry(s: Spend): Entry { Entry(RentalUnlinked, s.cents, true, s.id) }

  function LabelEntry(s: Spend): Entry { Entry(LabelLine(s.tag), s.cents, true, s.id) }

  /** An attribution the worksheet itself puts on a line; a property's own are inside the property's figure. */
  predicate OnSheet(b: Ledger, c: Claim) {
    TrackOf(c) !in {CompanyTrack, ExcludedTrack} && !(TrackOf(c) == PropertyTrack && c.property.Some?) && CountsInPosition(c, b.strict)
  }

  function ClaimEntry(c: Claim): Entry {
    if TrackOf(c) == PropertyTrack then Entry(RentalUnlinked, c.cents, true, c.id)
    else if c.activity == Business then Entry(BusinessItem(c.activityId), c.cents, true, c.id)
    else Entry(LabelLine(c.tag), c.cents, true, c.id)
  }

  function MethodEntries(b: Ledger): seq<Entry> {
    (if b.wfh > 0 then [Entry(Label(b.wfhLabel), b.wfh, false, 0)] else [])
      + if b.car > 0 then [Entry(Label(b.carLabel), b.car, false, 0)] else []
  }

  function ItemPut(b: Ledger): Spend -> Entry { s => ItemEntry(b, s) }
  function PropertyPut(b: Ledger): Id -> Entry { p => PropertyEntry(b, p) }
  function UnlinkedTest(): Spend -> bool { s => IsPropertyBucket(s) }
  function UnlinkedPut(): Spend -> Entry { s => UnlinkedEntry(s) }
  function LabelTest(): Spend -> bool { s => !IsPropertyBucket(s) }
  function LabelPut(): Spend -> Entry { s => LabelEntry(s) }
  function ClaimTest(b: Ledger): Claim -> bool { c => OnSheet(b, c) }
  function ClaimPut(): Claim -> Entry { c => ClaimEntry(c) }
  function Work(b: Ledger): seq<Spend> { Filter(b.spend, WorkTest(b)) }

  /** Everything the worksheet puts on its lines, in order, for the listed properties. */
  function Entries(b: Ledger, ps: seq<Id>): seq<Entry> {
    Map(Filter(b.spend, ItemTest(b)), ItemPut(b)) + Map(ps, PropertyPut(b)) + Map(Filter(Work(b), UnlinkedTest()), UnlinkedPut())
      + Map(Filter(Work(b), LabelTest()), LabelPut()) + Map(Filter(b.claims, ClaimTest(b)), ClaimPut()) + MethodEntries(b)
  }

  // ── Which line each counted amount is on ────────────────────────────────────────────────────────────

  /** The one line a headline row reaches. */
  function SpendLine(b: Ledger, s: Spend): Option<Line> {
    if !Headline(s, b.strict) then None
    else if s.property.Some? && s.property.value !in b.tenant then Some(Rental(s.property.value))
    else if IsPropertyBucket(s) then Some(RentalUnlinked)
    else Some(LabelLine(s.tag))
  }

  /** The one line an attribution reaches; one of a property the user rents as a tenant reaches none. */
  function ClaimLine(b: Ledger, c: Claim): Option<Line> {
    if OnSheet(b, c) then Some(ClaimEntry(c).line)
    else if OfProperty(c, b.strict) && c.property.value !in b.tenant then Some(Rental(c.property.value))
    else None
  }

  /** A row the property's figure counts though the headline, and the schedule's items, never see it: company spend, or a row
      with no bucket, tagged to a listed property. */
  predicate Stray(b: Ledger, s: Spend) {
    s.property.Some? && s.property.value !in b.tenant && PropertyRowCounts(s, b.strict) && (s.bucket == None || s.bucket == Some(Company))
  }

  /** An attribution in the report's deductions that no line of the worksheet has. */
  predicate Lost(b: Ledger, c: Claim) { OfProperty(c, b.strict) && c.property.value in b.tenant }

  function Picked(sel: Line -> bool): Entry -> int { (e: Entry) => if sel(e.line) then e.cents else 0 }

  predicate On(sel: Line -> bool, l: Option<Line>) {
    match l
    case None => false
    case Some(line) => sel(line)
  }

  function SpendOn(b: Ledger, sel: Line -> bool): Spend -> int {
    s => if On(sel, SpendLine(b, s)) then s.cents else 0
  }

  function StrayOn(b: Ledger, sel: Line -> bool): Spend -> int {
    s => if Stray(b, s) && sel(Rental(s.property.value)) then s.cents else 0
  }

  function ClaimOn(b: Ledger, sel: Line -> bool): Claim -> int {
    c => if On(sel, ClaimLine(b, c)) then c.cents else 0
  }

  function LoanOn(sel: Line -> bool): Loan -> int { (n: Loan) => if sel(Rental(n.property)) then n.cents else 0 }

  function MethodOn(b: Ledger, sel: Line -> bool): int {
    (if sel(Label(b.wfhLabel)) then b.wfh else 0) + if sel(Label(b.carLabel)) then b.car else 0
  }

  // ── What counts, and where it goes, in the columns of a row ─────────────────────────────────────────

  /** The verdicts with which a row counts: never a suggestion, and with the exclusion flag none that says no or in part; a wage
      earner's row then has to say yes. */
  predicate Says(v: Verdict, payg: bool, strict: bool) {
    match v
    case Confirmed => true
    case LikelyDeductible => true
    case Undetermined => !strict || !payg
    case Suggested => false
    case _ => !strict
  }

  predicate Claimable(s: Spend) { s.bucket in {Some(Payg), Some(PropertyRented), Some(PropertyVacant), Some(IncomeProperty), Some(OtherBucket)} }

  /** A headline row: of a claimable bucket, borne by the user, on a property that earns rent if on one, and not decided against. */
  lemma {:induction false} HeadlineIff(s: Spend, strict: bool)
    ensures Headline(s, strict) <==>
      Claimable(s) && !s.reimbursed && !s.denied && !s.unsettled && Says(s.verdict, s.bucket == Some(Payg), strict)
  {
    if s.bucket.Some? {
      var k := s.bucket.value;
      assert k.Payg? || k.Company? || k.Asset? || k.Unknown? || k.PropertyRented? || k.PropertyVacant? || k.IncomeProperty? || k.OtherBucket?;
    }
  }

  /** A property's own figure reads any bucket, and counts a suggestion. */
  lemma {:induction false} PropertyRowIff(s: Spend, strict: bool)
    ensures PropertyRowCounts(s, strict) <==>
      !s.reimbursed && !s.denied && !s.unsettled && (Says(s.verdict, false, strict) || s.verdict == Suggested)
  {
  }

  /** An attribution reduces the individual's position when it is not for private use, and is a rental property's or not the
      company's; a property's own figure has those of its rental activity; company ones count for the company whatever they say. */
  lemma {:induction false} ClaimIff(c: Claim, strict: bool)
    ensures Personal(c, strict) <==> !c.privateUse && (c.activity == RentalProperty || !c.byCompany) && Says(c.verdict, false, strict)
    ensures OfProperty(c, strict) <==> !c.privateUse && c.activity == RentalProperty && c.property.Some? && Says(c.verdict, false, strict)
    ensures CountsInPosition(c, strict) && !Personal(c, strict) <==> !c.privateUse && c.activity != RentalProperty && c.byCompany
  {
  }

  /** A return label is a D and a digit, with whatever follows; a row without one goes to the unlabelled amount. */
  lemma {:induction false} LabelIff(tag: Option<string>)
    ensures LabelLine(tag) == match tag
      case None => Unlabelled
      case Some(t) => if exists c, rest :: '0' <= c <= '9' && t == "D" + [c] + rest then Label(t) else Unlabelled
  {
    if tag.Some? && LabelLine(tag) == Label(tag.value) {
      var t := tag.value;
      assert t == "D" + [t[1]] + t[2..];
    }
  }

  /** The line of a headline row: its property's, unless the user rents that one as a tenant; otherwise the rental line with no
      property for a property bucket, and the row's label for any other. */
  lemma {:induction false} SpendLineIs(b: Ledger, s: Spend)
    requires Headline(s, b.strict)
    ensures SpendLine(b, s) == Some(
      if s.property.Some? && s.property.value !in b.tenant then Rental(s.property.value)
      else if s.bucket in {Some(PropertyRented), Some(PropertyVacant), Some(IncomeProperty)} then RentalUnlinked
      else LabelLine(s.tag))
  {
  }

  /** The line of an attribution of the individual's: a rental activity's is its property's, or the rental line with none; a
      business activity's its own item; any other its label. */
  lemma {:induction false} ClaimLineIs(b: Ledger, c: Claim)
    requires Personal(c, b.strict)
    ensures ClaimLine(b, c) ==
      if c.activity == RentalProperty then
        if c.property == None then Some(RentalUnlinked) else if c.property.value in b.tenant then None else Some(Rental(c.property.value))
      else Some(if c.activity == Business then BusinessItem(c.activityId) else LabelLine(c.tag))
  {
  }

  /** One more row, attribution or loan adds its amount to the report's gross deductions exactly when it counts. */
  lemma {:induction false} GrossGrows(b: Ledger, s: Spend, c: Claim, n: Loan)
    ensures Gross(b.(spend := b.spend + [s])) == Gross(b) + if Headline(s, b.strict) then s.cents else 0
    ensures Gross(b.(claims := b.claims + [c])) == Gross(b) + if Personal(c, b.strict) then c.cents else 0
    ensures Gross(b.(loans := b.loans + [n])) == Gross(b) + n.cents
    ensures b.spend == [] && b.claims == [] && b.loans == [] ==> Gross(b) == 0
  {
    SumSnoc(b.spend, s, (x: Spend) => if Headline(x, b.strict) then x.cents else 0);
    SumSnoc(b.claims, c, (x: Claim) => if Personal(x, b.strict) then x.cents else 0);
    SumSnoc(b.loans, n, (x: Loan) => x.cents);
  }

  /** The report's deductions are those the position is tracked with. */
  lemma {:induction false} ReportIsTracked(b: Ledger, refunds: int)
    ensures ReportDeductions(b, refunds) == P.TrackedDeductions(Gross(b), refunds, b.wfh + b.car)
  {
  }

  // ── The exchange: property by property, or row by row ───────────────────────────────────────────────

  /** The value of an element that belongs to property `p`, or to any property of the list. */
  function OfOne<T>(key: T -> Option<Id>, v: T -> int, p: Id): T -> int { x => if key(x) == Some(p) then v(x) else 0 }

  function OfAny<T>(key: T -> Option<Id>, v: T -> int, ps: seq<Id>, sel: Line -> bool): T -> int {
    x => if key(x).Some? && key(x).value in ps && sel(Rental(key(x).value)) then v(x) else 0
  }

  function ByProperty<T>(xs: seq<T>, key: T -> Option<Id>, v: T -> int, sel: Line -> bool): Id -> int {
    p => if sel(Rental(p)) then Sum(xs, OfOne(key, v, p)) else 0
  }

  lemma {:induction false} SumZero<T>(xs: seq<T>, f: T -> int)
    requires forall x | x in xs :: f(x) == 0
    ensures Sum(xs, f) == 0
  {
    if xs != [] {
      assert xs[|xs| - 1] in xs && forall x | x in xs[..|xs| - 1] :: x in xs;
      SumZero(xs[..|xs| - 1], f);
    }
  }

  lemma {:induction false} LastIsNew<T>(xs: seq<T>)
    requires Distinct(xs) && xs != []
    ensures Distinct(xs[..|xs| - 1]) && xs[|xs| - 1] !in xs[..|xs| - 1]
  {
    var init := xs[..|xs| - 1];
    forall i | 0 <= i < |init| ensures init[i] != xs[|init|] {
      assert xs[i] != xs[|init|];
    }
  }

  lemma {:induction false} Exchange<T>(xs: seq<T>, ps: seq<Id>, key: T -> Option<Id>, v: T -> int, sel: Line -> bool)
    requires Distinct(ps)
    ensures Sum(ps, ByProperty(xs, key, v, sel)) == Sum(xs, OfAny(key, v, ps, sel))
  {
    if ps == [] {
      SumZero(xs, OfAny(key, v, ps, sel));
    } else {
      var init, p := ps[..|ps| - 1], ps[|ps| - 1];
      LastIsNew(ps);
      Exchange(xs, init, key, v, sel);
      assert forall q :: q in ps <==> q in init || q == p;
      if sel(Rental(p)) {
        SumAdds(xs, OfAny(key, v, init, sel), OfOne(key, v, p), OfAny(key, v, ps, sel));
      } else {
        SumSame(xs, OfAny(key, v, init, sel), OfAny(key, v, ps, sel));
      }
    }
  }

  // ── Each part of the worksheet, row by row ──────────────────────────────────────────────────────────

  function SpendKey(strict: bool): Spend -> Option<Id> { (s: Spend) => if PropertyRowCounts(s, strict) then s.property else None }
  function SpendCents(): Spend -> int { (s: Spend) => s.cents }
  function ClaimKey(strict: bool): Claim -> Option<Id> { (c: Claim) => if OfProperty(c, strict) then c.property else None }
  function ClaimCents(): Claim -> int { (c: Claim) => c.cents }
  function LoanKey(): Loan -> Option<Id> { (n: Loan) => Some(n.property) }
  function LoanCents(): Loan -> int { (n: Loan) => n.cents }

  function FigureOn(b: Ledger, sel: Line -> bool): Id -> int { p => if sel(Rental(p)) then PropertyDeduction(b, p) else 0 }

  lemma {:induction false} PropertyParts(b: Ledger, p: Id)
    ensures PropertyDeduction(b, p) == Sum(b.spend, OfOne(SpendKey(b.strict), SpendCents(), p))
      + Sum(b.claims, OfOne(ClaimKey(b.strict), ClaimCents(), p)) + Sum(b.loans, OfOne(LoanKey(), LoanCents(), p))
  {
    SumSame(b.spend, (s: Spend) => if s.property == Some(p) && PropertyRowCounts(s, b.strict) then s.cents else 0,
            OfOne(SpendKey(b.strict), SpendCents(), p));
    SumSame(b.claims, (c: Claim) => if OfProperty(c, b.strict) && c.property == Some(p) then c.cents else 0,
            OfOne(ClaimKey(b.strict), ClaimCents(), p));
    SumSame(b.loans, (n: Loan) => if n.property == p then n.cents else 0, OfOne(LoanKey(), LoanCents(), p));
  }

  /** The properties' figures, summed over the list, are the rows, attributions and loans of the listed properties. */
  lemma {:induction false} FiguresSum(b: Ledger, ps: seq<Id>, sel: Line -> bool)
    requires Distinct(ps)
    ensures Sum(ps, FigureOn(b, sel)) == Sum(b.spend, OfAny(SpendKey(b.strict), SpendCents(), ps, sel))
      + Sum(b.claims, OfAny(ClaimKey(b.strict), ClaimCents(), ps, sel)) + Sum(b.loans, OfAny(LoanKey(), LoanCents(), ps, sel))
  {
    var f := ByProperty(b.spend, SpendKey(b.strict), SpendCents(), sel);
    var g := ByProperty(b.claims, ClaimKey(b.strict), ClaimCents(), sel);
    var h := ByProperty(b.loans, LoanKey(), LoanCents(), sel);
    var fg := (p: Id) => f(p) + g(p);
    forall p | p in ps ensures FigureOn(b, sel)(p) == fg(p) + h(p) { PropertyParts(b, p); }
    SumAdds(ps, f, g, fg);
    SumAdds(ps, fg, h, FigureOn(b, sel));
    Exchange(b.spend, ps, SpendKey(b.strict), SpendCents(), sel);
    Exchange(b.claims, ps, ClaimKey(b.strict), ClaimCents(), sel);
    Exchange(b.loans, ps, LoanKey(), LoanCents(), sel);
  }

  /** What the property items take off: the listed rows the headline leaves out. */
  function ItemOn(b: Ledger, sel: Line -> bool): Spend -> int {
    (s: Spend) => if IsItem(b, s) && !Headline(s, b.strict) && sel(Rental(s.property.value)) then -s.cents else 0
  }

  function WorkOn(b: Ledger, sel: Line -> bool): Spend -> int {
    (s: Spend) => if !IsWork(b, s) then 0
                  else if IsPropertyBucket(s) then (if sel(RentalUnlinked) then s.cents else 0)
                  else if sel(LabelLine(s.tag)) then s.cents else 0
  }

  function SheetOn(b: Ledger, sel: Line -> bool): Claim -> int {
    (c: Claim) => if OnSheet(b, c) && sel(ClaimEntry(c).line) then c.cents else 0
  }

  lemma {:induction false} ItemsPart(b: Ledger, sel: Line -> bool)
    ensures Sum(Map(Filter(b.spend, ItemTest(b)), ItemPut(b)), Picked(sel)) == Sum(b.spend, ItemOn(b, sel))
  {
    var f := (s: Spend) => Picked(sel)(ItemEntry(b, s));
    SumMap(Filter(b.spend, ItemTest(b)), ItemPut(b), Picked(sel), f);
    var g := (s: Spend) => if IsItem(b, s) then f(s) else 0;
    SumFilter(b.spend, ItemTest(b), f, g);
    SumSame(b.spend, g, ItemOn(b, sel));
  }

  function UnlinkedOn(sel: Line -> bool): Spend -> int {
    (s: Spend) => if IsPropertyBucket(s) && sel(RentalUnlinked) then s.cents else 0
  }

  function LabelledOn(sel: Line -> bool): Spend -> int {
    (s: Spend) => if !IsPropertyBucket(s) && sel(LabelLine(s.tag)) then s.cents else 0
  }

  lemma {:induction false} UnlinkedPart(xs: seq<Spend>, sel: Line -> bool)
    ensures Sum(Map(Filter(xs, UnlinkedTest()), UnlinkedPut()), Picked(sel)) == Sum(xs, UnlinkedOn(sel))
  {
    var f := (s: Spend) => Picked(sel)(UnlinkedEntry(s));
    SumMap(Filter(xs, UnlinkedTest()), UnlinkedPut(), Picked(sel), f);
    SumFilter(xs, UnlinkedTest(), f, UnlinkedOn(sel));
  }

  lemma {:induction false} LabelledPart(xs: seq<Spend>, sel: Line -> bool)
    ensures Sum(Map(Filter(xs, LabelTest()), LabelPut()), Picked(sel)) == Sum(xs, LabelledOn(sel))
  {
    var f := (s: Spend) => Picked(sel)(LabelEntry(s));
    SumMap(Filter(xs, LabelTest()), LabelPut(), Picked(sel), f);
    SumFilter(xs, LabelTest(), f, LabelledOn(sel));
  }

  lemma {:induction false} WorkPart(b: Ledger, sel: Line -> bool)
    ensures Sum(Map(Filter(Work(b), UnlinkedTest()), UnlinkedPut()), Picked(sel))
      + Sum(Map(Filter(Work(b), LabelTest()), LabelPut()), Picked(sel)) == Sum(b.spend, WorkOn(b, sel))
  {
    UnlinkedPart(Work(b), sel);
    LabelledPart(Work(b), sel);
    var both := (s: Spend) => UnlinkedOn(sel)(s) + LabelledOn(sel)(s);
    SumAdds(Work(b), UnlinkedOn(sel), LabelledOn(sel), both);
    SumFilter(b.spend, WorkTest(b), both, WorkOn(b, sel));
  }

  lemma {:induction false} ClaimsPart(b: Ledger, sel: Line -> bool)
    ensures Sum(Map(Filter(b.claims, ClaimTest(b)), ClaimPut()), Picked(sel)) == Sum(b.claims, SheetOn(b, sel))
  {
    var f := (c: Claim) => Picked(sel)(ClaimEntry(c));
    SumMap(Filter(b.claims, ClaimTest(b)), ClaimPut(), Picked(sel), f);
    var g := (c: Claim) => if OnSheet(b, c) then f(c) else 0;
    SumFilter(b.claims, ClaimTest(b), f, g);
    SumSame(b.claims, g, SheetOn(b, sel));
  }

  lemma {:induction false} MethodPart(b: Ledger, sel: Line -> bool)
    ensures Sum(MethodEntries(b), Picked(sel)) == MethodOn(b, sel)
  {
    var x, y := Entry(Label(b.wfhLabel), b.wfh, false, 0), Entry(Label(b.carLabel), b.car, false, 0);
    var none: seq<Entry> := [];
    SumSnoc(none, x, Picked(sel));
    SumSnoc(none, y, Picked(sel));
    SumConcat(if b.wfh > 0 then [x] else [], if b.car > 0 then [y] else [], Picked(sel));
  }

  lemma {:induction false} FiguresPart(b: Ledger, ps: seq<Id>, sel: Line -> bool)
    ensures Sum(Map(ps, PropertyPut(b)), Picked(sel)) == Sum(ps, FigureOn(b, sel))
  {
    SumMap(ps, PropertyPut(b), Picked(sel), FigureOn(b, sel));
  }

  lemma {:induction false} EntriesSum(b: Ledger, ps: seq<Id>, sel: Line -> bool)
    ensures Sum(Entries(b, ps), Picked(sel)) == Sum(b.spend, ItemOn(b, sel)) + Sum(ps, FigureOn(b, sel)) + Sum(b.spend, WorkOn(b, sel))
      + Sum(b.claims, SheetOn(b, sel)) + MethodOn(b, sel)
  {
    ItemsPart(b, sel);
    FiguresPart(b, ps, sel);
    WorkPart(b, sel);
    ClaimsPart(b, sel);
    MethodPart(b, sel);
    var items, figures := Map(Filter(b.spend, ItemTest(b)), ItemPut(b)), Map(ps, PropertyPut(b));
    var unlinked, labelled := Map(Filter(Work(b), UnlinkedTest()), UnlinkedPut()), Map(Filter(Work(b), LabelTest()), LabelPut());
    var claims := Map(Filter(b.claims, ClaimTest(b)), ClaimPut());
    SumConcat(items, figures, Picked(sel));
    SumConcat(items + figures, unlinked, Picked(sel));
    SumConcat(items + figures + unlinked, labelled, Picked(sel));
    SumConcat(items + figures + unlinked + labelled, claims, Picked(sel));
    SumConcat(items + figures + unlinked + labelled + claims, MethodEntries(b), Picked(sel));
  }

  /** A listed property's rows: those the headline counts reach their own line, those it leaves out cancel, and the strays
      stay on it. */
  lemma {:induction false} SpendRouted(b: Ledger, ps: seq<Id>, sel: Line -> bool)
    requires Lists(b, ps)
    ensures Sum(b.spend, ItemOn(b, sel)) + Sum(b.spend, OfAny(SpendKey(b.strict), SpendCents(), ps, sel)) + Sum(b.spend, WorkOn(b, sel))
         == Sum(b.spend, SpendOn(b, sel)) + Sum(b.spend, StrayOn(b, sel))
  {
    var any, items, work := OfAny(SpendKey(b.strict), SpendCents(), ps, sel), ItemOn(b, sel), WorkOn(b, sel);
    var two := (s: Spend) => items(s) + any(s);
    var all := (s: Spend) => two(s) + work(s);
    SumAdds(b.spend, items, any, two);
    SumAdds(b.spend, two, work, all);
    forall s | s in b.spend ensures all(s) == SpendOn(b, sel)(s) + StrayOn(b, sel)(s) {
      SpendAt(b, ps, sel, s);
    }
    SumAdds(b.spend, SpendOn(b, sel), StrayOn(b, sel), all);
  }

  lemma {:induction false} NotTenant(b: Ledger, ps: seq<Id>, p: Id)
    requires Lists(b, ps) && p in ps
    ensures p !in b.tenant
  {
    var i :| 0 <= i < |ps| && ps[i] == p;
  }

  predicate Here(b: Ledger, s: Spend) { s.property.Some? && s.property.value !in b.tenant }

  lemma {:induction false} AnyAt(b: Ledger, ps: seq<Id>, sel: Line -> bool, s: Spend)
    requires Lists(b, ps) && s in b.spend
    ensures OfAny(SpendKey(b.strict), SpendCents(), ps, sel)(s)
         == if Here(b, s) && sel(Rental(s.property.value)) && PropertyRowCounts(s, b.strict) then s.cents else 0
  {
    assert Covered(b, ps, s.property);
    if s.property.Some? && s.property.value in ps { NotTenant(b, ps, s.property.value); }
  }

  lemma {:induction false} SpendAt(b: Ledger, ps: seq<Id>, sel: Line -> bool, s: Spend)
    requires Lists(b, ps) && s in b.spend
    ensures ItemOn(b, sel)(s) + OfAny(SpendKey(b.strict), SpendCents(), ps, sel)(s) + WorkOn(b, sel)(s)
         == SpendOn(b, sel)(s) + StrayOn(b, sel)(s)
  {
    AnyAt(b, ps, sel, s);
    assert Headline(s, b.strict) ==> PropertyRowCounts(s, b.strict);
    if Here(b, s) {
      assert IsItem(b, s) <==> s.bucket.Some? && s.bucket != Some(Company) && PropertyRowCounts(s, b.strict);
      assert !IsWork(b, s) && (Headline(s, b.strict) ==> SpendLine(b, s) == Some(Rental(s.property.value)));
    } else {
      assert !IsItem(b, s) && !Stray(b, s) && (IsWork(b, s) <==> Headline(s, b.strict));
      var l := if IsPropertyBucket(s) then RentalUnlinked else LabelLine(s.tag);
      assert Headline(s, b.strict) ==> SpendLine(b, s) == Some(l);
      assert SpendOn(b, sel)(s) == if Headline(s, b.strict) && sel(l) then s.cents else 0;
      assert WorkOn(b, sel)(s) == if Headline(s, b.strict) && sel(l) then s.cents else 0;
    }
  }

  lemma {:induction false} ClaimAt(b: Ledger, ps: seq<Id>, sel: Line -> bool, c: Claim)
    requires Lists(b, ps) && c in b.claims
    ensures ClaimOn(b, sel)(c) == OfAny(ClaimKey(b.strict), ClaimCents(), ps, sel)(c) + SheetOn(b, sel)(c)
  {
    if c.property.Some? && c.property.value in ps { NotTenant(b, ps, c.property.value); }
    assert OfProperty(c, b.strict) ==> Covered(b, ps, c.property) && !OnSheet(b, c);
    assert OnSheet(b, c) ==> ClaimLine(b, c) == Some(ClaimEntry(c).line);
  }

  lemma {:induction false} ClaimsRouted(b: Ledger, ps: seq<Id>, sel: Line -> bool)
    requires Lists(b, ps)
    ensures Sum(b.claims, OfAny(ClaimKey(b.strict), ClaimCents(), ps, sel)) + Sum(b.claims, SheetOn(b, sel)) == Sum(b.claims, ClaimOn(b, sel))
  {
    var f, g := OfAny(ClaimKey(b.strict), ClaimCents(), ps, sel), SheetOn(b, sel);
    forall c | c in b.claims ensures ClaimOn(b, sel)(c) == f(c) + g(c) {
      ClaimAt(b, ps, sel, c);
    }
    SumAdds(b.claims, f, g, ClaimOn(b, sel));
  }

  /** Whatever lines are picked, the worksheet puts on them exactly the headline rows, attributions, loans and work methods
      that belong there, and the strays. */
  lemma {:induction false} EntriesRouted(b: Ledger, ps: seq<Id>, sel: Line -> bool)
    requires Lists(b, ps)
    ensures Sum(Entries(b, ps), Picked(sel)) == Sum(b.spend, SpendOn(b, sel)) + Sum(b.spend, StrayOn(b, sel)) + Sum(b.claims, ClaimOn(b, sel))
      + Sum(b.loans, LoanOn(sel)) + MethodOn(b, sel)
  {
    EntriesSum(b, ps, sel);
    FiguresSum(b, ps, sel);
    SpendRouted(b, ps, sel);
    ClaimsRouted(b, ps, sel);
    SumSame(b.loans, OfAny(LoanKey(), LoanCents(), ps, sel), LoanOn(sel));
  }

  // ── Filling the sheet ───────────────────────────────────────────────────────────────────────────────

  lemma {:induction false} FilledSnoc(netted: map<Id, int>, es: seq<Entry>, e: Entry)
    ensures Filled(netted, es + [e]) == Posted(Filled(netted, es), e)
  {
    assert (es + [e])[..|es|] == es;
  }

  lemma {:induction false} MapSnoc<T, U>(xs: seq<T>, x: T, f: T -> U)
    ensures Map(xs + [x], f) == Map(xs, f) + [f(x)]
  {
  }

  /** One more element of a list mapped to entries. */
  lemma {:induction false} PutNext<T>(netted: map<Id, int>, done: seq<Entry>, xs: seq<T>, i: nat, put: T -> Entry)
    requires i < |xs|
    ensures Filled(netted, done + Map(xs[..i + 1], put)) == Posted(Filled(netted, done + Map(xs[..i], put)), put(xs[i]))
  {
    assert xs[..i + 1] == xs[..i] + [xs[i]];
    MapSnoc(xs[..i], xs[i], put);
    assert done + (Map(xs[..i], put) + [put(xs[i])]) == done + Map(xs[..i], put) + [put(xs[i])];
    FilledSnoc(netted, done + Map(xs[..i], put), put(xs[i]));
  }

  /** One more element of a filtered list mapped to entries. */
  lemma {:induction false} PutNextIf<T>(netted: map<Id, int>, done: seq<Entry>, xs: seq<T>, i: nat, p: T -> bool, put: T -> Entry)
    requires i < |xs|
    ensures Filled(netted, done + Map(Filter(xs[..i + 1], p), put))
         == (if p(xs[i]) then Posted(Filled(netted, done + Map(Filter(xs[..i], p), put)), put(xs[i]))
             else Filled(netted, done + Map(Filter(xs[..i], p), put)))
  {
    FilterSnoc(xs, i, p);
    if p(xs[i]) {
      MapSnoc(Filter(xs[..i], p), xs[i], put);
      assert done + (Map(Filter(xs[..i], p), put) + [put(xs[i])]) == done + Map(Filter(xs[..i], p), put) + [put(xs[i])];
      FilledSnoc(netted, done + Map(Filter(xs[..i], p), put), put(xs[i]));
    }
  }

  class Builder {
    var lines: map<Line, int>
    var sum: int
    var left: map<Id, int>
    var placed: int

    constructor (netted: map<Id, int>)
      ensures View() == Filled(netted, [])
    {
      lines, sum, left, placed := map[], 0, netted, 0;
    }

    ghost function View(): Sheet
      reads this
    {
      Sheet(lines, sum, left, placed)
    }

    /** An amount for a line, less the refund of its expense: a refund nets once, even if its expense is on two rows. */
    method Post(e: Entry)
      modifies this
      ensures View() == Posted(old(View()), e)
    {
      var cents := e.cents;
      if e.nets && e.id in left && left[e.id] != 0 {
        cents, placed := cents - left[e.id], placed + left[e.id];
        left := left - {e.id};
      }
      lines := lines[e.line := (if e.line in lines then lines[e.line] else 0) + cents];
      sum := sum + cents;
    }

    method PostItems(b: Ledger, items: seq<Spend>, ghost done: seq<Entry>)
      requires forall s | s in items :: s.property.Some?
      requires View() == Filled(b.netted, done)
      modifies this
      ensures View() == Filled(b.netted, done + Map(items, ItemPut(b)))
    {
      assert done + Map(items[..0], ItemPut(b)) == done;
      for i := 0 to |items|
        invariant View() == Filled(b.netted, done + Map(items[..i], ItemPut(b)))
      {
        var r := items[i];
        assert r in items;
        PutNext(b.netted, done, items, i, ItemPut(b));
        if Headline(r, b.strict) {
          Post(Entry(Rental(r.property.value), 0, true, r.id));
        } else {
          Post(Entry(Rental(r.property.value), -r.cents, false, r.id));
        }
      }
      assert items[..|items|] == items;
    }

    method PostProperties(b: Ledger, ps: seq<Id>, ghost done: seq<Entry>)
      requires View() == Filled(b.netted, done)
      modifies this
      ensures View() == Filled(b.netted, done + Map(ps, PropertyPut(b)))
    {
      assert done + Map(ps[..0], PropertyPut(b)) == done;
      for i := 0 to |ps|
        invariant View() == Filled(b.netted, done + Map(ps[..i], PropertyPut(b)))
      {
        PutNext(b.netted, done, ps, i, PropertyPut(b));
        Post(Entry(Rental(ps[i]), PropertyDeduction(b, ps[i]), false, 0));
      }
      assert ps[..|ps|] == ps;
    }

    method PostUnlinked(b: Ledger, work: seq<Spend>, ghost done: seq<Entry>)
      requires View() == Filled(b.netted, done)
      modifies this
      ensures View() == Filled(b.netted, done + Map(Filter(work, UnlinkedTest()), UnlinkedPut()))
    {
      assert done + Map(Filter(work[..0], UnlinkedTest()), UnlinkedPut()) == done;
      for i := 0 to |work|
        invariant View() == Filled(b.netted, done + Map(Filter(work[..i], UnlinkedTest()), UnlinkedPut()))
      {
        PutNextIf(b.netted, done, work, i, UnlinkedTest(), UnlinkedPut());
        if IsPropertyBucket(work[i]) { Post(Entry(RentalUnlinked, work[i].cents, true, work[i].id)); }
      }
      assert work[..|work|] == work;
    }

    method PostLabels(b: Ledger, work: seq<Spend>, ghost done: seq<Entry>)
      requires View() == Filled(b.netted, done)
      modifies this
      ensures View() == Filled(b.netted, done + Map(Filter(work, LabelTest()), LabelPut()))
    {
      assert done + Map(Filter(work[..0], LabelTest()), LabelPut()) == done;
      for i := 0 to |work|
        invariant View() == Filled(b.netted, done + Map(Filter(work[..i], LabelTest()), LabelPut()))
      {
        PutNextIf(b.netted, done, work, i, LabelTest(), LabelPut());
        if !IsPropertyBucket(work[i]) { Post(Entry(LabelLine(work[i].tag), work[i].cents, true, work[i].id)); }
      }
      assert work[..|work|] == work;
    }

    method PostClaims(b: Ledger, ghost done: seq<Entry>)
      requires View() == Filled(b.netted, done)
      modifies this
      ensures View() == Filled(b.netted, done + Map(Filter(b.claims, ClaimTest(b)), ClaimPut()))
    {
      assert done + Map(Filter(b.claims[..0], ClaimTest(b)), ClaimPut()) == done;
      for i := 0 to |b.claims|
        invariant View() == Filled(b.netted, done + Map(Filter(b.claims[..i], ClaimTest(b)), ClaimPut()))
      {
        PutNextIf(b.netted, done, b.claims, i, ClaimTest(b), ClaimPut());
        var c := b.claims[i];
        var track := TrackOf(c);
        if track == CompanyTrack || track == ExcludedTrack || (track == PropertyTrack && c.property.Some?) { continue; }
        if !CountsInPosition(c, b.strict) { continue; }
        if track == PropertyTrack {
          Post(Entry(RentalUnlinked, c.cents, true, c.id));
        } else if c.activity == Business {
          Post(Entry(BusinessItem(c.activityId), c.cents, true, c.id));
        } else {
          Post(Entry(LabelLine(c.tag), c.cents, true, c.id));
        }
      }
      assert b.claims[..|b.claims|] == b.claims;
    }

    method PostMethods(b: Ledger, ghost done: seq<Entry>)
      requires View() == Filled(b.netted, done)
      modifies this
      ensures View() == Filled(b.netted, done + MethodEntries(b))
    {
      var wfh, car := Entry(Label(b.wfhLabel), b.wfh, false, 0), Entry(Label(b.carLabel), b.car, false, 0);
      ghost var first := if b.wfh > 0 then done + [wfh] else done;
      if b.wfh > 0 { FilledSnoc(b.netted, done, wfh); Post(wfh); }
      assert View() == Filled(b.netted, first);
      if b.car > 0 { FilledSnoc(b.netted, first, car); Post(car); }
      assert done + MethodEntries(b) == if b.car > 0 then first + [car] else first;
    }

    /** The worksheet's loops in turn. */
    method Assemble(b: Ledger, ps: seq<Id>)
      requires Lists(b, ps) && View() == Filled(b.netted, [])
      modifies this
      ensures View() == Filled(b.netted, Entries(b, ps))
    {
      var items, work := Route(b, ps);
      ItemsHaveProperty(b);
      PostItems(b, items, []);
      ghost var first := Map(items, ItemPut(b));
      assert [] + first == first;
      PostProperties(b, ps, first);
      ghost var second := first + Map(ps, PropertyPut(b));
      PostUnlinked(b, work, second);
      ghost var third := second + Map(Filter(work, UnlinkedTest()), UnlinkedPut());
      PostLabels(b, work, third);
      ghost var fourth := third + Map(Filter(work, LabelTest()), LabelPut());
      PostClaims(b, fourth);
      PostMethods(b, fourth + Map(Filter(b.claims, ClaimTest(b)), ClaimPut()));
    }
  }

  lemma {:induction false} FilterHolds<T>(xs: seq<T>, p: T -> bool)
    ensures forall x | x in Filter(xs, p) :: p(x) && x in xs
  {
    if xs != [] { FilterHolds(xs[..|xs| - 1], p); }
  }

  lemma {:induction false} ItemsHaveProperty(b: Ledger)
    ensures forall s | s in Filter(b.spend, ItemTest(b)) :: s.property.Some?
  {
    FilterHolds(b.spend, ItemTest(b));
  }

  // ── What each line holds ────────────────────────────────────────────────────────────────────────────

  function Sheeted(b: Ledger, ps: seq<Id>): Sheet { Filled(b.netted, Entries(b, ps)) }

  predicate Seen(es: seq<Entry>, id: Id) { exists e | e in es :: e.nets && e.id == id }

  /** What an entry takes off its own line: the whole netted amount of its expense, the first time that is visited. */
  function Off(netted: map<Id, int>, before: seq<Entry>, e: Entry): int {
    if !e.nets || Seen(before, e.id) then 0 else Due(netted, e.id)
  }

  /** The refunds that come off one line. */
  function OffLine(netted: map<Id, int>, es: seq<Entry>, l: Line): int {
    if es == [] then 0 else
    var init, e := es[..|es| - 1], es[|es| - 1];
    OffLine(netted, init, l) + if e.line == l then Off(netted, init, e) else 0
  }

  /** A refund is unplaced until its expense is visited, and never again. */
  lemma {:induction false} LeftIsUnseen(netted: map<Id, int>, es: seq<Entry>, id: Id)
    ensures Due(Filled(netted, es).left, id) == if Seen(es, id) then 0 else Due(netted, id)
  {
    if es != [] {
      var init, e := es[..|es| - 1], es[|es| - 1];
      LeftIsUnseen(netted, init, id);
      assert forall x :: x in es <==> x in init || x == e;
    }
  }

  function Only(l: Line): Line -> bool { m => m == l }
  function Every(): Line -> bool { (m: Line) => true }

  lemma {:induction false} LineIsEntries(netted: map<Id, int>, es: seq<Entry>, l: Line)
    ensures At(Filled(netted, es).lines, l) == Sum(es, Picked(Only(l))) - OffLine(netted, es, l)
  {
    if es != [] {
      LineIsEntries(netted, es[..|es| - 1], l);
      LeftIsUnseen(netted, es[..|es| - 1], es[|es| - 1].id);
    }
  }

  /** Each line of the worksheet is the headline rows, attributions, loans and work methods that reach it, and the strays on
      it, less the refunds of the expenses first visited there. */
  lemma {:induction false} LineIsItsRows(b: Ledger, ps: seq<Id>, l: Line)
    requires Lists(b, ps)
    ensures At(Sheeted(b, ps).lines, l) == Sum(b.spend, SpendOn(b, Only(l))) + Sum(b.claims, ClaimOn(b, Only(l)))
      + Sum(b.loans, LoanOn(Only(l))) + MethodOn(b, Only(l)) + Sum(b.spend, StrayOn(b, Only(l))) - OffLine(b.netted, Entries(b, ps), l)
  {
    LineIsEntries(b.netted, Entries(b, ps), l);
    EntriesRouted(b, ps, Only(l));
  }

  /** A headline row, and only that, reaches a line; an attribution of the individual's position does unless it is lost. */
  lemma {:induction false} OneLineEach(b: Ledger, s: Spend, c: Claim)
    ensures SpendLine(b, s).Some? <==> Headline(s, b.strict)
    ensures ClaimLine(b, c).Some? <==> Personal(c, b.strict) && !Lost(b, c)
  {
  }

  // ── Refunds land where their expense does ───────────────────────────────────────────────────────────

  /** Row ids are a primary key, and an attributed row is not read as a raw one. */
  predicate Keyed(b: Ledger) {
    && (forall i, j | 0 <= i < |b.spend| && 0 <= j < |b.spend| && b.spend[i].id == b.spend[j].id :: i == j)
    && forall s, c | s in b.spend && c in b.claims :: s.id != c.id
  }

  lemma {:induction false} InMap<T, U>(xs: seq<T>, f: T -> U, y: U) returns (x: T)
    requires y in Map(xs, f)
    ensures x in xs && f(x) == y
  {
    var i :| 0 <= i < |xs| && Map(xs, f)[i] == y;
    x := xs[i];
  }

  lemma {:induction false} SameSpend(b: Ledger, s: Spend, t: Spend)
    requires Keyed(b) && s in b.spend && t in b.spend && s.id == t.id
    ensures s == t
  {
    var i :| 0 <= i < |b.spend| && b.spend[i] == s;
    var j :| 0 <= j < |b.spend| && b.spend[j] == t;
  }

  /** Any entry that nets a headline row's refund is on the line that row reaches. */
  lemma {:induction false} RefundOnItsLine(b: Ledger, ps: seq<Id>, s: Spend, e: Entry)
    requires Keyed(b) && s in b.spend && Headline(s, b.strict) && e in Entries(b, ps) && e.nets && e.id == s.id
    ensures SpendLine(b, s) == Some(e.line)
  {
    var work := Work(b);
    FilterHolds(b.spend, WorkTest(b));
    FilterHolds(b.spend, ItemTest(b));
    if e in Map(Filter(b.spend, ItemTest(b)), ItemPut(b)) {
      var t := InMap(Filter(b.spend, ItemTest(b)), ItemPut(b), e);
      SameSpend(b, s, t);
    } else if e in Map(ps, PropertyPut(b)) {
      var p := InMap(ps, PropertyPut(b), e);
    } else if e in Map(Filter(work, UnlinkedTest()), UnlinkedPut()) {
      FilterHolds(work, UnlinkedTest());
      var t := InMap(Filter(work, UnlinkedTest()), UnlinkedPut(), e);
      SameSpend(b, s, t);
      assert IsWork(b, t);
    } else if e in Map(Filter(work, LabelTest()), LabelPut()) {
      FilterHolds(work, LabelTest());
      var t := InMap(Filter(work, LabelTest()), LabelPut(), e);
      SameSpend(b, s, t);
      assert IsWork(b, t);
    } else if e in Map(Filter(b.claims, ClaimTest(b)), ClaimPut()) {
      FilterHolds(b.claims, ClaimTest(b));
      var c := InMap(Filter(b.claims, ClaimTest(b)), ClaimPut(), e);
    }
  }

  /** The refunds that find a line: those of the headline rows, and of the attributions the worksheet lists itself. */
  lemma {:induction false} RefundVisited(b: Ledger, ps: seq<Id>, id: Id)
    ensures Seen(Entries(b, ps), id) <==>
      || (exists s | s in b.spend :: s.id == id && Headline(s, b.strict))
      || (exists c | c in b.claims :: c.id == id && Personal(c, b.strict) && (c.activity == RentalProperty ==> c.property == None))
  {
    if Seen(Entries(b, ps), id) { VisitedOnly(b, ps, id); }
    if s :| s in b.spend && s.id == id && Headline(s, b.strict) { SpendVisited(b, ps, s); }
    if c :| c in b.claims && c.id == id && Personal(c, b.strict) && (c.activity == RentalProperty ==> c.property == None) {
      FilterIn(b.claims, ClaimTest(b), c);
      MapIn(Filter(b.claims, ClaimTest(b)), ClaimPut(), c);
      assert ClaimEntry(c) in Entries(b, ps);
    }
  }

  lemma {:induction false} FilterIn<T>(xs: seq<T>, p: T -> bool, x: T)
    requires x in xs && p(x)
    ensures x in Filter(xs, p)
  {
    if x != xs[|xs| - 1] { FilterIn(xs[..|xs| - 1], p, x); }
  }

  lemma {:induction false} MapIn<T, U>(xs: seq<T>, f: T -> U, x: T)
    requires x in xs
    ensures f(x) in Map(xs, f)
  {
    var i :| 0 <= i < |xs| && xs[i] == x;
    assert Map(xs, f)[i] == f(x);
  }

  lemma {:induction false} SpendVisited(b: Ledger, ps: seq<Id>, s: Spend)
    requires s in b.spend && Headline(s, b.strict)
    ensures Seen(Entries(b, ps), s.id)
  {
    if IsItem(b, s) {
      FilterIn(b.spend, ItemTest(b), s);
      MapIn(Filter(b.spend, ItemTest(b)), ItemPut(b), s);
      assert ItemEntry(b, s) in Entries(b, ps);
    } else {
      FilterIn(b.spend, WorkTest(b), s);
      if IsPropertyBucket(s) {
        FilterIn(Work(b), UnlinkedTest(), s);
        MapIn(Filter(Work(b), UnlinkedTest()), UnlinkedPut(), s);
        assert UnlinkedEntry(s) in Entries(b, ps);
      } else {
        FilterIn(Work(b), LabelTest(), s);
        MapIn(Filter(Work(b), LabelTest()), LabelPut(), s);
        assert LabelEntry(s) in Entries(b, ps);
      }
    }
  }

  lemma {:induction false} VisitedOnly(b: Ledger, ps: seq<Id>, id: Id)
    requires Seen(Entries(b, ps), id)
    ensures (exists s | s in b.spend :: s.id == id && Headline(s, b.strict))
         || (exists c | c in b.claims :: c.id == id && Personal(c, b.strict) && (c.activity == RentalProperty ==> c.property == None))
  {
    var e :| e in Entries(b, ps) && e.nets && e.id == id;
    var work := Work(b);
    FilterHolds(b.spend, WorkTest(b));
    FilterHolds(b.spend, ItemTest(b));
    if e in Map(Filter(b.spend, ItemTest(b)), ItemPut(b)) {
      var t := InMap(Filter(b.spend, ItemTest(b)), ItemPut(b), e);
    } else if e in Map(ps, PropertyPut(b)) {
      var p := InMap(ps, PropertyPut(b), e);
    } else if e in Map(Filter(work, UnlinkedTest()), UnlinkedPut()) {
      FilterHolds(work, UnlinkedTest());
      var t := InMap(Filter(work, UnlinkedTest()), UnlinkedPut(), e);
      assert IsWork(b, t);
    } else if e in Map(Filter(work, LabelTest()), LabelPut()) {
      FilterHolds(work, LabelTest());
      var t := InMap(Filter(work, LabelTest()), LabelPut(), e);
      assert IsWork(b, t);
    } else if e in Map(Filter(b.claims, ClaimTest(b)), ClaimPut()) {
      FilterHolds(b.claims, ClaimTest(b));
      var c := InMap(Filter(b.claims, ClaimTest(b)), ClaimPut(), e);
    }
  }

  // ── The worksheet ties back, and exactly when ───────────────────────────────────────────────────────

  function SumLines(lines: map<Line, int>, ls: seq<Line>): int {
    if ls == [] then 0 else SumLines(lines, ls[..|ls| - 1]) + At(lines, ls[|ls| - 1])
  }

  function SumDue(left: map<Id, int>, ids: seq<Id>): int {
    if ids == [] then 0 else SumDue(left, ids[..|ids| - 1]) + Due(left, ids[|ids| - 1])
  }

  lemma {:induction false} SumLinesChange(lines: map<Line, int>, ls: seq<Line>, l: Line, x: int)
    requires Distinct(ls)
    ensures SumLines(lines[l := At(lines, l) + x], ls) == SumLines(lines, ls) + if l in ls then x else 0
  {
    if ls != [] {
      LastIsNew(ls);
      SumLinesChange(lines, ls[..|ls| - 1], l, x);
      assert forall m :: m in ls <==> m in ls[..|ls| - 1] || m == ls[|ls| - 1];
    }
  }

  lemma {:induction false} SumDueStrike(left: map<Id, int>, ids: seq<Id>, id: Id)
    requires Distinct(ids)
    ensures SumDue(left - {id}, ids) == SumDue(left, ids) - if id in ids then Due(left, id) else 0
  {
    if ids != [] {
      LastIsNew(ids);
      SumDueStrike(left, ids[..|ids| - 1], id);
      assert forall m :: m in ids <==> m in ids[..|ids| - 1] || m == ids[|ids| - 1];
    }
  }

  lemma {:induction false} SumNoLines(ls: seq<Line>)
    ensures SumLines(map[], ls) == 0
  {
    if ls != [] { SumNoLines(ls[..|ls| - 1]); }
  }

  /** The visible lines, over any list of distinct lines that has every entry's, sum to what was put on them less the refunds
      placed. */
  lemma {:induction false} LinesSum(netted: map<Id, int>, es: seq<Entry>, ls: seq<Line>)
    requires Distinct(ls) && forall e | e in es :: e.line in ls
    ensures SumLines(Filled(netted, es).lines, ls) == Filled(netted, es).sum == Sum(es, Picked(Every())) - Filled(netted, es).placed
  {
    if es == [] {
      SumNoLines(ls);
    } else {
      var init, e := es[..|es| - 1], es[|es| - 1];
      assert e in es && forall x | x in init :: x in es;
      LinesSum(netted, init, ls);
      var s := Filled(netted, init);
      SumLinesChange(s.lines, ls, e.line, e.cents - if e.nets then Due(s.left, e.id) else 0);
    }
  }

  /** No refund is lost or counted twice: placed and unplaced together are always what was netted. */
  lemma {:induction false} RefundsConserved(netted: map<Id, int>, es: seq<Entry>, ids: seq<Id>)
    requires Distinct(ids) && forall id | id in netted :: id in ids
    ensures Filled(netted, es).placed + SumDue(Filled(netted, es).left, ids) == SumDue(netted, ids)
  {
    if es != [] {
      var init, e := es[..|es| - 1], es[|es| - 1];
      RefundsConserved(netted, init, ids);
      var s := Filled(netted, init);
      LeftIsSub(netted, init, e.id);
      SumDueStrike(s.left, ids, e.id);
    }
  }

  lemma {:induction false} LeftIsSub(netted: map<Id, int>, es: seq<Entry>, id: Id)
    ensures id in Filled(netted, es).left ==> id in netted
  {
    if es != [] { LeftIsSub(netted, es[..|es| - 1], id); }
  }

  /** deductions_total_cents: the lines without the work methods, less the refunds that found no line, floored at zero. */
  function LinesTotal(b: Ledger, s: Sheet, refunds: int): int {
    Floor(s.sum - (b.wfh + b.car) - (refunds - s.placed)) + b.wfh + b.car
  }

  function Strays(b: Ledger): int { Sum(b.spend, StrayOn(b, Every())) }

  function LostCents(b: Ledger): int { Sum(b.claims, (c: Claim) => if Lost(b, c) then c.cents else 0) }

  lemma {:induction false} GrossOnLines(b: Ledger)
    ensures Sum(b.spend, SpendOn(b, Every())) + Sum(b.claims, ClaimOn(b, Every())) + Sum(b.loans, LoanOn(Every()))
         == Gross(b) - LostCents(b)
  {
    SumSame(b.spend, SpendOn(b, Every()), (s: Spend) => if Headline(s, b.strict) then s.cents else 0);
    SumSame(b.loans, LoanOn(Every()), (n: Loan) => n.cents);
    SumAdds(b.claims, ClaimOn(b, Every()), (c: Claim) => if Lost(b, c) then c.cents else 0, (c: Claim) => if Personal(c, b.strict) then c.cents else 0);
  }

  /**
   * The worksheet's total is the report's own deductions, plus the strays its rental lines carry, less the attributions no
   * line has; so it ties back if and only if those two amounts cancel, or refunds leave nothing to deduct either way.
   */
  lemma {:induction false} TiesBack(b: Ledger, ps: seq<Id>, ls: seq<Line>, refunds: int)
    requires Lists(b, ps) && Distinct(ls) && forall e | e in Entries(b, ps) :: e.line in ls
    ensures SumLines(Sheeted(b, ps).lines, ls) == Sheeted(b, ps).sum
    ensures LinesTotal(b, Sheeted(b, ps), refunds) == Floor(Gross(b) - refunds + Strays(b) - LostCents(b)) + b.wfh + b.car
    ensures LinesTotal(b, Sheeted(b, ps), refunds) == ReportDeductions(b, refunds) <==>
      Strays(b) == LostCents(b) || (Gross(b) <= refunds && Gross(b) + Strays(b) - LostCents(b) <= refunds)
  {
    LinesSum(b.netted, Entries(b, ps), ls);
    EntriesRouted(b, ps, Every());
    GrossOnLines(b);
  }

  /** With no company or unbucketed spend tagged to a listed property, and no attribution to a property the user rents as a
      tenant, the worksheet always ties back. */
  lemma {:induction false} CleanLedgerTiesBack(b: Ledger, ps: seq<Id>, ls: seq<Line>, refunds: int)
    requires Lists(b, ps) && Distinct(ls) && forall e | e in Entries(b, ps) :: e.line in ls
    requires (forall s | s in b.spend :: !Stray(b, s)) && forall c | c in b.claims :: !Lost(b, c)
    ensures LinesTotal(b, Sheeted(b, ps), refunds) == ReportDeductions(b, refunds)
  {
    TiesBack(b, ps, ls, refunds);
    SumZero(b.spend, StrayOn(b, Every()));
    SumZero(b.claims, (c: Claim) => if Lost(b, c) then c.cents else 0);
  }

  /** Nothing stays unplaced when every netted expense is visited. */
  lemma {:induction false} AllPlaced(b: Ledger, ps: seq<Id>, ids: seq<Id>)
    requires Distinct(ids) && (forall id | id in b.netted :: id in ids && Seen(Entries(b, ps), id))
    ensures Sheeted(b, ps).placed == SumDue(b.netted, ids)
  {
    RefundsConserved(b.netted, Entries(b, ps), ids);
    forall id ensures Due(Sheeted(b, ps).left, id) == 0 {
      LeftIsUnseen(b.netted, Entries(b, ps), id);
    }
    NothingDue(Sheeted(b, ps).left, ids);
  }

  lemma {:induction false} NothingDue(left: map<Id, int>, ids: seq<Id>)
    requires forall id :: Due(left, id) == 0
    ensures SumDue(left, ids) == 0
  {
    if ids != [] { NothingDue(left, ids[..|ids| - 1]); }
  }
}
