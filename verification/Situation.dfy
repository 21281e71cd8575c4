/**
 * Dated situation periods (src/lib/situation-profile.ts and src/lib/situation-write.ts): at most one answer to a
 * single-valued question on any day, over every run of create, first-run fill, edit and delete, and the occupation
 * column that mirrors the longest job. Dates are day numbers; a missing end is open.
 */
module Situation {
  import opened Options
  import opened Calendar

  type Id = int

  const MAX_PERIODS_PER_FACT := 20
  const NOT_WORKING := "none"

  datatype Fact = Employment | AbnActivity | Single(name: string)

  datatype Period = Period(id: Id, person: Id, fact: Fact, value: string, start: Option<int>, end: Option<int>)

  /** The periods on file, and the occupation column of every person on file. */
  datatype Book = Book(periods: seq<Period>, occupation: map<Id, Option<string>>)

  // ── Ranges ──────────────────────────────────────────────────────────────────────────────────────────

  predicate Covers(p: Period, d: int) { (p.start.Some? ==> p.start.value <= d) && (p.end.Some? ==> d <= p.end.value) }

  predicate Ordered(p: Period) { p.start.Some? && p.end.Some? ==> p.start.value <= p.end.value }

  predicate Overlap(aStart: Option<int>, aEnd: Option<int>, bStart: Option<int>, bEnd: Option<int>) {
    && (aStart == None || bEnd == None || aStart.value <= bEnd.value)
    && (bStart == None || aEnd == None || bStart.value <= aEnd.value)
  }

  predicate Meet(p: Period, q: Period) { Overlap(p.start, p.end, q.start, q.end) }

  /** A day both periods cover, when there is one. */
  function CommonDay(p: Period, q: Period): int {
    if p.start.Some? && q.start.Some? then (if p.start.value < q.start.value then q.start.value else p.start.value)
    else if p.start.Some? then p.start.value else if q.start.Some? then q.start.value
    else if p.end.Some? && q.end.Some? then (if p.end.value < q.end.value then p.end.value else q.end.value)
    else if p.end.Some? then p.end.value else q.end.GetOr(0)
  }

  lemma {:induction false} MeetIff(p: Period, q: Period)
    requires Ordered(p) && Ordered(q)
    ensures Meet(p, q) <==> exists d :: Covers(p, d) && Covers(q, d)
  {
    if Meet(p, q) { assert Covers(p, CommonDay(p, q)) && Covers(q, CommonDay(p, q)); }
  }

  datatype Span = Span(first: int, last: int) {
    function Days(): int { last - first + 1 }
  }

  function Clip(p: Period, lo: int, hi: int): Option<Span> {
    if !Overlap(p.start, p.end, Some(lo), Some(hi)) then None else
    Some(Span(if p.start.Some? && p.start.value > lo then p.start.value else lo,
              if p.end.Some? && p.end.value < hi then p.end.value else hi))
  }

  /** Clipping to a year keeps exactly the period's days in that year. */
  lemma {:induction false} ClipExact(p: Period, lo: int, hi: int, d: int)
    requires lo <= hi && Ordered(p)
    ensures var c := Clip(p, lo, hi); (c.Some? && c.value.first <= d <= c.value.last) <==> Covers(p, d) && lo <= d <= hi
    ensures Clip(p, lo, hi).Some? ==> Clip(p, lo, hi).value.Days() >= 1
  {
  }

  // ── Validation ──────────────────────────────────────────────────────────────────────────────────────

  datatype Error = Malformed | EndsBeforeStart | TooMany | AlreadyAnswered(clash: Period) | NoPerson | NoPeriod | NoSuchRef

  /** The person's own periods of one fact; a deleted person's are hidden. */
  function Siblings(b: Book, person: Id, fact: Fact): seq<Period> {
    if person in b.occupation then Of(b.periods, person, fact) else []
  }

  function Of(ps: seq<Period>, person: Id, fact: Fact): (kept: seq<Period>)
    ensures forall p :: p in kept <==> p in ps && p.person == person && p.fact == fact
  {
    if ps == [] then [] else
    var init, p := ps[..|ps| - 1], ps[|ps| - 1];
    assert forall x :: x in ps <==> x in init || x == p;
    if p.person == person && p.fact == fact then Of(init, person, fact) + [p] else Of(init, person, fact)
  }

  function Except(ps: seq<Period>, id: Id): (kept: seq<Period>)
    ensures forall p :: p in kept <==> p in ps && p.id != id
  {
    if ps == [] then [] else
    var init, p := ps[..|ps| - 1], ps[|ps| - 1];
    assert forall x :: x in ps <==> x in init || x == p;
    if p.id == id then Except(init, id) else Except(init, id) + [p]
  }

  function FirstClash(p: Period, others: seq<Period>): (c: Option<Period>)
    ensures c == None <==> forall q | q in others :: !Meet(p, q)
    ensures c.Some? ==> c.value in others && Meet(p, c.value)
  {
    if others == [] then None
    else if Meet(p, others[0]) then Some(others[0])
    else FirstClash(p, others[1..])
  }

  predicate Multi(f: Fact) { !f.Single? }

  /** `wellFormed` is the pack's verdict on the fact, its value and the shape of the dates. */
  function Validate(p: Period, wellFormed: bool, others: seq<Period>): Option<Error> {
    if !wellFormed || p.value == "" then Some(Malformed)
    else if !Ordered(p) then Some(EndsBeforeStart)
    else if |others| >= MAX_PERIODS_PER_FACT then Some(TooMany)
    else if Multi(p.fact) then None
    else match FirstClash(p, others) case Some(c) => Some(AlreadyAnswered(c)) case None => None
  }

  // ── The occupation mirror ───────────────────────────────────────────────────────────────────────────

  /** The latest year, up to the current one, that a period reaches; none when it is wholly in the future. */
  function Reach(p: Period, current: int): Option<int> {
    if p.start.Some? && FyOf(p.start.value) > current then None else
    var end := if p.end.Some? then FyOf(p.end.value) else current;
    Some(if end < current then end else current)
  }

  function Best(ps: seq<Period>, person: Id, fact: Fact, current: int): (best: Option<int>) {
    if ps == [] then None else
    var rest, p := Best(ps[..|ps| - 1], person, fact, current), ps[|ps| - 1];
    if p.person != person || p.fact != fact then rest else
    match Reach(p, current)
    case None => rest
    case Some(y) => if rest == None || y > rest.value then Some(y) else rest
  }

  function MirrorFy(ps: seq<Period>, person: Id, fact: Fact, current: int): int { Best(ps, person, fact, current).GetOr(current) }

  method FindMirrorFy(ps: seq<Period>, person: Id, fact: Fact, current: int) returns (fy: int)
    ensures fy == MirrorFy(ps, person, fact, current)
  {
    var best: Option<int> := None;
    for i := 0 to |ps|
      invariant best == Best(ps[..i], person, fact, current)
    {
      assert ps[..i + 1][..i] == ps[..i];
      var p := ps[i];
      if p.person != person || p.fact != fact { continue; }
      if p.start.Some? && FyOf(p.start.value) > current { continue; }
      var endFy := if p.end.Some? then FyOf(p.end.value) else current;
      var eff := if endFy < current then endFy else current;
      if best == None || eff > best.value { best := Some(eff); }
    }
    assert ps[..|ps|] == ps;
    fy := best.GetOr(current);
  }

  predicate InYear(p: Period, person: Id, fy: int) {
    p.person == person && p.fact == Employment && Clip(p, FyStart(fy), FyEnd(fy)).Some?
  }

  predicate IsJob(p: Period, person: Id, fy: int) { InYear(p, person, fy) && p.value != "" && p.value != NOT_WORKING }

  function DaysIn(p: Period, fy: int): int
    requires Clip(p, FyStart(fy), FyEnd(fy)).Some?
  {
    Clip(p, FyStart(fy), FyEnd(fy)).value.Days()
  }

  function StartIn(p: Period, fy: int): int
    requires Clip(p, FyStart(fy), FyEnd(fy)).Some?
  {
    Clip(p, FyStart(fy), FyEnd(fy)).value.first
  }

  /** Longest first, then earliest start, then lowest id: the order the jobs are sorted in. */
  predicate Ahead(p: Period, q: Period, person: Id, fy: int)
    requires IsJob(p, person, fy) && IsJob(q, person, fy)
  {
    || DaysIn(p, fy) > DaysIn(q, fy)
    || (DaysIn(p, fy) == DaysIn(q, fy) && StartIn(p, fy) < StartIn(q, fy))
    || (DaysIn(p, fy) == DaysIn(q, fy) && StartIn(p, fy) == StartIn(q, fy) && p.id <= q.id)
  }

  function LongestJob(ps: seq<Period>, person: Id, fy: int): (job: Option<Period>)
    ensures job.Some? ==> job.value in ps && IsJob(job.value, person, fy)
    ensures job.Some? ==> forall q | q in ps && IsJob(q, person, fy) :: Ahead(job.value, q, person, fy)
    ensures job == None ==> forall q | q in ps :: !IsJob(q, person, fy)
  {
    if ps == [] then None else
    var init, p := ps[..|ps| - 1], ps[|ps| - 1];
    assert forall x :: x in ps <==> x in init || x == p;
    var rest := LongestJob(init, person, fy);
    if !IsJob(p, person, fy) then rest
    else if rest == None || !Ahead(rest.value, p, person, fy) then Some(p) else rest
  }

  datatype Change = Keep | Set(occupation: Option<string>)

  function Mirror(ps: seq<Period>, person: Id, fy: int): Change {
    match LongestJob(ps, person, fy)
    case Some(job) => Set(Some(job.value))
    case None => if exists p | p in ps :: InYear(p, person, fy) && p.value == NOT_WORKING then Set(None) else Keep
  }

  function Apply(occupation: map<Id, Option<string>>, person: Id, c: Change): map<Id, Option<string>> {
    match c case Keep => occupation case Set(o) => occupation[person := o]
  }

  // ── The writes ──────────────────────────────────────────────────────────────────────────────────────

  /** A create: `id` is new, `refOk` says a linked record (if any) is the tenant's own. */
  datatype Input = Input(id: Id, person: Id, fact: Fact, value: string, start: Option<int>, end: Option<int>, wellFormed: bool, refOk: bool)

  /** An edit: a missing key keeps the stored value, a present one replaces it (None clears a date). */
  datatype Patch = Patch(value: Option<string>, start: Option<Option<int>>, end: Option<Option<int>>, wellFormed: bool, refOk: bool)

  datatype Reply = Wrote(period: Period) | Skipped(period: Period) | Refused(error: Error) | Removed

  /** A create with no dates spans the active year. */
  function Dated(i: Input, fy: int): Period {
    if i.start == None && i.end == None then Period(i.id, i.person, i.fact, i.value, Some(FyStart(fy)), Some(FyEnd(fy)))
    else Period(i.id, i.person, i.fact, i.value, i.start, i.end)
  }

  function Patched(p: Period, e: Patch): Period {
    p.(value := e.value.GetOr(p.value), start := e.start.GetOr(p.start), end := e.end.GetOr(p.end))
  }

  function Mirrored(b: Book, post: seq<Period>, next: Period, current: int): map<Id, Option<string>> {
    if next.fact != Employment then b.occupation
    else Apply(b.occupation, next.person, Mirror(post, next.person, MirrorFy(post, next.person, Employment, current)))
  }

  function Create(b: Book, i: Input, fy: int, fill: bool, current: int): (Book, Reply) {
    var next := Dated(i, fy);
    var siblings := Siblings(b, next.person, next.fact);
    var shape, clash := Validate(next, i.wellFormed, []), FirstClash(next, siblings);
    if fill && shape.Some? then (b, Refused(shape.value))
    else if fill && clash.Some? then (b, Skipped(clash.value))
    else
      var err := Validate(next, i.wellFormed, siblings);
      if err.Some? then (b, Refused(err.value))
      else if next.person !in b.occupation then (b, Refused(NoPerson))
      else if !i.refOk then (b, Refused(NoSuchRef))
      else (Book(b.periods + [next], Mirrored(b, b.periods + [next], next, current)), Wrote(next))
  }

  function Find(ps: seq<Period>, id: Id): (found: Option<Period>)
    ensures found.Some? ==> found.value in ps && found.value.id == id
    ensures found == None ==> forall p | p in ps :: p.id != id
  {
    if ps == [] then None else if ps[0].id == id then Some(ps[0]) else Find(ps[1..], id)
  }

  function Replaced(ps: seq<Period>, next: Period): (out: seq<Period>)
    ensures |out| == |ps| && forall i | 0 <= i < |ps| :: out[i] == if ps[i].id == next.id then next else ps[i]
  {
    seq(|ps|, i requires 0 <= i < |ps| => if ps[i].id == next.id then next else ps[i])
  }

  function Edit(b: Book, id: Id, e: Patch, current: int): (Book, Reply) {
    match Find(b.periods, id)
    case None => (b, Refused(NoPeriod))
    case Some(prior) =>
      var next := Patched(prior, e);
      var err := Validate(next, e.wellFormed, Except(Siblings(b, prior.person, prior.fact), id));
      if err.Some? then (b, Refused(err.value))
      else if prior.person !in b.occupation then (b, Refused(NoPerson))
      else if !e.refOk then (b, Refused(NoSuchRef))
      else (Book(Replaced(b.periods, next), Mirrored(b, Except(b.periods, id) + [next], next, current)), Wrote(next))
  }

  /** What a delete does to the mirror: recomputed from the fact's other periods, or reverted when there are none. */
  function AfterDelete(b: Book, prior: Period, remaining: seq<Period>, current: int): map<Id, Option<string>> {
    if prior.person !in b.occupation || prior.fact != Employment then b.occupation
    else if exists p | p in remaining :: p.person == prior.person && p.fact == Employment then Mirrored(b, remaining, prior, current)
    else if prior.value != NOT_WORKING && b.occupation[prior.person] == Some(prior.value) then b.occupation[prior.person := None]
    else b.occupation
  }

  function Delete(b: Book, id: Id, current: int): (Book, Reply) {
    match Find(b.periods, id)
    case None => (b, Refused(NoPeriod))
    case Some(prior) =>
      var remaining := Except(b.periods, id);
      (Book(remaining, AfterDelete(b, prior, remaining, current)), Removed)
  }

  /** A column that was sent holds what was sent, a date sent as none is cleared, and every other column is as it was. */
  predicate Carries(before: Period, e: Patch, after: Period) {
    && after.id == before.id && after.person == before.person && after.fact == before.fact
    && (if e.value == None then after.value == before.value else Some(after.value) == e.value)
    && (if e.start == None then after.start == before.start else Some(after.start) == e.start)
    && (if e.end == None then after.end == before.end else Some(after.end) == e.end)
  }

  lemma {:induction false} PatchedCarries(p: Period, e: Patch)
    ensures Carries(p, e, Patched(p, e))
  {
  }

  class SituationBook {
    var periods: seq<Period>
    var occupation: map<Id, Option<string>>

    constructor (b: Book)
      ensures View() == b
    {
      periods, occupation := b.periods, b.occupation;
    }

    ghost function View(): Book
      reads this
    {
      Book(periods, occupation)
    }

    method Refile(next: Period, post: seq<Period>, current: int)
      modifies `occupation
      ensures occupation == Mirrored(old(View()), post, next, current)
    {
      if next.fact == Employment {
        var fy := FindMirrorFy(post, next.person, Employment, current);
        occupation := Apply(occupation, next.person, Mirror(post, next.person, fy));
      }
    }

    /** POST: a create, or with `fill` the first-run fill. It adds one period that meets no rival, or changes nothing; a fill
        that meets an answer of its question hands that answer back. */
    method Post(i: Input, fy: int, fill: bool, current: int) returns (r: Reply)
      modifies this
      ensures (View(), r) == Create(old(View()), i, fy, fill, current)
      ensures if r.Wrote? then periods == old(periods) + [r.period] else View() == old(View())
      ensures r.Wrote? ==> r.period.id == i.id && r.period.person == i.person && r.period.fact == i.fact && r.period.value == i.value
      ensures r.Wrote? ==> if i.start.Some? || i.end.Some? then r.period.start == i.start && r.period.end == i.end
                           else r.period.start == Some(FyStart(fy)) && r.period.end == Some(FyStart(fy + 1) - 1)
      ensures r.Wrote? && (fill || r.period.fact.Single?) ==> forall q | q in Siblings(old(View()), r.period.person, r.period.fact) :: !Meet(r.period, q)
      ensures r.Skipped? ==> fill && r.period in old(periods) && Meet(Dated(i, fy), r.period)
      ensures Sound(old(periods)) && (forall p | p in old(periods) :: p.id != i.id) ==> Sound(periods)
    {
      CreateKeepsSound(View(), i, fy, fill, current);
      var next := Dated(i, fy);
      var siblings := Siblings(Book(periods, occupation), next.person, next.fact);
      if fill {
        var shape := Validate(next, i.wellFormed, []);
        if shape.Some? { return Refused(shape.value); }
        var clash := FirstClash(next, siblings);
        if clash.Some? { return Skipped(clash.value); }
      }
      var err := Validate(next, i.wellFormed, siblings);
      if err.Some? { return Refused(err.value); }
      if next.person !in occupation { return Refused(NoPerson); }
      if !i.refOk { return Refused(NoSuchRef); }
      Refile(next, periods + [next], current);
      periods := periods + [next];
      r := Wrote(next);
    }

    /** PATCH: the one period changes, in place and keeping its person and question, or nothing does. */
    method PatchPeriod(id: Id, e: Patch, current: int) returns (r: Reply)
      modifies this
      ensures (View(), r) == Edit(old(View()), id, e, current)
      ensures if r.Wrote? then |periods| == |old(periods)| && r.period.id == id else View() == old(View())
      ensures r.Wrote? ==> forall k | 0 <= k < |periods| :: periods[k] == if old(periods)[k].id == id then r.period else old(periods)[k]
      ensures r.Wrote? ==> exists p | p in old(periods) :: p.id == id && Carries(p, e, r.period)
      ensures Sound(old(periods)) ==> Sound(periods)
    {
      EditKeepsSound(View(), id, e, current);
      var prior := Find(periods, id);
      if prior == None { return Refused(NoPeriod); }
      var next := Patched(prior.value, e);
      var err := Validate(next, e.wellFormed, Except(Siblings(Book(periods, occupation), next.person, next.fact), id));
      if err.Some? { return Refused(err.value); }
      if next.person !in occupation { return Refused(NoPerson); }
      if !e.refOk { return Refused(NoSuchRef); }
      PatchedCarries(prior.value, e);
      Refile(next, Except(periods, id) + [next], current);
      periods := Replaced(periods, next);
      r := Wrote(next);
    }

    /** DELETE: exactly the one period goes; no one else's occupation changes. */
    method DeletePeriod(id: Id, current: int) returns (r: Reply)
      modifies this
      ensures (View(), r) == Delete(old(View()), id, current)
      ensures r.Removed? <==> exists p | p in old(periods) :: p.id == id
      ensures forall p :: p in periods <==> p in old(periods) && p.id != id
      ensures forall x | x in old(occupation) && (forall p | p in old(periods) && p.id == id :: p.person != x) ::
        x in occupation && occupation[x] == old(occupation)[x]
      ensures Sound(old(periods)) ==> Sound(periods)
    {
      DeleteMeans(View(), id, current);
      var prior := Find(periods, id);
      if prior == None { return Refused(NoPeriod); }
      var p, remaining := prior.value, Except(periods, id);
      if p.person in occupation && p.fact == Employment {
        if exists q | q in remaining :: q.person == p.person && q.fact == Employment {
          Refile(p, remaining, current);
        } else if p.value != NOT_WORKING && occupation[p.person] == Some(p.value) {
          occupation := occupation[p.person := None];
        }
      }
      periods := remaining;
      r := Removed;
    }
  }

  // ── One answer at a time, over every run ────────────────────────────────────────────────────────────

  predicate Rival(p: Period, q: Period) { p.id != q.id && p.person == q.person && p.fact == q.fact && p.fact.Single? }

  /** Ids are keys, dates are in order, every answer says something, and no two answers to one single-valued question meet. */
  predicate Sound(ps: seq<Period>) {
    && (forall i, j | 0 <= i < j < |ps| :: ps[i].id != ps[j].id)
    && (forall p | p in ps :: Ordered(p) && p.value != "")
    && (forall p, q | p in ps && q in ps && Rival(p, q) :: !Meet(p, q))
  }

  datatype Event =
    | Post(input: Input, fy: int, fill: bool)
    | Change(id: Id, patch: Patch)
    | Remove(id: Id)
    | PersonGone(person: Id)                       // the person's periods stay and are hidden
    | PersonBack(person: Id, occupation: Option<string>)
    | Settings(person: Id, occupation: Option<string>)  // the column is typed over

  predicate Possible(b: Book, e: Event) { e.Post? ==> forall p | p in b.periods :: p.id != e.input.id }

  function Next(b: Book, e: Event, current: int): Book {
    match e
    case Post(i, fy, fill) => Create(b, i, fy, fill, current).0
    case Change(id, patch) => Edit(b, id, patch, current).0
    case Remove(id) => Delete(b, id, current).0
    case PersonGone(person) => b.(occupation := b.occupation - {person})
    case PersonBack(person, o) => b.(occupation := b.occupation[person := o])
    case Settings(person, o) => if person in b.occupation then b.(occupation := b.occupation[person := o]) else b
  }

  /** A person who goes takes no period with them and comes back with the occupation given; typing one over changes only theirs. */
  lemma {:induction false} PeopleMean(b: Book, person: Id, o: Option<string>, current: int, x: Id)
    ensures var gone, back, typed := Next(b, PersonGone(person), current), Next(b, PersonBack(person, o), current), Next(b, Settings(person, o), current);
      && gone.periods == back.periods == typed.periods == b.periods
      && (x in gone.occupation <==> x in b.occupation && x != person) && (x in back.occupation <==> x in b.occupation || x == person)
      && (x in typed.occupation <==> x in b.occupation)
      && (x in b.occupation && x != person ==> gone.occupation[x] == back.occupation[x] == typed.occupation[x] == b.occupation[x])
      && back.occupation[person] == o && (person in b.occupation ==> typed.occupation[person] == o)
  {
  }

  lemma {:induction false} ValidMeetsNone(p: Period, wellFormed: bool, others: seq<Period>)
    requires Validate(p, wellFormed, others) == None
    ensures Ordered(p) && p.value != "" && |others| < MAX_PERIODS_PER_FACT && (p.fact.Single? ==> forall q | q in others :: !Meet(p, q) && !Meet(q, p))
  {
  }

  lemma {:induction false} CreateSound(b: Book, i: Input, fy: int, fill: bool, current: int)
    requires Sound(b.periods) && forall p | p in b.periods :: p.id != i.id
    ensures Sound(Create(b, i, fy, fill, current).0.periods)
  {
    var next := Dated(i, fy);
    var siblings := Siblings(b, next.person, next.fact);
    if Create(b, i, fy, fill, current).1.Wrote? {
      ValidMeetsNone(next, i.wellFormed, siblings);
      var ps := b.periods + [next];
      forall p, q | p in ps && q in ps && Rival(p, q) ensures !Meet(p, q) {
        if p == next { assert q in siblings; } else if q == next { assert p in siblings; }
      }
      forall m, n | 0 <= m < n < |ps| ensures ps[m].id != ps[n].id {
        if n == |b.periods| { assert b.periods[m] in b.periods; }
      }
    }
  }

  lemma {:induction false} CreateKeepsSound(b: Book, i: Input, fy: int, fill: bool, current: int)
    ensures Sound(b.periods) && (forall p | p in b.periods :: p.id != i.id) ==> Sound(Create(b, i, fy, fill, current).0.periods)
  {
    if Sound(b.periods) && forall p | p in b.periods :: p.id != i.id { CreateSound(b, i, fy, fill, current); }
  }

  lemma {:induction false} SameId(ps: seq<Period>, p: Period, q: Period)
    requires Sound(ps) && p in ps && q in ps && p.id == q.id
    ensures p == q
  {
    var i :| 0 <= i < |ps| && ps[i] == p;
    var j :| 0 <= j < |ps| && ps[j] == q;
  }

  lemma {:induction false} ReplacedIn(ps: seq<Period>, next: Period, p: Period)
    requires p in Replaced(ps, next)
    ensures p == next || (p in ps && p.id != next.id)
  {
    var i :| 0 <= i < |ps| && Replaced(ps, next)[i] == p;
  }

  lemma {:induction false} EditSound(b: Book, id: Id, e: Patch, current: int)
    requires Sound(b.periods)
    ensures Sound(Edit(b, id, e, current).0.periods)
  {
    if Edit(b, id, e, current).1.Wrote? {
      var prior := Find(b.periods, id).value;
      var next := Patched(prior, e);
      var others := Except(Siblings(b, prior.person, prior.fact), id);
      ValidMeetsNone(next, e.wellFormed, others);
      var ps := Replaced(b.periods, next);
      forall p | p in ps ensures Ordered(p) && p.value != "" { ReplacedIn(b.periods, next, p); }
      forall p, q | p in ps && q in ps && Rival(p, q) ensures !Meet(p, q) {
        ReplacedIn(b.periods, next, p);
        ReplacedIn(b.periods, next, q);
        if p == next { assert q in others; } else if q == next { assert p in others; }
      }
    }
  }

  lemma {:induction false} EditKeepsSound(b: Book, id: Id, e: Patch, current: int)
    ensures Sound(b.periods) ==> Sound(Edit(b, id, e, current).0.periods)
  {
    if Sound(b.periods) { EditSound(b, id, e, current); }
  }

  lemma {:induction false} ExceptSound(ps: seq<Period>, id: Id)
    requires Sound(ps)
    ensures Sound(Except(ps, id))
  {
    if ps != [] {
      var init, p := ps[..|ps| - 1], ps[|ps| - 1];
      assert forall x | x in init :: x in ps;
      ExceptSound(init, id);
      var kept := Except(init, id);
      forall i | 0 <= i < |kept| ensures kept[i].id != p.id {
        assert kept[i] in init;
        var j :| 0 <= j < |init| && init[j] == kept[i];
        assert ps[j].id != ps[|init|].id;
      }
    }
  }

  lemma {:induction false} ExceptKeepsSound(ps: seq<Period>, id: Id)
    ensures Sound(ps) ==> Sound(Except(ps, id))
  {
    if Sound(ps) { ExceptSound(ps, id); }
  }

  lemma {:induction false} DeleteMeans(b: Book, id: Id, current: int)
    ensures var (c, r) := Delete(b, id, current);
      && (r.Removed? <==> exists p | p in b.periods :: p.id == id)
      && (forall p :: p in c.periods <==> p in b.periods && p.id != id)
      && (forall x | x in b.occupation && (forall p | p in b.periods && p.id == id :: p.person != x) ::
            x in c.occupation && c.occupation[x] == b.occupation[x])
      && (Sound(b.periods) ==> Sound(c.periods))
  {
    ExceptKeepsSound(b.periods, id);
  }

  lemma {:induction false} StepSound(b: Book, e: Event, current: int)
    requires Sound(b.periods) && Possible(b, e)
    ensures Sound(Next(b, e, current).periods)
  {
    match e
    case Post(i, fy, fill) => CreateSound(b, i, fy, fill, current);
    case Change(id, patch) => EditSound(b, id, patch, current);
    case Remove(id) => ExceptSound(b.periods, id);
    case PersonGone(person) =>
    case PersonBack(person, o) =>
    case Settings(person, o) =>
  }

  predicate IsRun(books: seq<Book>, events: seq<Event>, today: seq<int>) {
    && |books| == |events| + 1 && |today| == |events|
    && forall i | 0 <= i < |events| :: Possible(books[i], events[i]) && books[i + 1] == Next(books[i], events[i], today[i])
  }

  /** Over every run, on any day, a person has at most one answer to a single-valued question. */
  lemma {:induction false} RunSound(books: seq<Book>, events: seq<Event>, today: seq<int>, n: nat)
    requires IsRun(books, events, today) && Sound(books[0].periods) && n <= |events|
    ensures Sound(books[n].periods)
  {
    if n > 0 {
      var i := n - 1;
      RunSound(books, events, today, i);
      assert books[i + 1] == Next(books[i], events[i], today[i]);
      StepSound(books[i], events[i], today[i]);
    }
  }

  lemma {:induction false} OneAnswerADay(ps: seq<Period>, p: Period, q: Period, d: int)
    requires Sound(ps) && p in ps && q in ps && Covers(p, d) && Covers(q, d)
    requires p.person == q.person && p.fact == q.fact && p.fact.Single?
    ensures p == q
  {
    if p.id == q.id {
      SameId(ps, p, q);
    } else {
      MeetIff(p, q);
      assert Rival(p, q);
    }
  }

  // ── What is written, refused and skipped, in the columns of the request ─────────────────────────────

  /** The two spans share a day. */
  predicate Crosses(s: Option<int>, e: Option<int>, q: Period) {
    (s.Some? && q.end.Some? ==> s.value <= q.end.value) && (q.start.Some? && e.Some? ==> q.start.value <= e.value)
  }

  /** The person's other answers to the question, `id` left out. */
  predicate OtherAnswer(b: Book, q: Period, person: Id, fact: Fact, id: Id) {
    person in b.occupation && q in b.periods && q.person == person && q.fact == fact && q.id != id
  }

  /** The answer makes sense by itself. */
  predicate Sensible(wellFormed: bool, value: string, s: Option<int>, e: Option<int>) {
    wellFormed && |value| > 0 && (s.Some? && e.Some? ==> s.value <= e.value)
  }

  /** Where the person's answers to the question are on file. */
  function AnswersAt(ps: seq<Period>, person: Id, fact: Fact): set<int> { set k | 0 <= k < |ps| && ps[k].person == person && ps[k].fact == fact }

  lemma {:induction false} AnswersSnoc(ps: seq<Period>, p: Period, person: Id, fact: Fact)
    ensures |AnswersAt(ps + [p], person, fact)| == |AnswersAt(ps, person, fact)| + if p.person == person && p.fact == fact then 1 else 0
  {
    var before, now := AnswersAt(ps, person, fact), AnswersAt(ps + [p], person, fact);
    assert now == if p.person == person && p.fact == fact then before + {|ps|} else before;
  }

  lemma {:induction false} OfCount(ps: seq<Period>, person: Id, fact: Fact)
    ensures |Of(ps, person, fact)| == |AnswersAt(ps, person, fact)|
  {
    if ps != [] {
      var init, p := ps[..|ps| - 1], ps[|ps| - 1];
      assert ps == init + [p];
      OfCount(init, person, fact);
      AnswersSnoc(init, p, person, fact);
      OfSnoc(init, p, person, fact);
    }
  }

  /** A create is written exactly when it makes sense, the person and any linked record exist, the person has fewer than twenty
      answers to the question, and, where one answer at a time is allowed or the request is a fill, no other shares a day with
      it; a fill that makes sense is skipped exactly when one does. */
  lemma {:induction false} CreateIff(b: Book, i: Input, fy: int, fill: bool, current: int)
    requires forall p | p in b.periods :: p.id != i.id
    ensures var r := Create(b, i, fy, fill, current).1; var whole := i.start == None && i.end == None;
      var s, e := (if whole then Some(FyStart(fy)) else i.start), (if whole then Some(FyStart(fy + 1) - 1) else i.end);
      var clash := exists q :: OtherAnswer(b, q, i.person, i.fact, i.id) && Crosses(s, e, q);
      && (r.Wrote? <==>
            && Sensible(i.wellFormed, i.value, s, e) && i.refOk && i.person in b.occupation
            && |AnswersAt(b.periods, i.person, i.fact)| < 20
            && (fill || (i.fact != Employment && i.fact != AbnActivity) ==> !clash))
      && (r.Skipped? <==> fill && Sensible(i.wellFormed, i.value, s, e) && clash)
  {
    var next := Dated(i, fy);
    var siblings := Siblings(b, next.person, next.fact);
    OfCount(b.periods, i.person, i.fact);
    forall q ensures q in siblings <==> OtherAnswer(b, q, i.person, i.fact, i.id) {}
    forall q ensures Meet(next, q) <==> Crosses(next.start, next.end, q) {}
  }

  /** An edit of a period on file is written exactly when what it would say makes sense, the person and any linked record exist,
      fewer than twenty other answers to the question do, and, where one answer at a time is allowed, none shares a day. */
  lemma {:induction false} EditIff(b: Book, p: Period, e: Patch, next: Period, current: int)
    requires Sound(b.periods) && p in b.periods && Carries(p, e, next)
    ensures var r := Edit(b, p.id, e, current).1;
      var others := Except(Siblings(b, p.person, p.fact), p.id);
      && (r == Wrote(next) <==>
            && Sensible(e.wellFormed, next.value, next.start, next.end) && e.refOk && p.person in b.occupation && |others| < 20
            && (p.fact != Employment && p.fact != AbnActivity ==> forall q | OtherAnswer(b, q, p.person, p.fact, p.id) :: !Crosses(next.start, next.end, q)))
      && (r.Wrote? ==> r == Wrote(next))
      && forall q :: q in others <==> OtherAnswer(b, q, p.person, p.fact, p.id)
  {
    SameId(b.periods, p, Find(b.periods, p.id).value);
    assert Patched(p, e) == next;
    var others := Except(Siblings(b, p.person, p.fact), p.id);
    forall q ensures q in others <==> OtherAnswer(b, q, p.person, p.fact, p.id) {}
    forall q ensures Meet(next, q) <==> Crosses(next.start, next.end, q) {}
  }

  // ── At most twenty answers to a question ────────────────────────────────────────────────────────────

  ghost predicate Bounded(ps: seq<Period>) { forall person, fact :: |Of(ps, person, fact)| <= MAX_PERIODS_PER_FACT }

  lemma {:induction false} OfExcept(ps: seq<Period>, id: Id, person: Id, fact: Fact)
    ensures |Of(Except(ps, id), person, fact)| <= |Of(ps, person, fact)|
  {
    if ps != [] {
      var init, p := ps[..|ps| - 1], ps[|ps| - 1];
      OfExcept(init, id, person, fact);
      if p.id != id { assert (Except(init, id) + [p])[..|Except(init, id)|] == Except(init, id); }
    }
  }

  lemma {:induction false} OfSnoc(ps: seq<Period>, p: Period, person: Id, fact: Fact)
    ensures |Of(ps + [p], person, fact)| == |Of(ps, person, fact)| + if p.person == person && p.fact == fact then 1 else 0
  {
    assert (ps + [p])[..|ps|] == ps;
  }

  lemma {:induction false} ReplacedSnoc(ps: seq<Period>, p: Period, next: Period)
    ensures Replaced(ps + [p], next) == Replaced(ps, next) + [if p.id == next.id then next else p]
  {
  }

  lemma {:induction false} OfReplaced(ps: seq<Period>, next: Period, person: Id, fact: Fact)
    requires forall p | p in ps && p.id == next.id :: p.person == next.person && p.fact == next.fact
    ensures |Of(Replaced(ps, next), person, fact)| == |Of(ps, person, fact)|
  {
    if ps != [] {
      var init, p := ps[..|ps| - 1], ps[|ps| - 1];
      assert ps == init + [p] && p in ps && forall x | x in init :: x in ps;
      OfReplaced(init, next, person, fact);
      ReplacedSnoc(init, p, next);
      OfSnoc(init, p, person, fact);
      OfSnoc(Replaced(init, next), if p.id == next.id then next else p, person, fact);
    }
  }

  lemma {:induction false} CreateBounded(b: Book, i: Input, fy: int, fill: bool, current: int, person: Id, fact: Fact)
    requires |Of(b.periods, person, fact)| <= MAX_PERIODS_PER_FACT
    ensures |Of(Create(b, i, fy, fill, current).0.periods, person, fact)| <= MAX_PERIODS_PER_FACT
  {
    var next := Dated(i, fy);
    OfSnoc(b.periods, next, person, fact);
    if Create(b, i, fy, fill, current).1.Wrote? { ValidMeetsNone(next, i.wellFormed, Siblings(b, next.person, next.fact)); }
  }

  lemma {:induction false} EditBounded(b: Book, id: Id, e: Patch, current: int, person: Id, fact: Fact)
    requires Sound(b.periods)
    ensures |Of(Edit(b, id, e, current).0.periods, person, fact)| == |Of(b.periods, person, fact)|
  {
    if Edit(b, id, e, current).1.Wrote? {
      var prior := Find(b.periods, id).value;
      forall p | p in b.periods && p.id == id ensures p == prior { SameId(b.periods, p, prior); }
      OfReplaced(b.periods, Patched(prior, e), person, fact);
    }
  }

  lemma {:induction false} StepBounded(b: Book, e: Event, current: int)
    requires Sound(b.periods) && Bounded(b.periods)
    ensures Bounded(Next(b, e, current).periods)
  {
    forall person, fact ensures |Of(Next(b, e, current).periods, person, fact)| <= MAX_PERIODS_PER_FACT {
      match e
      case Post(i, fy, fill) => CreateBounded(b, i, fy, fill, current, person, fact);
      case Change(id, patch) => EditBounded(b, id, patch, current, person, fact);
      case Remove(id) => OfExcept(b.periods, id, person, fact);
      case PersonGone(_) =>
      case PersonBack(_, _) =>
      case Settings(_, _) =>
    }
  }

  lemma {:induction false} RunBounded(books: seq<Book>, events: seq<Event>, today: seq<int>, n: nat)
    requires IsRun(books, events, today) && Sound(books[0].periods) && Bounded(books[0].periods) && n <= |events|
    ensures Bounded(books[n].periods)
  {
    if n > 0 {
      var i := n - 1;
      RunBounded(books, events, today, i);
      RunSound(books, events, today, i);
      assert books[i + 1] == Next(books[i], events[i], today[i]);
      StepBounded(books[i], events[i], today[i]);
    }
  }

  // ── First-run fill ──────────────────────────────────────────────────────────────────────────────────

  /** A fill adds one period or changes nothing at all, and the same fill again (a new id, the same answer) changes
      nothing whatever the first one did. */
  lemma {:induction false} FillTwice(b: Book, i: Input, fy: int, today: int, id: Id, later: int)
    ensures var (c, r) := Create(b, i, fy, true, today);
      && (if r.Wrote? then c.periods == b.periods + [Dated(i, fy)] else c == b)
      && var (d, q) := Create(c, i.(id := id), fy, true, later);
         d == c && (if r.Wrote? then q.Skipped? else q == Create(b, i.(id := id), fy, true, later).1 && !q.Wrote?)
  {
    var (c, r) := Create(b, i, fy, true, today);
    var next, again := Dated(i, fy), Dated(i.(id := id), fy);
    if r.Wrote? {
      assert next in c.periods && next in Siblings(c, next.person, next.fact);
      assert Meet(again, next);
    } else {
      SameVerdict(next, again, i.wellFormed, []);
      SameVerdict(next, again, i.wellFormed, Siblings(b, next.person, next.fact));
    }
  }

  lemma {:induction false} SameClash(p: Period, q: Period, others: seq<Period>)
    requires p.start == q.start && p.end == q.end
    ensures FirstClash(p, others) == FirstClash(q, others)
  {
    if others != [] {
      SameClash(p, q, others[1..]);
    }
  }

  lemma {:induction false} SameVerdict(p: Period, q: Period, wellFormed: bool, others: seq<Period>)
    requires q == p.(id := q.id)
    ensures Validate(p, wellFormed, others) == Validate(q, wellFormed, others) && FirstClash(p, others) == FirstClash(q, others)
  {
    SameClash(p, q, others);
  }

  // ── The occupation mirror is the longest job ────────────────────────────────────────────────────────

  predicate Mine(p: Period, person: Id, fact: Fact) { p.person == person && p.fact == fact }

  lemma {:induction false} BestIs(ps: seq<Period>, person: Id, fact: Fact, current: int)
    ensures var best := Best(ps, person, fact, current);
      && (forall p | p in ps && Mine(p, person, fact) && Reach(p, current).Some? :: best.Some? && Reach(p, current).value <= best.value)
      && (best.Some? ==> exists p | p in ps :: Mine(p, person, fact) && Reach(p, current) == best)
  {
    if ps != [] {
      var init, p := ps[..|ps| - 1], ps[|ps| - 1];
      BestIs(init, person, fact, current);
      assert forall x :: x in ps <==> x in init || x == p;
    }
  }

  /** The mirror depends on the person's own jobs only. */
  lemma {:induction false} MirrorOfSameJobs(ps: seq<Period>, qs: seq<Period>, person: Id, current: int)
    requires Sound(ps) && forall p | Mine(p, person, Employment) :: p in ps <==> p in qs
    ensures MirrorFy(ps, person, Employment, current) == MirrorFy(qs, person, Employment, current)
    ensures forall fy :: LongestJob(ps, person, fy) == LongestJob(qs, person, fy) && Mirror(ps, person, fy) == Mirror(qs, person, fy)
  {
    BestIs(ps, person, Employment, current);
    BestIs(qs, person, Employment, current);
    forall fy ensures LongestJob(ps, person, fy) == LongestJob(qs, person, fy) {
      var a, b := LongestJob(ps, person, fy), LongestJob(qs, person, fy);
      assert a.Some? ==> Mine(a.value, person, Employment);
      assert b.Some? ==> Mine(b.value, person, Employment);
      if a.Some? && b.Some? { SameId(ps, a.value, b.value); }
    }
    forall fy, p | InYear(p, person, fy) ensures p in ps <==> p in qs {
      assert Mine(p, person, Employment);
    }
  }

  /** The mirror year is one the person's periods reach. */
  lemma {:induction false} MirrorYearReached(ps: seq<Period>, person: Id, current: int)
    requires forall p | p in ps :: Ordered(p)
    requires exists p | p in ps :: Mine(p, person, Employment) && Reach(p, current).Some?
    ensures exists p | p in ps :: InYear(p, person, MirrorFy(ps, person, Employment, current))
  {
    BestIs(ps, person, Employment, current);
    var fy := MirrorFy(ps, person, Employment, current);
    var p :| p in ps && Mine(p, person, Employment) && Reach(p, current) == Some(fy);
    if p.start.Some? {
      FyUnique(p.start.value, fy);
      FyUnique(p.start.value, current);
      if p.end.Some? { FyUnique(p.start.value, FyOf(p.end.value)); }
    }
    if p.end.Some? { FyUnique(p.end.value, fy); }
    YearLength(fy);
    assert InYear(p, person, fy);
  }

  /** The occupation column holds the longest job of the mirror year, or nothing when every period there is "none". */
  predicate MirrorRight(b: Book, person: Id, current: int)
    requires person in b.occupation
  {
    var job := LongestJob(b.periods, person, MirrorFy(b.periods, person, Employment, current));
    b.occupation[person] == if job.Some? then Some(job.value.value) else None
  }

  predicate Reaches(ps: seq<Period>, person: Id, current: int) {
    exists p | p in ps :: Mine(p, person, Employment) && (p.start.Some? ==> p.start.value <= FyEnd(current))
  }

  lemma {:induction false} ReachesIff(ps: seq<Period>, person: Id, current: int)
    ensures Reaches(ps, person, current) <==> exists p | p in ps :: Mine(p, person, Employment) && Reach(p, current).Some?
  {
    forall p | p in ps ensures Reach(p, current).Some? <==> (p.start.Some? ==> p.start.value <= FyEnd(current)) {
      if p.start.Some? { FyUnique(p.start.value, current); }
    }
  }

  lemma {:induction false} MirrorSets(ps: seq<Period>, person: Id, current: int)
    requires Sound(ps) && Reaches(ps, person, current)
    ensures var fy := MirrorFy(ps, person, Employment, current); var job := LongestJob(ps, person, fy);
            Mirror(ps, person, fy) == Set(if job.Some? then Some(job.value.value) else None)
  {
    ReachesIff(ps, person, current);
    MirrorYearReached(ps, person, current);
  }

  lemma {:induction false} MirrorKeeps(ps: seq<Period>, person: Id, current: int)
    requires Sound(ps) && !Reaches(ps, person, current)
    ensures MirrorFy(ps, person, Employment, current) == current && Mirror(ps, person, current) == Keep
  {
    ReachesIff(ps, person, current);
    BestIs(ps, person, Employment, current);
    forall p | p in ps ensures !InYear(p, person, current) {
      assert Mine(p, person, Employment) ==> p.start.Some? && p.start.value > FyEnd(current);
    }
  }

  /** The period a create or an edit wrote, or a delete removed. */
  function Written(b: Book, e: Event, current: int): Option<Period> {
    match e
    case Post(i, fy, fill) => var r := Create(b, i, fy, fill, current).1; if r.Wrote? then Some(r.period) else None
    case Change(id, patch) => var r := Edit(b, id, patch, current).1; if r.Wrote? then Some(r.period) else None
    case Remove(id) => Find(b.periods, id)
    case _ => None
  }

  /** The step writes or deletes one of the person's jobs. */
  predicate TouchesJobs(b: Book, e: Event, current: int, person: Id) {
    Written(b, e, current).Some? && Mine(Written(b, e, current).value, person, Employment)
  }

  /** The delete takes the person's last job, and the column still holds what that job produced: it is reverted. */
  predicate Reverts(b: Book, e: Event, person: Id)
    requires person in b.occupation
  {
    && e.Remove? && Find(b.periods, e.id).Some?
    && var p := Find(b.periods, e.id).value;
       p.value != NOT_WORKING && b.occupation[person] == Some(p.value) && forall q | q in Except(b.periods, e.id) :: !Mine(q, person, Employment)
  }

  /** After the step none of the person's jobs has begun by the current year, and an occupation is left in the column. */
  predicate Lapses(b: Book, e: Event, current: int, person: Id)
    requires person in b.occupation
  {
    !Reaches(Next(b, e, current).periods, person, current) && b.occupation[person].Some? && !Reverts(b, e, person)
  }

  lemma {:induction false} NothingBegun(ps: seq<Period>, person: Id, current: int)
    requires !Reaches(ps, person, current)
    ensures LongestJob(ps, person, current) == None
  {
    forall p | p in ps ensures !IsJob(p, person, current) {
      assert Mine(p, person, Employment) ==> p.start.Some? && p.start.value > FyEnd(current);
    }
  }

  /** Recomputing the column: right when some job has begun, and otherwise left as it was. */
  lemma {:induction false} Recomputed(ps: seq<Period>, occupation: map<Id, Option<string>>, person: Id, current: int)
    requires Sound(ps) && person in occupation
    ensures var after := Apply(occupation, person, Mirror(ps, person, MirrorFy(ps, person, Employment, current)));
      && person in after
      && (MirrorRight(Book(ps, after), person, current) <==> Reaches(ps, person, current) || occupation[person] == None)
      && (!Reaches(ps, person, current) ==> after == occupation)
  {
    if Reaches(ps, person, current) {
      MirrorSets(ps, person, current);
    } else {
      MirrorKeeps(ps, person, current);
      NothingBegun(ps, person, current);
    }
  }

  lemma {:induction false} WrittenColumn(b: Book, e: Event, current: int, person: Id)
    requires Sound(b.periods) && Possible(b, e) && !e.Remove? && TouchesJobs(b, e, current, person)
    ensures person in b.occupation
    ensures var c := Next(b, e, current);
      c.occupation == Apply(b.occupation, person, Mirror(c.periods, person, MirrorFy(c.periods, person, Employment, current)))
  {
    if e.Change? {
      var prior := Find(b.periods, e.id).value;
      var next := Patched(prior, e.patch);
      SameAfterEdit(b.periods, prior, next);
      StepSound(b, e, current);
      MirrorOfSameJobs(Next(b, e, current).periods, Except(b.periods, e.id) + [next], person, current);
    }
  }

  /** A create or an edit leaves the mirror right exactly when some job has begun by the current year, or no occupation was
      there to linger: an edit that moves the only job into the future leaves the old occupation. */
  lemma {:induction false} WriteMirrors(b: Book, e: Event, current: int, person: Id)
    requires Sound(b.periods) && Possible(b, e) && !e.Remove? && TouchesJobs(b, e, current, person)
    ensures person in b.occupation && person in Next(b, e, current).occupation
    ensures MirrorRight(Next(b, e, current), person, current) <==> !Lapses(b, e, current, person)
    ensures Lapses(b, e, current, person) ==> Next(b, e, current).occupation == b.occupation
  {
    StepSound(b, e, current);
    WrittenColumn(b, e, current, person);
    Recomputed(Next(b, e, current).periods, b.occupation, person, current);
  }

  lemma {:induction false} SameAfterEdit(ps: seq<Period>, prior: Period, next: Period)
    requires prior in ps && prior.id == next.id
    ensures forall p :: p in Replaced(ps, next) <==> p in Except(ps, next.id) + [next]
  {
    var rs := Replaced(ps, next);
    var k :| 0 <= k < |ps| && ps[k] == prior;
    assert rs[k] == next;
    forall p | p in Except(ps, next.id) ensures p in rs {
      var i :| 0 <= i < |ps| && ps[i] == p;
      assert rs[i] == p;
    }
    forall p | p in rs ensures p in Except(ps, next.id) + [next] {
      ReplacedIn(ps, next, p);
    }
  }

  /** A delete leaves the mirror right, reverts it when no job is left, or, when every remaining job lies after the
      current year, does not touch it. */
  lemma {:induction false} DeleteMirrors(b: Book, p: Period, current: int)
    requires Sound(b.periods) && p in b.periods && p.fact == Employment && p.person in b.occupation
    ensures var c := Delete(b, p.id, current).0;
      && p.person in c.occupation
      && if Reaches(c.periods, p.person, current) then MirrorRight(c, p.person, current)
         else if exists q | q in c.periods :: Mine(q, p.person, Employment) then c.occupation == b.occupation
         else c.occupation[p.person] == if p.value != NOT_WORKING && b.occupation[p.person] == Some(p.value) then None else b.occupation[p.person]
  {
    var c := Delete(b, p.id, current).0;
    SameId(b.periods, p, Find(b.periods, p.id).value);
    ExceptSound(b.periods, p.id);
    if Reaches(c.periods, p.person, current) {
      MirrorSets(c.periods, p.person, current);
    } else {
      MirrorKeeps(c.periods, p.person, current);
    }
  }

  /** A delete leaves the mirror right exactly when some remaining job has begun, or the column was empty or is reverted. */
  lemma {:induction false} DeleteMirrorsIff(b: Book, e: Event, current: int, person: Id)
    requires Sound(b.periods) && e.Remove? && TouchesJobs(b, e, current, person) && person in b.occupation
    ensures person in Next(b, e, current).occupation
    ensures MirrorRight(Next(b, e, current), person, current) <==> !Lapses(b, e, current, person)
  {
    var p, c := Find(b.periods, e.id).value, Next(b, e, current);
    DeleteMirrors(b, p, current);
    if !Reaches(c.periods, person, current) {
      ExceptSound(b.periods, e.id);
      MirrorKeeps(c.periods, person, current);
      NothingBegun(c.periods, person, current);
    }
  }

  // ── The mirror, in days ─────────────────────────────────────────────────────────────────────────────

  /** The days of a year that a period covers. */
  function DaysOf(p: Period, fy: int): set<int> { set d | FyStart(fy) <= d <= FyStart(fy + 1) - 1 && Covers(p, d) }

  predicate Within(d: int, lo: int, hi: int) { lo <= d <= hi }

  function Range(lo: int, hi: int): set<int> { set d | lo <= d <= hi && Within(d, lo, hi) }

  lemma {:induction false} RangeSize(lo: int, hi: int)
    requires lo <= hi + 1
    ensures |Range(lo, hi)| == hi - lo + 1
    decreases hi - lo + 1
  {
    if lo > hi {
      assert Range(lo, hi) == {};
    } else {
      RangeSize(lo, hi - 1);
      assert Range(lo, hi) == Range(lo, hi - 1) + {hi};
    }
  }

  lemma {:induction false} ClippedDays(p: Period, fy: int)
    requires Ordered(p)
    ensures Clip(p, FyStart(fy), FyEnd(fy)).Some? <==> DaysOf(p, fy) != {}
    ensures Clip(p, FyStart(fy), FyEnd(fy)).Some? ==> |DaysOf(p, fy)| == DaysIn(p, fy) && StartIn(p, fy) in DaysOf(p, fy)
    ensures Clip(p, FyStart(fy), FyEnd(fy)).Some? ==> forall d | d in DaysOf(p, fy) :: StartIn(p, fy) <= d
  {
    YearLength(fy);
    var c := Clip(p, FyStart(fy), FyEnd(fy));
    forall d ensures d in DaysOf(p, fy) <==> c.Some? && c.value.first <= d <= c.value.last { ClipExact(p, FyStart(fy), FyEnd(fy), d); }
    if c.Some? {
      ClipExact(p, FyStart(fy), FyEnd(fy), c.value.first);
      assert DaysOf(p, fy) == Range(c.value.first, c.value.last);
      RangeSize(c.value.first, c.value.last);
      assert c.value.first in DaysOf(p, fy);
    }
  }

  /** A job of the person's with a day in the year: an employment period that says something other than not working. */
  predicate JobOf(p: Period, person: Id, fy: int) {
    p.person == person && p.fact == Employment && p.value != "" && p.value != "none" && DaysOf(p, fy) != {}
  }

  /** The first of two jobs has more days in the year, or as many and starts earlier in it, or starts as early and is older. */
  predicate Outlasts(p: Period, q: Period, fy: int) {
    || |DaysOf(p, fy)| > |DaysOf(q, fy)|
    || (|DaysOf(p, fy)| == |DaysOf(q, fy)| && exists d | d in DaysOf(p, fy) :: (forall e | e in DaysOf(q, fy) :: d < e))
    || (|DaysOf(p, fy)| == |DaysOf(q, fy)| && (forall d | d in DaysOf(p, fy) :: exists e | e in DaysOf(q, fy) :: e <= d) && p.id <= q.id)
  }

  lemma {:induction false} AheadOutlasts(p: Period, q: Period, person: Id, fy: int)
    requires IsJob(p, person, fy) && IsJob(q, person, fy) && Ordered(p) && Ordered(q) && Ahead(p, q, person, fy)
    ensures Outlasts(p, q, fy)
  {
    ClippedDays(p, fy);
    ClippedDays(q, fy);
    var d, e := StartIn(p, fy), StartIn(q, fy);
    assert d in DaysOf(p, fy) && e in DaysOf(q, fy);
  }

  /** The longest job of a year is one, and outlasts every other. */
  lemma {:induction false} LongestJobIs(ps: seq<Period>, person: Id, fy: int)
    requires forall p | p in ps :: Ordered(p)
    ensures var job := LongestJob(ps, person, fy);
      && (job.Some? <==> exists p | p in ps :: JobOf(p, person, fy))
      && (job.Some? ==> job.value in ps && JobOf(job.value, person, fy) && forall q | q in ps && JobOf(q, person, fy) :: Outlasts(job.value, q, fy))
  {
    var job := LongestJob(ps, person, fy);
    forall p | p in ps ensures IsJob(p, person, fy) <==> JobOf(p, person, fy) { ClippedDays(p, fy); }
    if job.Some? {
      forall q | q in ps && JobOf(q, person, fy) ensures Outlasts(job.value, q, fy) { AheadOutlasts(job.value, q, person, fy); }
    }
  }

  /** Days of the person's answers to a question up to the end of the current year. */
  predicate LivedOn(ps: seq<Period>, person: Id, fact: Fact, current: int, d: int) {
    d <= FyEnd(current) && exists p | p in ps :: p.person == person && p.fact == fact && Covers(p, d)
  }

  lemma {:induction false} ReachIs(p: Period, current: int, d: int)
    requires Ordered(p)
    ensures Covers(p, d) && d <= FyEnd(current) ==> Reach(p, current).Some? && FyOf(d) <= Reach(p, current).value <= current
    ensures Reach(p, current).Some? ==> Reach(p, current).value <= current
  {
    FyUnique(d, current);
    if p.start.Some? { FyUnique(p.start.value, current); }
    if p.end.Some? && Covers(p, d) { FyUnique(d, FyOf(p.end.value)); }
  }

  /** Every period that has begun has a day in the year it reaches. */
  lemma {:induction false} ReachedDay(p: Period, current: int) returns (d: int)
    requires Ordered(p) && Reach(p, current).Some?
    ensures Covers(p, d) && FyOf(d) == Reach(p, current).value && d <= FyEnd(current)
  {
    var y := Reach(p, current).value;
    if p.end.Some? && FyOf(p.end.value) <= current {
      d := p.end.value;
    } else {
      d := if p.start.Some? && p.start.value > FyStart(current) then p.start.value else FyStart(current);
      if p.start.Some? { FyUnique(p.start.value, current); }
      if p.end.Some? { FyUnique(p.end.value, current); FyUnique(p.end.value, current + 1); }
      YearLength(current);
    }
    FyUnique(d, y);
    FyUnique(d, current);
  }

  /** The year the mirror looks at: the latest, up to the current one, in which the person has a day; the current one when there
      is no such day. */
  lemma {:induction false} MirrorFyIs(ps: seq<Period>, person: Id, fact: Fact, current: int)
    requires forall p | p in ps :: Ordered(p)
    ensures var fy := MirrorFy(ps, person, fact, current);
      && fy <= current
      && (forall d | LivedOn(ps, person, fact, current, d) :: FyOf(d) <= fy)
      && ((exists d :: LivedOn(ps, person, fact, current, d)) ==> exists d :: LivedOn(ps, person, fact, current, d) && FyOf(d) == fy)
      && ((forall d :: !LivedOn(ps, person, fact, current, d)) ==> fy == current)
  {
    BestIs(ps, person, fact, current);
    var best, fy := Best(ps, person, fact, current), MirrorFy(ps, person, fact, current);
    forall d | LivedOn(ps, person, fact, current, d) ensures best.Some? && FyOf(d) <= fy {
      var p :| p in ps && p.person == person && p.fact == fact && Covers(p, d);
      ReachIs(p, current, d);
      assert Mine(p, person, fact);
    }
    if best.Some? {
      var p :| p in ps && Mine(p, person, fact) && Reach(p, current) == best;
      var d := ReachedDay(p, current);
      ReachIs(p, current, d);
      assert LivedOn(ps, person, fact, current, d) && FyOf(d) == fy;
    }
  }

  // ── The mirror over whole runs ──────────────────────────────────────────────────────────────────────

  /** The person's occupation is set by the mirror only: the person is not removed, restored or edited in Settings. */
  predicate ByMirrorOnly(e: Event, person: Id) {
    && (e.PersonGone? ==> e.person != person) && (e.PersonBack? ==> e.person != person) && (e.Settings? ==> e.person != person)
  }

  lemma {:induction false} UntouchedJobs(b: Book, e: Event, current: int, person: Id)
    requires Sound(b.periods) && Possible(b, e) && !TouchesJobs(b, e, current, person)
    ensures forall p | Mine(p, person, Employment) :: p in Next(b, e, current).periods <==> p in b.periods
  {
    match e
    case Change(id, patch) =>
      if Edit(b, id, patch, current).1.Wrote? {
        var prior := Find(b.periods, id).value;
        SameAfterEdit(b.periods, prior, Patched(prior, patch));
        forall p | p in b.periods && p.id == id ensures p == prior { SameId(b.periods, p, prior); }
      }
    case Remove(id) =>
      if Find(b.periods, id).Some? {
        forall p | p in b.periods && p.id == id ensures p == Find(b.periods, id).value { SameId(b.periods, p, Find(b.periods, id).value); }
      }
    case _ =>
  }

  lemma {:induction false} UntouchedColumn(b: Book, e: Event, current: int, person: Id)
    requires !TouchesJobs(b, e, current, person) && ByMirrorOnly(e, person) && person in b.occupation
    ensures person in Next(b, e, current).occupation && Next(b, e, current).occupation[person] == b.occupation[person]
  {
  }

  /** A step that does not touch the person's jobs leaves the mirror as right or wrong as it was, for any year. */
  lemma {:induction false} UntouchedMirror(b: Book, e: Event, current: int, person: Id, year: int)
    requires Sound(b.periods) && Possible(b, e) && !TouchesJobs(b, e, current, person) && ByMirrorOnly(e, person) && person in b.occupation
    ensures person in Next(b, e, current).occupation
    ensures MirrorRight(Next(b, e, current), person, year) <==> MirrorRight(b, person, year)
  {
    UntouchedJobs(b, e, current, person);
    UntouchedColumn(b, e, current, person);
    MirrorOfSameJobs(b.periods, Next(b, e, current).periods, person, year);
  }

  /** The year that was current when the person's jobs were last written (`start` before any such step). */
  function AsOf(books: seq<Book>, events: seq<Event>, today: seq<int>, person: Id, start: int, n: nat): int
    requires IsRun(books, events, today) && n <= |events|
  {
    if n == 0 then start
    else if TouchesJobs(books[n - 1], events[n - 1], today[n - 1], person) then today[n - 1]
    else AsOf(books, events, today, person, start, n - 1)
  }

  /** The last step that touched the person's jobs did not lapse (with none, the mirror was right at the start). */
  predicate LastWriteHeld(books: seq<Book>, events: seq<Event>, today: seq<int>, person: Id, start: int, n: nat)
    requires IsRun(books, events, today) && n <= |events| && forall i | 0 <= i < |books| :: person in books[i].occupation
  {
    if n == 0 then MirrorRight(books[0], person, start)
    else if TouchesJobs(books[n - 1], events[n - 1], today[n - 1], person) then !Lapses(books[n - 1], events[n - 1], today[n - 1], person)
    else LastWriteHeld(books, events, today, person, start, n - 1)
  }

  /**
   * Over every run, the occupation column is the longest job (as of the year the person's jobs were last written) if and
   * only if that last write or delete left some job that has begun, or an empty or reverted column.
   */
  lemma {:induction false} RunMirrors(books: seq<Book>, events: seq<Event>, today: seq<int>, person: Id, start: int, n: nat)
    requires IsRun(books, events, today) && Sound(books[0].periods) && n <= |events|
    requires forall i | 0 <= i < |books| :: person in books[i].occupation
    requires forall e | e in events :: ByMirrorOnly(e, person)
    ensures MirrorRight(books[n], person, AsOf(books, events, today, person, start, n))
       <==> LastWriteHeld(books, events, today, person, start, n)
  {
    if n > 0 {
      var b, e, current := books[n - 1], events[n - 1], today[n - 1];
      RunMirrors(books, events, today, person, start, n - 1);
      RunSound(books, events, today, n - 1);
      assert e in events && books[n] == Next(b, e, current);
      if !TouchesJobs(b, e, current, person) {
        UntouchedMirror(b, e, current, person, AsOf(books, events, today, person, start, n - 1));
      } else if e.Remove? {
        DeleteMirrorsIff(b, e, current, person);
      } else {
        WriteMirrors(b, e, current, person);
      }
    }
  }

  /** So the mirror is not always the longest remaining job: the occupation a deleted job had produced lingers exactly
      when some job remains and all that remain start after the current year. */
  lemma {:induction false} DeletedJobLingers(b: Book, p: Period, current: int)
    requires Sound(b.periods) && p in b.periods && p.fact == Employment && p.value != NOT_WORKING
    requires p.person in b.occupation && b.occupation[p.person] == Some(p.value)
    requires forall q | q in b.periods && Mine(q, p.person, Employment) && q.id != p.id :: q.value != p.value
    ensures Delete(b, p.id, current).0.occupation[p.person] == Some(p.value)
       <==> var rest := Except(b.periods, p.id); (exists q | q in rest :: Mine(q, p.person, Employment)) && !Reaches(rest, p.person, current)
  {
    DeleteMirrors(b, p, current);
    var rest := Except(b.periods, p.id);
    if Reaches(rest, p.person, current) {
      var job := LongestJob(rest, p.person, MirrorFy(rest, p.person, Employment, current));
      assert job.Some? ==> Mine(job.value, p.person, Employment);
    }
  }

  /** A concrete case: the only job of this year is deleted while one for a later year is on file. */
  lemma {:induction false} LingerWitness(person: Id, now: Period, later: Period, current: int)
    requires now.person == later.person == person && now.fact == later.fact == Employment && now.id != later.id
    requires now.start == None && now.end == None && later.start == Some(FyStart(current + 1)) && later.end == None
    requires now.value !in {"", NOT_WORKING} && later.value !in {"", now.value}
    ensures Delete(Book([now, later], map[person := Some(now.value)]), now.id, current).0.occupation == map[person := Some(now.value)]
  {
    var b := Book([now, later], map[person := Some(now.value)]);
    var rest := Except(b.periods, now.id);
    assert later in b.periods && later in rest && Mine(later, person, Employment);
    assert Sound(b.periods);
    DeleteMirrors(b, now, current);
  }
}
