/**
 * The weekly work-from-home diary (src/lib/wfh-diary.ts, and setWorkUseInputs in src/agent.ts): weeks are confirmed one
 * by one and each financial year's hours are cached on its work-use row. Days are day numbers, hours are hundredths of
 * an hour, so the code's rounding to two places is exact.
 */
module Diary {
  import opened Options
  import opened Calendar

  const CONFIRM_OPENS_AFTER_DAYS := 4
  const ON_TIME_DAYS := 13
  const MAX_HOURS_PER_DAY := 2400

  datatype Reason = Office | Leave | Sick | PublicHoliday | Other
  datatype Source = SourceCalendar | Timesheet | Roster | SystemLog | Memory

  datatype Day = Day(h: int, why: Option<Reason>)

  /** One confirmed week, from its Monday; `late` weeks say what they were rebuilt from. */
  datatype Week = Week(start: int, days: seq<Day>, late: bool, source: Option<Source>, recordedAt: int, updatedAt: int)

  /** One year's work-use row: the hours the report reads, and the hours kept from before the diary. */
  datatype Inputs = Inputs(hours: Option<int>, pre: Option<int>, preSource: Option<Source>)

  datatype Book = Book(weeks: seq<Week>, inputs: map<int, Inputs>)

  const EMPTY_ROW := Inputs(None, None, None)

  function Row(b: Book, fy: int): Inputs { if fy in b.inputs then b.inputs[fy] else EMPTY_ROW }

  // ── Normalising a week ──────────────────────────────────────────────────────────────────────────────

  function Clamp(h: int): (r: int)
    ensures 0 <= r <= MAX_HOURS_PER_DAY
    ensures 0 <= h <= MAX_HOURS_PER_DAY ==> r == h
  {
    if h < 0 then 0 else if h > MAX_HOURS_PER_DAY then MAX_HOURS_PER_DAY else h
  }

  predicate DayOff(d: Day) {
    match d.why
    case None => false
    case Some(why) => why == Office || why == Leave || why == Sick || why == PublicHoliday
  }

  /** The hours kept of those sent for a day: none on a day off (any reason but "other"), otherwise what was sent, or the
      nearer of nothing and a whole day. */
  predicate Keeps(sent: Day, h: int) {
    if DayOff(sent) then h == 0
    else (0 <= sent.h <= 2400 ==> h == sent.h) && (sent.h < 0 ==> h == 0) && (sent.h > 2400 ==> h == 2400)
  }

  function NormaliseDay(d: Day): (r: Day)
    ensures 0 <= r.h <= MAX_HOURS_PER_DAY && r.why == d.why && Keeps(d, r.h)
  {
    if d.why.Some? && d.why != Some(Other) then Day(0, d.why) else Day(Clamp(d.h), d.why)
  }

  /** What is stored for the week's day i: the day sent, or nothing when the list stops before it. */
  predicate StoredFor(sent: seq<Day>, i: nat, d: Day) {
    if i < |sent| then d.why == sent[i].why && Keeps(sent[i], d.h) else d == Day(0, None)
  }

  /** Seven days, Monday first; none sent means the typical week, days missing at the end have no hours. */
  function NormaliseDays(sent: Option<seq<Day>>, pattern: seq<int>): (days: seq<Day>)
    requires |pattern| == 7
    ensures |days| == 7 && (sent.Some? ==> forall i | 0 <= i < 7 :: 0 <= days[i].h <= MAX_HOURS_PER_DAY)
    ensures sent.Some? ==> forall i | 0 <= i < 7 :: StoredFor(sent.value, i, days[i])
    ensures sent == None ==> forall i | 0 <= i < 7 :: days[i] == Day(pattern[i], None)
  {
    match sent
    case None => seq(7, i requires 0 <= i < 7 => Day(pattern[i], None))
    case Some(ds) => seq(7, i requires 0 <= i < 7 => if i < |ds| then NormaliseDay(ds[i]) else Day(0, None))
  }

  // ── Totals ──────────────────────────────────────────────────────────────────────────────────────────

  /** On time, or caught up from a record made at the time. */
  predicate WeekCounts(w: Week) { !w.late || (w.source.Some? && w.source != Some(Memory)) }

  predicate InFy(d: int, fy: int) { FyStart(fy) <= d <= FyEnd(fy) }

  /** Hours of the first n days that fall in the year. */
  function HoursIn(w: Week, fy: int, n: nat): int
    requires n <= |w.days|
  {
    if n == 0 then 0 else HoursIn(w, fy, n - 1) + if InFy(w.start + n - 1, fy) then w.days[n - 1].h else 0
  }

  function WeekHours(w: Week, fy: int): int { HoursIn(w, fy, |w.days|) }

  function CountedIn(w: Week, fy: int): int { if WeekCounts(w) then WeekHours(w, fy) else 0 }

  function Counted(ws: seq<Week>, fy: int): int {
    if ws == [] then 0 else Counted(ws[..|ws| - 1], fy) + CountedIn(ws[|ws| - 1], fy)
  }

  /** SELECT: a week's Monday is at most six days before the year. */
  function Listed(ws: seq<Week>, fy: int): (out: seq<Week>)
    ensures forall w :: w in out <==> w in ws && FyStart(fy) - 6 <= w.start <= FyEnd(fy)
  {
    if ws == [] then [] else
    var init, w := ws[..|ws| - 1], ws[|ws| - 1];
    assert forall x :: x in ws <==> x in init || x == w;
    if FyStart(fy) - 6 <= w.start <= FyEnd(fy) then Listed(init, fy) + [w] else Listed(init, fy)
  }

  predicate SevenDays(ws: seq<Week>) { forall w | w in ws :: |w.days| == 7 }

  lemma {:induction false} UnlistedHours(w: Week, fy: int, n: nat)
    requires n <= |w.days| == 7 && !(FyStart(fy) - 6 <= w.start <= FyEnd(fy))
    ensures HoursIn(w, fy, n) == 0
  {
    if n > 0 { UnlistedHours(w, fy, n - 1); }
  }

  /** The window the weeks are read through loses no hours of the year. */
  lemma {:induction false} ListedCounts(ws: seq<Week>, fy: int)
    requires SevenDays(ws)
    ensures Counted(Listed(ws, fy), fy) == Counted(ws, fy)
  {
    if ws != [] {
      var init, w := ws[..|ws| - 1], ws[|ws| - 1];
      assert w in ws && forall x | x in init :: x in ws;
      ListedCounts(init, fy);
      if FyStart(fy) - 6 <= w.start <= FyEnd(fy) {
        assert (Listed(init, fy) + [w])[..|Listed(init, fy)|] == Listed(init, fy);
      } else {
        UnlistedHours(w, fy, 7);
      }
    }
  }

  /** diaryTotals' counted hours, day by day and week by week. */
  method DiaryTotals(ws: seq<Week>, fy: int) returns (counted: int)
    ensures counted == Counted(ws, fy)
  {
    var onTime, lateCounted := 0, 0;
    for i := 0 to |ws|
      invariant onTime + lateCounted == Counted(ws[..i], fy)
    {
      assert ws[..i + 1][..i] == ws[..i];
      var w, h, inFy := ws[i], 0, false;
      for j := 0 to |w.days|
        invariant h == HoursIn(w, fy, j) && (!inFy ==> h == 0)
      {
        if InFy(w.start + j, fy) { inFy, h := true, h + w.days[j].h; }
      }
      if !inFy { continue; }
      if !w.late { onTime := onTime + h; } else if WeekCounts(w) { lateCounted := lateCounted + h; }
    }
    assert ws[..|ws|] == ws;
    counted := onTime + lateCounted;
  }

  /** In use once a week starts in the year, or a week from before it has hours on the year's days. */
  predicate Uses(w: Week, fy: int) {
    && FyStart(fy) - 6 <= w.start <= FyEnd(fy)
    && (w.start >= FyStart(fy) || exists i | 0 <= i < |w.days| :: w.days[i].h > 0 && w.start + i >= FyStart(fy))
  }

  predicate InUse(ws: seq<Week>, fy: int) { exists w | w in ws :: Uses(w, fy) }

  predicate PreCounts(r: Inputs) { r.pre.Some? && r.pre.value > 0 && r.preSource != Some(Memory) }

  /** A year's figure from its row and its counted diary hours. */
  function Figure(r: Inputs, counted: int): int { (if PreCounts(r) then r.pre.value else 0) + counted }

  function FyHours(b: Book, fy: int): int { Figure(Row(b, fy), Counted(b.weeks, fy)) }

  // ── Writing one year's figure ───────────────────────────────────────────────────────────────────────

  /** The diary has just started here: the figure already on file is kept as the hours from before it. */
  function Captured(r: Inputs): Inputs {
    Inputs(r.hours, r.hours, if r.pre.Some? && r.pre == r.hours then r.preSource else None)
  }

  function RowAt(b: Book, fy: int): Option<Inputs> { if fy in b.inputs then Some(b.inputs[fy]) else None }

  /** What syncing does to the year's row: with no weeks the kept figure comes back; with none kept, the week's own year
      is cleared and a year it spills into is not written. */
  function SyncedRow(r: Option<Inputs>, used: bool, counted: int, capture: bool, own: bool): Option<Inputs> {
    var kept := if capture && used && r.Some? then Captured(r.value) else r.GetOr(EMPTY_ROW);
    if used then Some(kept.(hours := Some(Figure(kept, counted))))
    else if kept.pre == None && !own then r
    else Some(kept.(hours := kept.pre))
  }

  function Synced(b: Book, fy: int, capture: bool, own: bool): Book {
    match SyncedRow(RowAt(b, fy), InUse(b.weeks, fy), Counted(b.weeks, fy), capture, own)
    case None => b
    case Some(r) => b.(inputs := b.inputs[fy := r])
  }

  /** The years a week's days fall in, its own first. */
  function YearsOf(start: int): (fys: seq<int>)
    ensures fys == [FyOf(start)] || fys == [FyOf(start), FyOf(start) + 1]
    ensures forall d | start <= d <= start + 6 :: FyOf(d) in fys
  {
    var own, last := FyOf(start), FyOf(start + 6);
    YearsNear(start);
    assert forall d | start <= d <= start + 6 :: own <= FyOf(d) <= last by {
      forall d | start <= d <= start + 6 ensures own <= FyOf(d) <= last {
        FyUnique(d, own);
        FyUnique(d, last);
        FyUnique(start, own);
      }
    }
    if own == last then [own] else [own, last]
  }

  lemma {:induction false} YearsNear(start: int)
    ensures FyOf(start) <= FyOf(start + 6) <= FyOf(start) + 1
  {
    var own := FyOf(start);
    FyUnique(start + 6, own);
    FyUnique(start + 6, own + 1);
    YearLength(own + 1);
  }

  function SyncedWeek(b: Book, start: int, started: set<int>): Book {
    var own := FyOf(start);
    var c := Synced(b, own, own in started, true);
    if |YearsOf(start)| == 1 then c else Synced(c, own + 1, own + 1 in started, false)
  }

  // ── The operations ──────────────────────────────────────────────────────────────────────────────────

  function Without(ws: seq<Week>, start: int): (kept: seq<Week>)
    ensures forall w :: w in kept <==> w in ws && w.start != start
  {
    if ws == [] then [] else
    var init, w := ws[..|ws| - 1], ws[|ws| - 1];
    assert forall x :: x in ws <==> x in init || x == w;
    if w.start == start then Without(init, start) else Without(init, start) + [w]
  }

  predicate Has(ws: seq<Week>, start: int) { exists w | w in ws :: w.start == start }

  /** ON CONFLICT keeps the first recorded time. */
  function Resaved(w: Week, next: Week): Week { next.(recordedAt := w.recordedAt) }

  function Upserted(ws: seq<Week>, next: Week): (out: seq<Week>) {
    if Has(ws, next.start) then ReplacedIn(ws, next) else ws + [next]
  }

  datatype Refusal = NotAMonday | NotYet | NeedsSource | NotInUse | BadHours

  datatype Reply = Done | Unchanged | Refused(why: Refusal)

  /** One save as the server sees it: today's local date and the clock. */
  datatype Save = Save(start: int, days: Option<seq<Day>>, pattern: seq<int>, source: Option<Source>, today: int, stamp: int)

  /** Day 0, 1 July of year 0, is a Saturday. */
  predicate Monday(d: int) { d % 7 == 2 }

  /** Monday 6 January 2020. */
  const EARLIEST_WEEK := 737613

  /** 6 January 2020 is 189 days after 1 July 2019, and 1 July 2024 was a Monday. */
  lemma {:induction false} EarliestIsMonday()
    ensures EARLIEST_WEEK == FyStart(2019) + 189 && Monday(EARLIEST_WEEK) && Monday(FyStart(2024))
  {
  }

  function WeekOf(s: Save): Week
    requires |s.pattern| == 7
  {
    var late := s.today > s.start + ON_TIME_DAYS;
    Week(s.start, NormaliseDays(s.days, s.pattern), late, if late then s.source else None, s.stamp, s.stamp)
  }

  function NotYetInUse(ws: seq<Week>, start: int): set<int> { set fy | fy in YearsOf(start) && !InUse(ws, fy) }

  function SaveWeek(b: Book, s: Save): (Book, Reply)
    requires |s.pattern| == 7
  {
    if !Monday(s.start) || s.start < EARLIEST_WEEK then (b, Refused(NotAMonday))
    else if s.today < s.start + CONFIRM_OPENS_AFTER_DAYS then (b, Refused(NotYet))
    else if s.today > s.start + ON_TIME_DAYS && s.source == None then (b, Refused(NeedsSource))
    else (SyncedWeek(b.(weeks := Upserted(b.weeks, WeekOf(s))), s.start, NotYetInUse(b.weeks, s.start)), Done)
  }

  function DeleteWeek(b: Book, start: int): (Book, Reply) {
    if !Monday(start) then (b, Refused(NotAMonday))
    else if !Has(b.weeks, start) then (b, Unchanged)
    else (SyncedWeek(b.(weeks := Without(b.weeks, start)), start, {}), Done)
  }

  const MAX_PRE_DIARY_HOURS := 878400

  function SetPreDiary(b: Book, fy: int, hours: int, source: Source): (Book, Reply) {
    if hours < 0 || hours > MAX_PRE_DIARY_HOURS then (b, Refused(BadHours))
    else if !InUse(b.weeks, fy) then (b, Refused(NotInUse))
    else (Synced(b.(inputs := b.inputs[fy := Row(b, fy).(pre := Some(hours), preSource := Some(source))]), fy, false, true), Done)
  }

  /** The typed hours field: once the diary is in use, its figure wins. */
  function TypeHours(b: Book, fy: int, typed: Option<int>): Book {
    b.(inputs := b.inputs[fy := Row(b, fy).(hours := if InUse(b.weeks, fy) then Some(FyHours(b, fy)) else typed)])
  }

  class DiaryDb {
    var weeks: seq<Week>
    var inputs: map<int, Inputs>

    constructor (b: Book)
      ensures View() == b
    {
      weeks, inputs := b.weeks, b.inputs;
    }

    ghost function View(): Book
      reads this
    {
      Book(weeks, inputs)
    }

    method SyncFy(fy: int, capture: bool, own: bool)
      requires SevenDays(weeks)
      modifies `inputs
      ensures View() == Synced(old(View()), fy, capture, own)
    {
      var inUse, counted := ReadWeeks(fy);
      if capture && inUse && fy in inputs { inputs := inputs[fy := Captured(inputs[fy])]; }
      var r := if fy in inputs then inputs[fy] else EMPTY_ROW;
      var hours := if inUse then Some(Figure(r, counted)) else r.pre;
      if hours == None && !own { return; }
      inputs := inputs[fy := r.(hours := hours)];
    }

    method ReadWeeks(fy: int) returns (inUse: bool, counted: int)
      requires SevenDays(weeks)
      ensures inUse == InUse(weeks, fy) && counted == Counted(weeks, fy)
    {
      var listed := Listed(weeks, fy);
      inUse := exists w | w in listed :: Uses(w, fy);
      counted := DiaryTotals(listed, fy);
      ListedCounts(weeks, fy);
    }

    method SyncHours(start: int, started: set<int>)
      requires SevenDays(weeks)
      modifies `inputs
      ensures View() == SyncedWeek(old(View()), start, started)
    {
      var own, years := FyOf(start), YearsOf(start);
      for i := 0 to |years|
        invariant weeks == old(weeks)
        invariant i == 0 ==> View() == old(View())
        invariant i == 1 ==> View() == Synced(old(View()), own, own in started, true)
        invariant i == 2 ==> View() == SyncedWeek(old(View()), start, started)
      {
        SyncFy(years[i], years[i] in started, years[i] == own);
      }
    }

    method Save(s: Save) returns (r: Reply)
      requires SevenDays(weeks) && |s.pattern| == 7
      modifies this
      ensures (View(), r) == SaveWeek(old(View()), s)
    {
      if !Monday(s.start) || s.start < EARLIEST_WEEK { return Refused(NotAMonday); }
      if s.today < s.start + CONFIRM_OPENS_AFTER_DAYS { return Refused(NotYet); }
      if s.today > s.start + ON_TIME_DAYS && s.source == None { return Refused(NeedsSource); }
      var started := NotYetInUse(weeks, s.start);
      weeks := Upserted(weeks, WeekOf(s));
      SyncHours(s.start, started);
      r := Done;
    }

    method Delete(start: int) returns (r: Reply)
      requires SevenDays(weeks)
      modifies this
      ensures (View(), r) == DeleteWeek(old(View()), start)
    {
      if !Monday(start) { return Refused(NotAMonday); }
      if !Has(weeks, start) { return Unchanged; }
      weeks := Without(weeks, start);
      SyncHours(start, {});
      r := Done;
    }
  }

  // ── While the diary is in use, the cached hours are right ───────────────────────────────────────────

  predicate Weeks(ws: seq<Week>) { SevenDays(ws) && forall i, j | 0 <= i < j < |ws| :: ws[i].start != ws[j].start }

  predicate RightIn(b: Book, fy: int) { InUse(b.weeks, fy) ==> Row(b, fy).hours == Some(FyHours(b, fy)) }

  ghost predicate Right(b: Book) { forall fy :: RightIn(b, fy) }

  lemma {:induction false} SyncRights(b: Book, fy: int, capture: bool, own: bool)
    ensures RightIn(Synced(b, fy, capture, own), fy)
    ensures forall g | g != fy :: RightIn(Synced(b, fy, capture, own), g) == RightIn(b, g)
  {
  }

  lemma {:induction false} OutsideHours(w: Week, fy: int, n: nat)
    requires n <= |w.days| == 7 && fy !in YearsOf(w.start)
    ensures HoursIn(w, fy, n) == 0
  {
    if n > 0 {
      OutsideHours(w, fy, n - 1);
      var d := w.start + n - 1;
      if InFy(d, fy) { FyUnique(d, fy); }
      assert FyOf(d) in YearsOf(w.start);
    }
  }

  /** A week is nothing to a year none of its days fall in. */
  lemma {:induction false} OtherYear(w: Week, fy: int)
    requires |w.days| == 7 && fy !in YearsOf(w.start)
    ensures CountedIn(w, fy) == 0 && !Uses(w, fy)
  {
    OutsideHours(w, fy, 7);
    NoDayIn(w.start, fy);
  }

  lemma {:induction false} NoDayIn(start: int, fy: int)
    requires fy !in YearsOf(start)
    ensures FyEnd(fy) < start || start + 6 < FyStart(fy)
  {
    FyUnique(start, fy);
    FyUnique(start + 6, fy);
    assert FyOf(start) in YearsOf(start) && FyOf(start + 6) in YearsOf(start);
    YearsNear(start);
  }

  lemma {:induction false} CountedSnoc(ws: seq<Week>, w: Week, fy: int)
    ensures Counted(ws + [w], fy) == Counted(ws, fy) + CountedIn(w, fy)
  {
    assert (ws + [w])[..|ws|] == ws;
  }

  lemma {:induction false} WithoutCounts(ws: seq<Week>, start: int, fy: int)
    requires SevenDays(ws) && fy !in YearsOf(start)
    ensures Counted(Without(ws, start), fy) == Counted(ws, fy)
  {
    if ws != [] {
      var init, w := ws[..|ws| - 1], ws[|ws| - 1];
      assert w in ws && forall x | x in init :: x in ws;
      WithoutCounts(init, start, fy);
      if w.start == start { OtherYear(w, fy); } else { CountedSnoc(Without(init, start), w, fy); }
    }
  }

  lemma {:induction false} WithoutUses(ws: seq<Week>, start: int, fy: int)
    requires SevenDays(ws) && fy !in YearsOf(start)
    ensures InUse(Without(ws, start), fy) <==> InUse(ws, fy)
  {
    if w :| w in ws && Uses(w, fy) {
      if w.start == start { OtherYear(w, fy); }
      assert w in Without(ws, start);
    }
  }

  lemma {:induction false} WithoutSnoc(ws: seq<Week>, w: Week, start: int)
    ensures Without(ws + [w], start) == Without(ws, start) + if w.start == start then [] else [w]
  {
    assert (ws + [w])[..|ws|] == ws;
  }

  function ReplacedIn(ws: seq<Week>, next: Week): seq<Week> {
    seq(|ws|, i requires 0 <= i < |ws| => if ws[i].start == next.start then Resaved(ws[i], next) else ws[i])
  }

  lemma {:induction false} ReplacedSnoc(ws: seq<Week>, w: Week, next: Week)
    ensures ReplacedIn(ws + [w], next) == ReplacedIn(ws, next) + [if w.start == next.start then Resaved(w, next) else w]
  {
  }

  lemma {:induction false} ReplacedWithout(ws: seq<Week>, next: Week)
    ensures Without(ReplacedIn(ws, next), next.start) == Without(ws, next.start)
  {
    if ws != [] {
      var init, w := ws[..|ws| - 1], ws[|ws| - 1];
      ReplacedWithout(init, next);
      assert ws == init + [w];
      ReplacedSnoc(init, w, next);
      WithoutSnoc(ReplacedIn(init, next), if w.start == next.start then Resaved(w, next) else w, next.start);
      WithoutSnoc(init, w, next.start);
    }
  }

  lemma {:induction false} UpsertedWithout(ws: seq<Week>, next: Week)
    ensures Without(Upserted(ws, next), next.start) == Without(ws, next.start)
  {
    if Has(ws, next.start) {
      ReplacedWithout(ws, next);
    } else {
      assert (ws + [next])[..|ws|] == ws;
    }
  }

  lemma {:induction false} UpsertedWeeks(ws: seq<Week>, next: Week)
    requires Weeks(ws) && |next.days| == 7
    ensures Weeks(Upserted(ws, next))
  {
    if !Has(ws, next.start) {
      assert forall i | 0 <= i < |ws| :: ws[i] in ws;
    } else {
      var out := Upserted(ws, next);
      forall w | w in out ensures |w.days| == 7 {
        var i :| 0 <= i < |out| && out[i] == w;
        assert ws[i] in ws;
      }
    }
  }

  lemma {:induction false} SyncedWeekRights(b: Book, start: int, started: set<int>, fy: int)
    requires fy in YearsOf(start) || RightIn(b, fy)
    ensures RightIn(SyncedWeek(b, start, started), fy)
  {
    var own := FyOf(start);
    SyncRights(b, own, own in started, true);
    SyncRights(Synced(b, own, own in started, true), own + 1, own + 1 in started, false);
  }

  lemma {:induction false} WeeksChanged(b: Book, ws: seq<Week>, start: int, fy: int)
    requires RightIn(b, fy) && SevenDays(b.weeks) && SevenDays(ws) && Without(ws, start) == Without(b.weeks, start)
    requires fy !in YearsOf(start)
    ensures RightIn(b.(weeks := ws), fy)
  {
    WithoutCounts(b.weeks, start, fy);
    WithoutCounts(ws, start, fy);
    WithoutUses(b.weeks, start, fy);
    WithoutUses(ws, start, fy);
  }

  lemma {:induction false} SaveRights(b: Book, s: Save)
    requires Weeks(b.weeks) && Right(b) && |s.pattern| == 7
    ensures Weeks(SaveWeek(b, s).0.weeks) && Right(SaveWeek(b, s).0)
  {
    if SaveWeek(b, s).1.Done? {
      var ws, started := Upserted(b.weeks, WeekOf(s)), NotYetInUse(b.weeks, s.start);
      UpsertedWeeks(b.weeks, WeekOf(s));
      UpsertedWithout(b.weeks, WeekOf(s));
      SyncWeeks(b.(weeks := ws), s.start, started);
      forall fy ensures RightIn(SyncedWeek(b.(weeks := ws), s.start, started), fy) {
        if fy !in YearsOf(s.start) { WeeksChanged(b, ws, s.start, fy); }
        SyncedWeekRights(b.(weeks := ws), s.start, started, fy);
      }
    }
  }

  lemma {:induction false} SyncWeeks(b: Book, start: int, started: set<int>)
    ensures SyncedWeek(b, start, started).weeks == b.weeks
  {
  }

  lemma {:induction false} WithoutTwice(ws: seq<Week>, start: int)
    ensures Without(Without(ws, start), start) == Without(ws, start)
  {
    if ws != [] {
      var init, w := ws[..|ws| - 1], ws[|ws| - 1];
      WithoutTwice(init, start);
      if w.start != start { assert (Without(init, start) + [w])[..|Without(init, start)|] == Without(init, start); }
    }
  }

  lemma {:induction false} WithoutWeeks(ws: seq<Week>, start: int)
    requires Weeks(ws)
    ensures Weeks(Without(ws, start))
  {
    if ws != [] {
      var init, w := ws[..|ws| - 1], ws[|ws| - 1];
      assert forall x | x in init :: x in ws;
      WithoutWeeks(init, start);
      var kept := Without(init, start);
      forall i | 0 <= i < |kept| ensures kept[i].start != w.start {
        assert kept[i] in init;
        var j :| 0 <= j < |init| && init[j] == kept[i];
        assert ws[j].start != ws[|init|].start;
      }
    }
  }

  lemma {:induction false} DeleteRights(b: Book, start: int)
    requires Weeks(b.weeks) && Right(b)
    ensures Weeks(DeleteWeek(b, start).0.weeks) && Right(DeleteWeek(b, start).0)
  {
    if DeleteWeek(b, start).1.Done? {
      var ws := Without(b.weeks, start);
      WithoutTwice(b.weeks, start);
      WithoutWeeks(b.weeks, start);
      SyncWeeks(b.(weeks := ws), start, {});
      forall fy ensures RightIn(SyncedWeek(b.(weeks := ws), start, {}), fy) {
        if fy !in YearsOf(start) { WeeksChanged(b, ws, start, fy); }
        SyncedWeekRights(b.(weeks := ws), start, {}, fy);
      }
    }
  }

  datatype Event = Saved(s: Save) | Deleted(start: int) | PreSet(fy: int, hours: int, source: Source) | Typed(fy: int, typed: Option<int>)

  predicate Sendable(e: Event) { e.Saved? ==> |e.s.pattern| == 7 }

  function Next(b: Book, e: Event): Book
    requires Sendable(e)
  {
    match e
    case Saved(s) => SaveWeek(b, s).0
    case Deleted(start) => DeleteWeek(b, start).0
    case PreSet(fy, hours, source) => SetPreDiary(b, fy, hours, source).0
    case Typed(fy, typed) => TypeHours(b, fy, typed)
  }

  function Run(b: Book, es: seq<Event>): Book
    requires forall e | e in es :: Sendable(e)
  {
    if es == [] then b else Next(Run(b, es[..|es| - 1]), es[|es| - 1])
  }

  /** After every run of saves, late changes, deletes and edits, in every year the diary is in use for, the stored hours
      are the counted pre-diary hours plus the hours of the counted weeks. */
  lemma {:induction false} RunRights(b: Book, es: seq<Event>)
    requires Weeks(b.weeks) && Right(b) && forall e | e in es :: Sendable(e)
    ensures Weeks(Run(b, es).weeks) && Right(Run(b, es))
  {
    if es != [] {
      var init, e := es[..|es| - 1], es[|es| - 1];
      assert e in es && forall x | x in init :: x in es;
      RunRights(b, init);
      var c := Run(b, init);
      match e
      case Saved(s) => SaveRights(c, s);
      case Deleted(start) => DeleteRights(c, start);
      case PreSet(fy, hours, source) => PreRights(c, fy, hours, source);
      case Typed(fy, typed) => TypeRights(c, fy, typed);
    }
  }

  lemma {:induction false} PreRights(b: Book, fy: int, hours: int, source: Source)
    requires Right(b)
    ensures Right(SetPreDiary(b, fy, hours, source).0) && SetPreDiary(b, fy, hours, source).0.weeks == b.weeks
  {
    var c := b.(inputs := b.inputs[fy := Row(b, fy).(pre := Some(hours), preSource := Some(source))]);
    forall g ensures RightIn(SetPreDiary(b, fy, hours, source).0, g) {
      SyncRights(c, fy, false, true);
      assert g != fy ==> RightIn(c, g) == RightIn(b, g);
    }
  }

  lemma {:induction false} TypeRights(b: Book, fy: int, typed: Option<int>)
    requires Right(b)
    ensures Right(TypeHours(b, fy, typed)) && TypeHours(b, fy, typed).weeks == b.weeks
  {
    forall g ensures RightIn(TypeHours(b, fy, typed), g) {
      assert RightIn(b, g);
    }
  }

  // ── Times and days ──────────────────────────────────────────────────────────────────────────────────

  /** The first recorded time of a week never changes while the week is on file. */
  lemma {:induction false} RecordedAtKept(b: Book, s: Save, w: Week)
    requires Weeks(b.weeks) && |s.pattern| == 7 && w in b.weeks
    ensures exists v | v in SaveWeek(b, s).0.weeks :: v.start == w.start && v.recordedAt == w.recordedAt
  {
    if SaveWeek(b, s).1.Done? {
      var ws := Upserted(b.weeks, WeekOf(s));
      SyncWeeks(b.(weeks := ws), s.start, NotYetInUse(b.weeks, s.start));
      var i :| 0 <= i < |b.weeks| && b.weeks[i] == w;
      assert ws[i] in ws && ws[i].start == w.start && ws[i].recordedAt == w.recordedAt;
    }
  }

  function AllHours(days: seq<Day>, n: nat): int
    requires n <= |days|
  {
    if n == 0 then 0 else AllHours(days, n - 1) + days[n - 1].h
  }

  /** A week that straddles 30 June gives each day's hours to exactly one year. */
  lemma {:induction false} WeekSplits(w: Week, n: nat)
    requires n <= |w.days| == 7
    ensures HoursIn(w, FyOf(w.start), n) + HoursIn(w, FyOf(w.start) + 1, n) == AllHours(w.days, n)
  {
    if n > 0 {
      WeekSplits(w, n - 1);
      var own, d := FyOf(w.start), w.start + n - 1;
      assert FyOf(d) in YearsOf(w.start);
      FyUnique(d, own);
      FyUnique(d, own + 1);
    }
  }

  // ── What a save stores, in terms of what was sent ───────────────────────────────────────────────────

  /** The stored week is the one sent: its days as sent or as usual, late after the second Sunday, the source only then. */
  predicate StoredAs(w: Week, s: Save, recordedAt: int)
    requires |s.pattern| == 7
  {
    && w.start == s.start && |w.days| == 7 && w.updatedAt == s.stamp && w.recordedAt == recordedAt
    && (w.late <==> s.today >= s.start + 14) && w.source == (if w.late then s.source else None)
    && forall i | 0 <= i < 7 :: if s.days == None then w.days[i] == Day(s.pattern[i], None) else StoredFor(s.days.value, i, w.days[i])
  }

  /** A save goes through from the week's Friday on, for a Monday since 2020, and late only with a source. It then writes the
      one week, keeping when it was first recorded, and leaves every other week as it was. */
  lemma {:induction false} SaveStores(b: Book, s: Save)
    requires Weeks(b.weeks) && |s.pattern| == 7
    ensures var (c, r) := SaveWeek(b, s);
      && (r.Done? <==> Monday(s.start) && s.start >= EARLIEST_WEEK && s.today >= s.start + 4 && (s.today < s.start + 14 || s.source.Some?))
      && (!r.Done? ==> c == b)
      && (r.Done? ==> forall w | w in c.weeks && w.start == s.start :: StoredAs(w, s, FirstRecorded(b.weeks, s)))
      && (r.Done? ==> exists w | w in c.weeks :: w.start == s.start)
      && forall w: Week | w.start != s.start :: w in c.weeks <==> w in b.weeks
  {
    if SaveWeek(b, s).1.Done? {
      SyncWeeks(b.(weeks := Upserted(b.weeks, WeekOf(s))), s.start, NotYetInUse(b.weeks, s.start));
      OthersStay(b.weeks, WeekOf(s));
      OneStands(b.weeks, WeekOf(s));
      SavedAs(b.weeks, s);
    }
  }

  lemma {:induction false} OthersStay(ws: seq<Week>, next: Week)
    ensures forall w: Week | w.start != next.start :: w in Upserted(ws, next) <==> w in ws
  {
    var out := Upserted(ws, next);
    UpsertedWithout(ws, next);
    forall w: Week | w.start != next.start ensures w in out <==> w in ws {
      assert w in out <==> w in Without(out, next.start);
      assert w in ws <==> w in Without(ws, next.start);
    }
  }

  lemma {:induction false} OneStands(ws: seq<Week>, next: Week)
    ensures exists w | w in Upserted(ws, next) :: w.start == next.start
  {
    var out := Upserted(ws, next);
    if Has(ws, next.start) {
      var i :| 0 <= i < |ws| && ws[i].start == next.start;
      assert out[i] in out && out[i].start == next.start;
    } else {
      assert next in out;
    }
  }

  lemma {:induction false} SavedAs(ws: seq<Week>, s: Save)
    requires Weeks(ws) && |s.pattern| == 7 && (s.today >= s.start + 14 ==> s.source.Some?)
    ensures forall w | w in Upserted(ws, WeekOf(s)) && w.start == s.start :: StoredAs(w, s, FirstRecorded(ws, s))
  {
    StoredWeek(s);
    forall w | w in Upserted(ws, WeekOf(s)) && w.start == s.start ensures StoredAs(w, s, FirstRecorded(ws, s)) {
      SavedIs(ws, WeekOf(s), w);
    }
  }

  lemma {:induction false} StoredWeek(s: Save)
    requires |s.pattern| == 7
    ensures StoredAs(WeekOf(s), s, s.stamp)
  {
  }

  /** When the week was first recorded: now, unless it is on file. */
  ghost function FirstRecorded(ws: seq<Week>, s: Save): int {
    if Has(ws, s.start) then var w :| w in ws && w.start == s.start; w.recordedAt else s.stamp
  }

  lemma {:induction false} SavedIs(ws: seq<Week>, next: Week, w: Week)
    requires Weeks(ws) && w in Upserted(ws, next) && w.start == next.start
    ensures w == if Has(ws, next.start) then next.(recordedAt := w.recordedAt) else next
    ensures Has(ws, next.start) ==> exists i | 0 <= i < |ws| :: ws[i].start == next.start && w.recordedAt == ws[i].recordedAt
  {
    if Has(ws, next.start) {
      var out := Upserted(ws, next);
      var i :| 0 <= i < |out| && out[i] == w;
      assert ws[i].start == next.start;
    }
  }

  /** The hours sent for a day, and for the first n days, leaving out the days off. */
  function WorkedOn(sent: seq<Day>, i: nat): int { if i < |sent| && !DayOff(sent[i]) then sent[i].h else 0 }

  function WorkedHours(sent: seq<Day>, n: nat): int { if n == 0 then 0 else WorkedHours(sent, n - 1) + WorkedOn(sent, n - 1) }

  predicate Whole(sent: seq<Day>) { forall d | d in sent :: 0 <= d.h <= 2400 }

  lemma {:induction false} StoredDay(sent: seq<Day>, i: nat, d: Day)
    requires StoredFor(sent, i, d) && Whole(sent)
    ensures d.h == WorkedOn(sent, i)
  {
    if i < |sent| { assert sent[i] in sent; }
  }

  lemma {:induction false} StoredHours(w: Week, sent: seq<Day>, fy: int, n: nat)
    requires n <= |w.days| == 7 && forall i | 0 <= i < 7 :: w.days[i].h == WorkedOn(sent, i)
    requires FyStart(fy) <= w.start && w.start + 6 <= FyEnd(fy)
    ensures HoursIn(w, fy, n) == WorkedHours(sent, n)
  {
    if n > 0 { StoredHours(w, sent, fy, n - 1); }
  }

  lemma {:induction false} NoneCounted(ws: seq<Week>, fy: int)
    requires SevenDays(ws) && forall w | w in ws :: fy !in YearsOf(w.start)
    ensures Counted(ws, fy) == 0
  {
    if ws != [] {
      assert ws[|ws| - 1] in ws && forall w | w in ws[..|ws| - 1] :: w in ws;
      NoneCounted(ws[..|ws| - 1], fy);
      OtherYear(ws[|ws| - 1], fy);
    }
  }

  lemma {:induction false} WithinYear(start: int, fy: int)
    requires FyStart(fy) <= start && start + 6 <= FyEnd(fy)
    ensures YearsOf(start) == [fy]
  {
    forall d | start <= d <= start + 6 ensures FyOf(d) == fy { FyUnique(d, fy); }
  }

  lemma {:induction false} SentHours(s: Save, sent: seq<Day>, fy: int)
    requires |s.pattern| == 7 && s.days == Some(sent) && Whole(sent) && FyStart(fy) <= s.start && s.start + 6 <= FyEnd(fy)
    ensures WeekHours(WeekOf(s), fy) == WorkedHours(sent, 7)
  {
    var w := WeekOf(s);
    forall i | 0 <= i < 7 ensures w.days[i].h == WorkedOn(sent, i) { StoredDay(sent, i, w.days[i]); }
    StoredHours(w, sent, fy, 7);
  }

  lemma {:induction false} FirstCounted(ws: seq<Week>, next: Week, fy: int)
    requires SevenDays(ws) && fy == FyOf(next.start) && forall w | w in ws :: fy !in YearsOf(w.start)
    ensures Counted(Upserted(ws, next), fy) == CountedIn(next, fy) && InUse(Upserted(ws, next), fy)
  {
    assert fy in YearsOf(next.start);
    CountedSnoc(ws, next, fy);
    NoneCounted(ws, fy);
    SavedIsUsed(ws, next);
  }

  lemma {:induction false} FirstRow(c: Book, start: int, started: set<int>, fy: int)
    requires YearsOf(start) == [fy] && InUse(c.weeks, fy) && fy !in c.inputs
    ensures Row(SyncedWeek(c, start, started), fy).hours == Some(Counted(c.weeks, fy))
  {
    assert fy in YearsOf(start);
    SyncedWeekAt(c, start, started, fy);
  }

  /** The first week of a year with nothing typed: the year's hours are exactly the hours sent for the days worked, or none when
      it is a late week rebuilt from memory. */
  lemma {:induction false} FirstSaveHours(b: Book, s: Save, sent: seq<Day>, fy: int)
    requires SevenDays(b.weeks) && |s.pattern| == 7 && s.days == Some(sent) && Whole(sent) && SaveWeek(b, s).1.Done? && fy !in b.inputs
    requires FyStart(fy) <= s.start && s.start + 6 <= FyEnd(fy) && forall w | w in b.weeks :: fy !in YearsOf(w.start)
    ensures Row(SaveWeek(b, s).0, fy).hours == Some(if s.today >= s.start + 14 && s.source == Some(Memory) then 0 else WorkedHours(sent, 7))
  {
    var c := b.(weeks := Upserted(b.weeks, WeekOf(s)));
    WithinYear(s.start, fy);
    FirstCounted(b.weeks, WeekOf(s), fy);
    SentHours(s, sent, fy);
    FirstRow(c, s.start, NotYetInUse(b.weeks, s.start), fy);
  }

  // ── What else is entered, and when the diary is in use ──────────────────────────────────────────────

  /** The diary is in use for a year once a week starts in it, or any week has hours on one of its days. */
  lemma {:induction false} InUseIff(ws: seq<Week>, fy: int)
    requires SevenDays(ws)
    ensures InUse(ws, fy) <==> exists w | w in ws :: (FyStart(fy) <= w.start < FyStart(fy + 1)) || HasHoursIn(w, fy)
  {
    YearLength(fy);
    forall w | w in ws ensures Uses(w, fy) <==> (FyStart(fy) <= w.start < FyStart(fy + 1)) || HasHoursIn(w, fy) {
      if i :| 0 <= i < |w.days| && w.days[i].h > 0 && w.start + i >= FyStart(fy) && w.start < FyStart(fy) {
        assert FyStart(fy) <= w.start + i < FyStart(fy + 1);
      }
    }
  }

  predicate HasHoursIn(w: Week, fy: int) { exists i | 0 <= i < |w.days| :: w.days[i].h > 0 && FyStart(fy) <= w.start + i < FyStart(fy + 1) }

  /** A delete takes the one week away, when there is one for the Monday; otherwise it changes nothing. */
  lemma {:induction false} DeleteTakes(b: Book, start: int)
    ensures var (c, r) := DeleteWeek(b, start);
      && (r == Done <==> Monday(start) && exists w | w in b.weeks :: w.start == start)
      && (r == Unchanged <==> Monday(start) && forall w | w in b.weeks :: w.start != start)
      && (r != Done ==> c == b)
      && (r == Done ==> forall w :: w in c.weeks <==> w in b.weeks && w.start != start)
  {
    SyncWeeks(b.(weeks := Without(b.weeks, start)), start, {});
  }

  /** Hours typed for a year stand while the diary is not in use there, and otherwise give way to its figure: the hours from before
      the diary, unless they were rebuilt from memory, and the counted ones. No other year changes, and no week. */
  lemma {:induction false} TypedStands(b: Book, fy: int, typed: Option<int>)
    ensures var c := TypeHours(b, fy, typed); var was := Row(b, fy);
      && Row(c, fy).pre == was.pre && Row(c, fy).preSource == was.preSource && c.weeks == b.weeks
      && (forall g | g != fy :: Row(c, g) == Row(b, g))
      && Row(c, fy).hours == if !InUse(b.weeks, fy) then typed
           else Some(Counted(b.weeks, fy) + if was.pre.Some? && was.pre.value > 0 && was.preSource != Some(Memory) then was.pre.value else 0)
  {
  }

  /** Hours from before the diary are taken from 0 to 8784, once it is in use; they count unless rebuilt from memory. */
  lemma {:induction false} PreStands(b: Book, fy: int, hours: int, source: Source)
    ensures var (c, r) := SetPreDiary(b, fy, hours, source);
      && (r == Done <==> 0 <= hours <= 8784 * 100 && InUse(b.weeks, fy))
      && (r != Done ==> c == b)
      && (r == Done ==> Row(c, fy) == Inputs(Some(Counted(b.weeks, fy) + if source == Memory then 0 else hours), Some(hours), Some(source)))
      && (forall g | g != fy :: Row(c, g) == Row(b, g)) && c.weeks == b.weeks
  {
  }

  /** A week's hours count unless it was late and rebuilt from memory, or from nothing said. */
  lemma {:induction false} CountedIff(w: Week, fy: int)
    ensures CountedIn(w, fy)
         == if w.late && w.source !in {Some(SourceCalendar), Some(Timesheet), Some(Roster), Some(SystemLog)} then 0 else HoursIn(w, fy, |w.days|)
  {
    if w.source.Some? {
      var x := w.source.value;
      assert x.SourceCalendar? || x.Timesheet? || x.Roster? || x.SystemLog? || x.Memory?;
    }
  }

  /** The save that brings the diary into use in a year with a row keeps the hours found there as those from before the diary, with
      their source only if they are the ones that were kept already; they count unless that source is memory. */
  lemma {:induction false} FirstSaveKeeps(b: Book, s: Save, fy: int)
    requires Weeks(b.weeks) && |s.pattern| == 7 && SaveWeek(b, s).1.Done? && fy in b.inputs && fy in YearsOf(s.start)
    requires !InUse(b.weeks, fy) && InUse(SaveWeek(b, s).0.weeks, fy)
    ensures var c, was := SaveWeek(b, s).0, b.inputs[fy];
      var source := if was.pre.Some? && was.pre == was.hours then was.preSource else None;
      && Row(c, fy).pre == was.hours && Row(c, fy).preSource == source
      && Row(c, fy).hours == Some(Counted(c.weeks, fy)
           + if was.hours == None || was.hours.value <= 0 || source == Some(Memory) then 0 else was.hours.value)
  {
    var c, started := b.(weeks := Upserted(b.weeks, WeekOf(s))), NotYetInUse(b.weeks, s.start);
    SavedBook(b, s);
    assert fy in started;
    StartedRow(c, s.start, started, fy);
    CapturedRow(b.inputs[fy], Counted(c.weeks, fy), fy == FyOf(s.start));
  }

  lemma {:induction false} SavedBook(b: Book, s: Save)
    requires |s.pattern| == 7 && SaveWeek(b, s).1.Done?
    ensures SaveWeek(b, s).0 == SyncedWeek(b.(weeks := Upserted(b.weeks, WeekOf(s))), s.start, NotYetInUse(b.weeks, s.start))
    ensures SaveWeek(b, s).0.weeks == Upserted(b.weeks, WeekOf(s))
  {
    SyncWeeks(b.(weeks := Upserted(b.weeks, WeekOf(s))), s.start, NotYetInUse(b.weeks, s.start));
  }

  lemma {:induction false} StartedRow(c: Book, start: int, started: set<int>, fy: int)
    requires fy in YearsOf(start) && fy in started && fy in c.inputs && InUse(c.weeks, fy)
    ensures Some(Row(SyncedWeek(c, start, started), fy)) == SyncedRow(Some(c.inputs[fy]), true, Counted(c.weeks, fy), true, fy == FyOf(start))
  {
    SyncedWeekAt(c, start, started, fy);
  }

  lemma {:induction false} CapturedRow(was: Inputs, counted: int, own: bool)
    ensures var source := if was.pre.Some? && was.pre == was.hours then was.preSource else None;
      SyncedRow(Some(was), true, counted, true, own) == Some(Inputs(
        Some(counted + if was.hours == None || was.hours.value <= 0 || source == Some(Memory) then 0 else was.hours.value), was.hours, source))
  {
  }

  // ── Giving the figure back ──────────────────────────────────────────────────────────────────────────

  lemma {:induction false} SyncedAt(b: Book, fy: int, capture: bool, own: bool)
    ensures RowAt(Synced(b, fy, capture, own), fy) == SyncedRow(RowAt(b, fy), InUse(b.weeks, fy), Counted(b.weeks, fy), capture, own)
  {
  }

  /** A week's sync leaves each of its years' rows as that year's own sync does. */
  lemma {:induction false} SyncedWeekAt(b: Book, start: int, started: set<int>, fy: int)
    requires fy in YearsOf(start)
    ensures RowAt(SyncedWeek(b, start, started), fy)
         == SyncedRow(RowAt(b, fy), InUse(b.weeks, fy), Counted(b.weeks, fy), fy in started, fy == FyOf(start))
  {
    var own := FyOf(start);
    SyncedAt(b, own, own in started, true);
    if fy != own { SyncedAt(Synced(b, own, own in started, true), fy, fy in started, false); }
  }

  lemma {:induction false} OwnYearUsed(w: Week)
    ensures Uses(w, FyOf(w.start))
  {
  }

  /** A delete that takes the diary out of use in a year the week only spilled into: with no kept figure, the deleted
      hours stay on the row. */
  lemma {:induction false} DeletedHoursStay(b: Book, start: int, fy: int)
    requires Weeks(b.weeks) && Right(b) && DeleteWeek(b, start).1.Done?
    requires fy in YearsOf(start) && fy != FyOf(start) && InUse(b.weeks, fy) && !InUse(Without(b.weeks, start), fy)
    ensures var c := DeleteWeek(b, start).0;
      Row(c, fy).hours == if Row(b, fy).pre.Some? then Row(b, fy).pre else Some(FyHours(b, fy))
  {
    assert RightIn(b, fy);
    SyncedWeekAt(b.(weeks := Without(b.weeks, start)), start, {}, fy);
  }

  // ── Whole runs give the typed hours back, and exactly when ──────────────────────────────────────────

  lemma {:induction false} NextWeeks(b: Book, e: Event)
    requires Sendable(e) && Weeks(b.weeks)
    ensures Weeks(Next(b, e).weeks)
  {
    match e
    case Saved(s) =>
      UpsertedWeeks(b.weeks, WeekOf(s));
      SyncWeeks(b.(weeks := Upserted(b.weeks, WeekOf(s))), s.start, NotYetInUse(b.weeks, s.start));
    case Deleted(start) =>
      WithoutWeeks(b.weeks, start);
      SyncWeeks(b.(weeks := Without(b.weeks, start)), start, {});
    case PreSet(_, _, _) =>
    case Typed(_, _) =>
  }

  /** The event is a save or delete that goes through, of a week with a day in the year. */
  predicate Touches(b: Book, e: Event, fy: int)
    requires Sendable(e)
  {
    match e
    case Saved(s) => SaveWeek(b, s).1.Done? && fy in YearsOf(s.start)
    case Deleted(start) => DeleteWeek(b, start).1.Done? && fy in YearsOf(start)
    case PreSet(_, _, _) => false
    case Typed(_, _) => false
  }

  /** The year is that of the week's own Monday. */
  predicate OwnYear(e: Event, fy: int) { (e.Saved? && fy == FyOf(e.s.start)) || (e.Deleted? && fy == FyOf(e.start)) }

  /** The user does not type hours into the year, or set its pre-diary hours. */
  predicate NotTyped(e: Event, fy: int) { !(e.PreSet? && e.fy == fy) && !(e.Typed? && e.fy == fy) }

  predicate Used(b: Book, fy: int) { InUse(b.weeks, fy) }

  /** A touched year's row, from whether the year was in use before and is after. */
  lemma {:induction false} TouchedRow(b: Book, e: Event, fy: int)
    requires Sendable(e) && Weeks(b.weeks) && Touches(b, e, fy)
    ensures var c, r := Next(b, e), Row(b, fy);
      && Row(c, fy) == (if Used(c, fy) then (if Used(b, fy) then r else Captured(r)).(hours := Row(c, fy).hours)
                        else if r.pre == None && !OwnYear(e, fy) then r else r.(hours := r.pre))
      && (Used(c, fy) ==> Row(c, fy).hours.Some?)
      && (OwnYear(e, fy) ==> Used(b, fy) || Used(c, fy))
  {
    match e
    case Saved(s) =>
      var ws, started := Upserted(b.weeks, WeekOf(s)), NotYetInUse(b.weeks, s.start);
      SyncWeeks(b.(weeks := ws), s.start, started);
      SyncedWeekAt(b.(weeks := ws), s.start, started, fy);
      SavedIsUsed(b.weeks, WeekOf(s));
    case Deleted(start) =>
      var ws := Without(b.weeks, start);
      SyncWeeks(b.(weeks := ws), start, {});
      SyncedWeekAt(b.(weeks := ws), start, {}, fy);
      DeletedWasUsed(b.weeks, start, fy);
  }

  lemma {:induction false} SavedIsUsed(ws: seq<Week>, next: Week)
    ensures InUse(Upserted(ws, next), FyOf(next.start))
  {
    var out := Upserted(ws, next);
    if Has(ws, next.start) {
      var i :| 0 <= i < |ws| && ws[i].start == next.start;
      assert out[i] in out && out[i].start == next.start;
      OwnYearUsed(out[i]);
    } else {
      assert next in out;
      OwnYearUsed(next);
    }
  }

  lemma {:induction false} DeletedWasUsed(ws: seq<Week>, start: int, fy: int)
    requires Has(ws, start)
    ensures InUse(ws, FyOf(start))
    ensures InUse(Without(ws, start), fy) ==> InUse(ws, fy)
  {
    var w :| w in ws && w.start == start;
    OwnYearUsed(w);
  }

  /** Any other event leaves the year's row and use alone. */
  lemma {:induction false} UntouchedRow(b: Book, e: Event, fy: int)
    requires Sendable(e) && Weeks(b.weeks) && NotTyped(e, fy) && !Touches(b, e, fy)
    ensures Row(Next(b, e), fy) == Row(b, fy) && (Used(Next(b, e), fy) <==> Used(b, fy))
  {
    match e
    case Saved(s) =>
      if SaveWeek(b, s).1.Done? {
        var ws := Upserted(b.weeks, WeekOf(s));
        UpsertedWeeks(b.weeks, WeekOf(s));
        UpsertedWithout(b.weeks, WeekOf(s));
        SyncWeeks(b.(weeks := ws), s.start, NotYetInUse(b.weeks, s.start));
        SyncElsewhere(b.(weeks := ws), s.start, NotYetInUse(b.weeks, s.start), fy);
        WithoutUses(b.weeks, s.start, fy);
        WithoutUses(ws, s.start, fy);
      }
    case Deleted(start) =>
      if DeleteWeek(b, start).1.Done? {
        SyncWeeks(b.(weeks := Without(b.weeks, start)), start, {});
        SyncElsewhere(b.(weeks := Without(b.weeks, start)), start, {}, fy);
        WithoutUses(b.weeks, start, fy);
      }
    case PreSet(_, _, _) =>
    case Typed(_, _) =>
  }

  lemma {:induction false} SyncElsewhere(b: Book, start: int, started: set<int>, fy: int)
    requires fy !in YearsOf(start)
    ensures Row(SyncedWeek(b, start, started), fy) == Row(b, fy)
  {
    assert FyOf(start) == YearsOf(start)[0];
  }

  predicate AllSendable(es: seq<Event>) { forall e | e in es :: Sendable(e) }

  predicate EverUsed(b: Book, es: seq<Event>, fy: int)
    requires AllSendable(es)
  {
    Used(Run(b, es), fy) || (es != [] && EverUsed(b, es[..|es| - 1], fy))
  }

  /** Before the diary was ever in use in the year, a week that has a day there but no hours was saved or deleted. */
  predicate TouchedBeforeUse(b: Book, es: seq<Event>, fy: int)
    requires AllSendable(es)
  {
    && es != []
    && var init := es[..|es| - 1];
       TouchedBeforeUse(b, init, fy) || (!EverUsed(b, es, fy) && Touches(Run(b, init), es[|es| - 1], fy))
  }

  /** Some step took the diary out of use in the year through a week that only spilled into it. */
  predicate SpilledOut(b: Book, es: seq<Event>, fy: int)
    requires AllSendable(es)
  {
    && es != []
    && var init := es[..|es| - 1];
       SpilledOut(b, init, fy) || (Used(Run(b, init), fy) && !Used(Run(b, es), fy) && !OwnYear(es[|es| - 1], fy))
  }

  /** Where one year's row stands: `r` is what it was before the run, and the flags say what the run has done so far. */
  predicate Stands(r: Inputs, now: Inputs, used: bool, ever: bool, touched: bool, spilled: bool) {
    var moved := r.pre.Some? && r.pre != r.hours && touched;
    var due := if moved then r.pre else r.hours;
    && (used ==> ever && now.hours.Some?)
    && if !ever then now.hours == due && now.pre == r.pre
       else if due == None && spilled then now.hours.Some? && (used ==> now.pre.Some?)
       else now.pre == due && (!used ==> now.hours == due)
  }

  lemma {:induction false} RunStands(b: Book, es: seq<Event>, fy: int)
    requires Weeks(b.weeks) && AllSendable(es) && !Used(b, fy) && forall e | e in es :: NotTyped(e, fy)
    ensures Weeks(Run(b, es).weeks)
    ensures Stands(Row(b, fy), Row(Run(b, es), fy), Used(Run(b, es), fy), EverUsed(b, es, fy), TouchedBeforeUse(b, es, fy), SpilledOut(b, es, fy))
    ensures SpilledOut(b, es, fy) ==> EverUsed(b, es, fy)
  {
    if es != [] {
      var init, e := es[..|es| - 1], es[|es| - 1];
      assert e in es && forall x | x in init :: x in es;
      RunStands(b, init, fy);
      var c := Run(b, init);
      NextWeeks(c, e);
      if Touches(c, e, fy) { TouchedRow(c, e, fy); } else { UntouchedRow(c, e, fy); }
      StepStands(Row(b, fy), Row(c, fy), Row(Next(c, e), fy), Used(c, fy), Used(Next(c, e), fy), EverUsed(b, init, fy),
                 TouchedBeforeUse(b, init, fy), SpilledOut(b, init, fy), Touches(c, e, fy), OwnYear(e, fy));
    }
  }

  lemma {:induction false} StepStands(r: Inputs, now: Inputs, next: Inputs, used: bool, used': bool, ever: bool, touched: bool, spilled: bool, hit: bool, own: bool)
    requires Stands(r, now, used, ever, touched, spilled) && (spilled ==> ever)
    requires !hit ==> next == now && used' == used
    requires hit ==> next == (if used' then (if used then now else Captured(now)).(hours := next.hours)
                              else if now.pre == None && !own then now else now.(hours := now.pre))
    requires hit && used' ==> next.hours.Some?
    requires hit && own ==> used || used'
    ensures Stands(r, next, used', used' || ever, touched || (!(used' || ever) && hit), spilled || (used && !used' && !own))
  {
  }

  /**
   * From a year the diary is not in use for, any run of saves, late changes and deletes that takes it out of use again
   * gives back the hours typed for the year if and only if
   * - where another figure was kept from an earlier diary, no week without hours there was saved or deleted first; and
   * - there were hours to keep, or no step took it out of use through a week that only spilled into it.
   */
  lemma {:induction false} TypedHoursComeBack(b: Book, es: seq<Event>, fy: int)
    requires Weeks(b.weeks) && AllSendable(es) && (forall e | e in es :: NotTyped(e, fy))
    requires !Used(b, fy) && !Used(Run(b, es), fy)
    ensures Row(Run(b, es), fy).hours == Row(b, fy).hours <==>
      && (Row(b, fy).pre.Some? && Row(b, fy).pre != Row(b, fy).hours ==> !TouchedBeforeUse(b, es, fy))
      && (Row(b, fy).hours.Some? || !SpilledOut(b, es, fy))
  {
    RunStands(b, es, fy);
  }
}
