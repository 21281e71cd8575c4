/** Australian financial years on day numbers (src/lib/jurisdiction.ts): 1 July to 30 June, leap days included. */
module Calendar {
  /** The day number of 1 July of a year, counted from 1 July of year 0. */
  function FyStart(y: int): int { 365 * y + y / 4 - y / 100 + y / 400 }

  function FyEnd(y: int): int { FyStart(y + 1) - 1 }

  /** The 29 February of a leap year falls in the financial year that started the year before. */
  predicate Leap(y: int) { y % 4 == 0 && (y % 100 == 0 ==> y % 400 == 0) }

  /** A year has 366 days exactly when its second half is in a leap year, and its last day is the day before the next. */
  lemma {:induction false} YearLength(y: int)
    ensures FyStart(y + 1) - FyStart(y) == if Leap(y + 1) then 366 else 365
    ensures FyEnd(y) + 1 == FyStart(y + 1) && FyStart(0) == 0
  {
    Steps(y, 4);
    Steps(y, 100);
    Steps(y, 400);
    Multiples(y + 1);
  }

  lemma {:induction false} Multiples(z: int)
    ensures (z % 400 == 0 ==> z % 100 == 0) && (z % 100 == 0 ==> z % 4 == 0)
  {
    if z % 100 == 0 { FourDivides(z, z / 100); }
    if z % 400 == 0 { HundredDivides(z, z / 400); }
  }

  lemma {:induction false} FourDivides(z: int, q: int)
    requires z == 100 * q
    ensures z % 4 == 0
  {
    assert z % 4 == 4 * (25 * q - z / 4);
  }

  lemma {:induction false} HundredDivides(z: int, q: int)
    requires z == 400 * q
    ensures z % 100 == 0
  {
    assert z % 100 == 100 * (4 * q - z / 100);
  }

  lemma {:induction false} Steps(y: int, n: int)
    requires n == 4 || n == 100 || n == 400
    ensures (y + 1) / n - y / n == if (y + 1) % n == 0 then 1 else 0
  {
    if n == 4 { assert (y + 1) / 4 - y / 4 == if (y + 1) % 4 == 0 then 1 else 0; }
    else if n == 100 { assert (y + 1) / 100 - y / 100 == if (y + 1) % 100 == 0 then 1 else 0; }
    else { assert (y + 1) / 400 - y / 400 == if (y + 1) % 400 == 0 then 1 else 0; }
  }

  lemma {:induction false} YearsInOrder(y: int, z: int)
    requires y < z
    ensures FyStart(y) < FyStart(z)
    decreases z - y
  {
    YearLength(z - 1);
    if y < z - 1 { YearsInOrder(y, z - 1); }
  }

  /** Walk from `y` to the year that contains the day. */
  function FyFrom(d: int, y: int): (r: int)
    ensures FyStart(r) <= d <= FyEnd(r)
    decreases if d < FyStart(y) then FyStart(y) - d else d - FyStart(y)
  {
    YearLength(y);
    YearLength(y - 1);
    if d < FyStart(y) then (if FyStart(y - 1) <= d then y - 1 else FyFrom(d, y - 1))
    else if d <= FyEnd(y) then y
    else FyFrom(d, y + 1)
  }

  function FyOf(d: int): (r: int)
    ensures FyStart(r) <= d <= FyEnd(r)
  {
    FyFrom(d, 0)
  }

  /** Every day is in one year, and years order as their days do. */
  lemma {:induction false} FyUnique(d: int, y: int)
    ensures FyOf(d) <= y <==> d <= FyEnd(y)
    ensures FyOf(d) >= y <==> d >= FyStart(y)
  {
    var r := FyOf(d);
    YearLength(y);
    if r < y { YearsInOrder(r, y); if r + 1 < y { YearsInOrder(r + 1, y); } }
    if y < r { YearsInOrder(y, r); if y + 1 < r { YearsInOrder(y + 1, r); } }
  }
}
