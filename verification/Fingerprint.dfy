/**
 * Statement-line fingerprints (src/lib/statements.ts): the key that decides whether a line is already on file.
 *
 * A line's base is its date, amount, direction and cleaned lower-case merchant. The N-th line of one base in a
 * statement gets occurrence N - 1, counted without looking at the running balance; the key then carries both. SHA-256
 * is an injective function, so a fingerprint stands for the text it hashes, and `KeyText` says when that text in turn
 * stands for its parts. Dates are ISO days read as numbers (2025-07-01 is 20250701), which order like the text does.
 */
module Fingerprint {
  import opened Options

  datatype Direction = Debit | Credit

  datatype Line = Line(date: nat, amount: int, direction: Option<Direction>, merchant: string, balance: Option<int>)

  datatype Base = Base(date: nat, amount: int, direction: Direction, merchant: string)

  datatype Print = Print(account: string, base: Base, balance: Option<int>, occ: nat)

  /** A line with no direction is a debit. */
  function BaseOf(l: Line): Base { Base(l.date, l.amount, l.direction.GetOr(Debit), l.merchant) }

  /** The running balances of the lines of one base, in parse order. */
  function Balances(lines: seq<Line>, b: Base): seq<Option<int>> {
    if lines == [] then [] else
    var init, l := lines[..|lines| - 1], lines[|lines| - 1];
    Balances(init, b) + (if BaseOf(l) == b then [l.balance] else [])
  }

  function Prints(account: string, lines: seq<Line>): (ps: seq<Print>)
    ensures |ps| == |lines|
  {
    if lines == [] then [] else
    var init, l := lines[..|lines| - 1], lines[|lines| - 1];
    Prints(account, init) + [Print(account, BaseOf(l), l.balance, |Balances(init, BaseOf(l))|)]
  }

  /** The occurrence counter as the code keeps it: one map entry per base, bumped line by line. */
  method StatementPrints(account: string, lines: seq<Line>) returns (out: seq<Print>)
    ensures out == Prints(account, lines)
  {
    var occ: map<Base, nat> := map[];
    out := [];
    for i := 0 to |lines|
      invariant out == Prints(account, lines[..i])
      invariant forall b :: (if b in occ then occ[b] else 0) == |Balances(lines[..i], b)|
    {
      var b := BaseOf(lines[i]);
      var occurrence := if b in occ then occ[b] else 0;
      occ := occ[b := occurrence + 1];
      out := out + [Print(account, b, lines[i].balance, occurrence)];
      assert lines[..i + 1][..i] == lines[..i];
    }
    assert lines[..|lines|] == lines;
  }

  // ── What a statement's fingerprints are ─────────────────────────────────────────────────────────────

  /** The fingerprints depend on the lines only through each base's list of balances. */
  lemma {:induction false} InPrints(account: string, lines: seq<Line>, p: Print)
    ensures p in Prints(account, lines) <==>
            var bs := Balances(lines, p.base);
            p.account == account && p.occ < |bs| && bs[p.occ] == p.balance
  {
    if lines != [] {
      InPrints(account, lines[..|lines| - 1], p);
    }
  }

  lemma {:induction false} PrintsDistinct(account: string, lines: seq<Line>)
    ensures forall i, j | 0 <= i < j < |lines| :: Prints(account, lines)[i] != Prints(account, lines)[j]
  {
    if lines != [] {
      var init := lines[..|lines| - 1];
      PrintsDistinct(account, init);
      InPrints(account, init, Prints(account, lines)[|init|]);
    }
  }

  /** Two lines print the same date, amount, direction (a missing one reads as a debit) and merchant. */
  predicate Alike(x: Line, y: Line) {
    && x.date == y.date && x.amount == y.amount && x.merchant == y.merchant
    && (x.direction == Some(Credit) <==> y.direction == Some(Credit))
  }

  /** The earlier lines of the statement that read like line i. */
  ghost function Earlier(lines: seq<Line>, i: nat): set<nat>
    requires i < |lines|
  {
    set j: nat | j < i && Alike(lines[j], lines[i])
  }

  lemma {:induction false} AlikeIff(x: Line, y: Line)
    ensures Alike(x, y) <==> BaseOf(x) == BaseOf(y)
  {
    assert x.direction.None? || x.direction.value.Debit? || x.direction.value.Credit?;
    assert y.direction.None? || y.direction.value.Debit? || y.direction.value.Credit?;
  }

  lemma {:induction false} BalancesCount(lines: seq<Line>, l: Line, i: nat)
    requires i <= |lines|
    ensures |Balances(lines[..i], BaseOf(l))| == |(set j: nat | j < i && Alike(lines[j], l))|
  {
    if i > 0 {
      BalancesCount(lines, l, i - 1);
      assert lines[..i][..i - 1] == lines[..i - 1];
      AlikeIff(lines[i - 1], l);
      var before, now := (set j: nat | j < i - 1 && Alike(lines[j], l)), (set j: nat | j < i && Alike(lines[j], l));
      if Alike(lines[i - 1], l) {
        assert now == before + {i - 1};
      } else {
        assert now == before;
      }
    }
  }

  /** A fingerprint carries its own line's columns, and how many earlier lines of the statement read the same. */
  lemma {:induction false} PrintCarries(account: string, lines: seq<Line>, i: nat)
    requires i < |lines|
    ensures var p, l := Prints(account, lines)[i], lines[i];
      && p.account == account && p.base.date == l.date && p.base.amount == l.amount && p.base.merchant == l.merchant
      && (p.base.direction == Credit <==> l.direction == Some(Credit))
      && p.balance == l.balance && p.occ == |Earlier(lines, i)|
    decreases |lines|
  {
    var init := lines[..|lines| - 1];
    if i < |init| {
      PrintCarries(account, init, i);
      assert Earlier(lines, i) == Earlier(init, i);
    } else {
      BalancesCount(lines, lines[i], i);
    }
  }

  /** So two lines share a fingerprint, within a statement or across two, exactly when every column agrees and each is as
      many-th of its kind. */
  lemma {:induction false} SamePrintIff(account: string, xs: seq<Line>, i: nat, ys: seq<Line>, j: nat)
    requires i < |xs| && j < |ys|
    ensures Prints(account, xs)[i] == Prints(account, ys)[j]
      <==> Alike(xs[i], ys[j]) && xs[i].balance == ys[j].balance && |Earlier(xs, i)| == |Earlier(ys, j)|
  {
    PrintCarries(account, xs, i);
    PrintCarries(account, ys, j);
  }

  predicate Covers(account: string, before: seq<Line>, now: seq<Line>) {
    forall p | p in Prints(account, now) :: p in Prints(account, before)
  }

  /** Base by base, the balances of `again` are a prefix of those of `first`. */
  ghost predicate Continues(first: seq<Line>, again: seq<Line>) {
    forall b :: Balances(again, b) <= Balances(first, b)
  }

  /** Importing `again` after `first` adds nothing exactly when, base by base, its balances are a prefix of those
      already imported. */
  lemma {:induction false} ReimportAddsNothing(account: string, first: seq<Line>, again: seq<Line>)
    ensures Covers(account, first, again) <==> Continues(first, again)
  {
    if Covers(account, first, again) {
      forall b ensures Balances(again, b) <= Balances(first, b) {
        CoveredPrefix(account, first, again, b);
      }
    } else {
      var p :| p in Prints(account, again) && p !in Prints(account, first);
      InPrints(account, again, p);
      InPrints(account, first, p);
      assert !(Balances(again, p.base) <= Balances(first, p.base));
    }
  }

  lemma {:induction false} CoveredPrefix(account: string, first: seq<Line>, again: seq<Line>, b: Base)
    requires Covers(account, first, again)
    ensures Balances(again, b) <= Balances(first, b)
  {
    var before, now := Balances(first, b), Balances(again, b);
    forall k: nat | k < |now| ensures k < |before| && before[k] == now[k] {
      var p := Print(account, b, now[k], k);
      InPrints(account, again, p);
      InPrints(account, first, p);
    }
    if now != [] {
      var last := |now| - 1;
      var x := now[last];
      assert last < |before|;
    }
  }

  predicate SamePrints(account: string, xs: seq<Line>, ys: seq<Line>) {
    Covers(account, xs, ys) && Covers(account, ys, xs)
  }

  ghost predicate SameBalances(xs: seq<Line>, ys: seq<Line>) { forall b :: Balances(xs, b) == Balances(ys, b) }

  /** Two statements leave the same fingerprints exactly when every base's balance list is the same. */
  lemma {:induction false} SamePrintsIff(account: string, xs: seq<Line>, ys: seq<Line>)
    ensures SamePrints(account, xs, ys) <==> SameBalances(xs, ys)
  {
    ReimportAddsNothing(account, xs, ys);
    ReimportAddsNothing(account, ys, xs);
    if Continues(xs, ys) && Continues(ys, xs) {
      forall b ensures Balances(xs, b) == Balances(ys, b) {
        assert Balances(xs, b) <= Balances(ys, b) && Balances(ys, b) <= Balances(xs, b);
      }
    }
    assert SameBalances(xs, ys) ==> Continues(xs, ys) && Continues(ys, xs);
  }

  // ── Statements with no running balance ──────────────────────────────────────────────────────────────

  function Bases(lines: seq<Line>): (bs: seq<Base>)
    ensures |bs| == |lines|
  {
    if lines == [] then [] else Bases(lines[..|lines| - 1]) + [BaseOf(lines[|lines| - 1])]
  }

  predicate Balanceless(lines: seq<Line>) { forall l | l in lines :: l.balance == None }

  lemma {:induction false} BalancelessCount(lines: seq<Line>, b: Base)
    requires Balanceless(lines)
    ensures |Balances(lines, b)| == multiset(Bases(lines))[b]
    ensures forall x | x in Balances(lines, b) :: x == None
  {
    if lines != [] {
      BalancelessCount(lines[..|lines| - 1], b);
    }
  }

  lemma {:induction false} SameCountsSameBalances(xs: seq<Line>, ys: seq<Line>, b: Base)
    requires Balanceless(xs) && Balanceless(ys)
    ensures Balances(xs, b) == Balances(ys, b) <==> multiset(Bases(xs))[b] == multiset(Bases(ys))[b]
  {
    BalancelessCount(xs, b);
    BalancelessCount(ys, b);
    var u, v := Balances(xs, b), Balances(ys, b);
    if |u| == |v| {
      forall k | 0 <= k < |u| ensures u[k] == v[k] {
        assert u[k] in u && v[k] in v;
      }
    }
  }

  /** With no balances printed, only how often each base occurs matters: line order does not, and every genuine repeat
      is kept. */
  lemma {:induction false} CountsDecide(account: string, xs: seq<Line>, ys: seq<Line>)
    requires Balanceless(xs) && Balanceless(ys)
    ensures SamePrints(account, xs, ys) <==> multiset(Bases(xs)) == multiset(Bases(ys))
  {
    SamePrintsIff(account, xs, ys);
    var us, vs := multiset(Bases(xs)), multiset(Bases(ys));
    if SamePrints(account, xs, ys) {
      forall b ensures us[b] == vs[b] { SameCountsSameBalances(xs, ys, b); }
    }
    if us == vs {
      forall b ensures Balances(xs, b) == Balances(ys, b) { SameCountsSameBalances(xs, ys, b); }
    }
  }

  /** With balances printed neither holds. Two lines of one base and different balances: the second, on a later
      statement that starts with it, is not recognised and would be posted again. */
  lemma {:induction false} OverlapPostsAgain(account: string, a: Line, b: Line)
    requires BaseOf(a) == BaseOf(b) && a.balance != b.balance
    ensures var whole, tail := Prints(account, [a, b]), Prints(account, [b]);
      && tail[0].balance == whole[1].balance && tail[0].base == whole[1].base && tail[0] !in whole
    ensures !Covers(account, [a, b], [b]) && !Covers(account, [a, b], [b, a])
  {
    assert [a, b][..1] == [a] && [b, a][..1] == [b];
    assert Balances([a], BaseOf(a)) == [a.balance] && Balances([b], BaseOf(a)) == [b.balance];
    assert Prints(account, [a, b]) == [Print(account, BaseOf(a), a.balance, 0), Print(account, BaseOf(a), b.balance, 1)];
    assert Prints(account, [b]) == [Print(account, BaseOf(a), b.balance, 0)];
    assert Prints(account, [b, a])[0] == Print(account, BaseOf(a), b.balance, 0);
  }

  // ── The hashed text ─────────────────────────────────────────────────────────────────────────────────

  function Digit(n: nat): char
    requires n < 10
  {
    '0' + n as char
  }

  function Decimal(n: nat): (s: string)
    ensures |s| > 0 && forall c | c in s :: '0' <= c <= '9'
  {
    if n < 10 then [Digit(n)] else Decimal(n / 10) + [Digit(n % 10)]
  }

  function Number(n: int): string { if n < 0 then "-" + Decimal(-n) else Decimal(n) }

  function Value(s: string): int {
    if s == [] then 0 else 10 * Value(s[..|s| - 1]) + (s[|s| - 1] as int - '0' as int)
  }

  lemma {:induction false} DecimalRoundTrip(n: nat)
    ensures Value(Decimal(n)) == n
  {
    if n >= 10 {
      DecimalRoundTrip(n / 10);
    }
  }

  lemma {:induction false} NumberInjective(m: int, n: int)
    ensures Number(m) == Number(n) ==> m == n
  {
    DecimalRoundTrip(if m < 0 then -m else m);
    DecimalRoundTrip(if n < 0 then -n else n);
    if Number(m) == Number(n) {
      assert Number(m)[0] == Number(n)[0];
      assert m < 0 ==> Number(m)[1..] == Decimal(-m);
      assert n < 0 ==> Number(n)[1..] == Decimal(-n);
      assert m >= 0 ==> Number(m)[0] in Decimal(m);
      assert n >= 0 ==> Number(n)[0] in Decimal(n);
    }
  }

  predicate NoBar(s: string) { '|' !in s }

  function DirText(d: Direction): string { if d == Debit then "debit" else "credit" }

  function BalanceText(balance: Option<int>): string {
    match balance case Some(n) => "|" + Number(n) case None => ""
  }

  function OccText(occ: nat): string { if occ > 0 then "|#" + Decimal(occ) else "" }

  function Field(x: string, rest: string): string { x + ("|" + rest) }

  function TailText(p: Print): string { (p.base.merchant + BalanceText(p.balance)) + OccText(p.occ) }

  function KeyText(p: Print): string {
    Field(p.account, Field(Number(p.base.date), Field(Number(p.base.amount), Field(DirText(p.base.direction), TailText(p)))))
  }

  /** A merchant whose own text ends like a printed balance or an occurrence mark. */
  predicate ReadsAsBalance(m: string, m0: string, n: int) { m == m0 + BalanceText(Some(n)) }

  predicate ReadsAsRepeat(m: string, m0: string, k: nat) { k > 0 && m == m0 + OccText(k) }

  ghost predicate Ambiguous(m: string) {
    || (exists m0, n :: ReadsAsBalance(m, m0, n))
    || (exists m0, k: nat :: ReadsAsRepeat(m, m0, k))
  }

  lemma {:induction false} BarAt(x: string, r: string)
    ensures |Field(x, r)| == |x| + 1 + |r| && Field(x, r)[|x|] == '|'
    ensures Field(x, r)[..|x|] == x && Field(x, r)[|x| + 1..] == r
    ensures NoBar(x) ==> forall i | 0 <= i < |x| :: Field(x, r)[i] != '|'
    ensures NoBar(r) ==> forall i | |x| < i < |Field(x, r)| :: Field(x, r)[i] != '|'
  {
    forall i | 0 <= i < |x| ensures Field(x, r)[i] in x {
      assert Field(x, r)[i] == x[i];
    }
    forall i | |x| < i < |Field(x, r)| ensures Field(x, r)[i] in r {
      assert Field(x, r)[i] == r[i - |x| - 1];
    }
  }

  /** Text splits in one way only at its first bar, and in one way only at its last. */
  lemma {:induction false} SplitOnce(x: string, y: string, r: string, s: string)
    requires Field(x, r) == Field(y, s)
    requires (NoBar(x) && NoBar(y)) || (NoBar(r) && NoBar(s))
    ensures x == y && r == s
  {
    BarAt(x, r);
    BarAt(y, s);
    assert |x| == |y|;
  }

  /** The hashed text determines the fingerprint's parts unless a merchant is itself ambiguous ... */
  lemma {:induction false} KeyTextInjective(p: Print, q: Print)
    requires NoBar(p.account) && NoBar(q.account)
    requires !Ambiguous(p.base.merchant) && !Ambiguous(q.base.merchant)
    ensures KeyText(p) == KeyText(q) <==> p == q
  {
    if KeyText(p) == KeyText(q) {
      HeadsEqual(p, q);
      OccEqual(p, q);
      BalanceEqual(p, q);
    }
  }

  lemma {:induction false} NumberNoBar(n: int)
    ensures NoBar(Number(n)) && |Number(n)| > 0 && Number(n)[0] != '#'
  {
    var d := Decimal(if n < 0 then -n else n);
    assert d[0] in d;
    assert forall c | c in Number(n) :: c == '-' || c in d;
  }

  lemma {:induction false} HeadsEqual(p: Print, q: Print)
    requires NoBar(p.account) && NoBar(q.account) && KeyText(p) == KeyText(q)
    ensures p.account == q.account && p.base.date == q.base.date && p.base.amount == q.base.amount
    ensures p.base.direction == q.base.direction && TailText(p) == TailText(q)
  {
    var p1, q1 := Field(DirText(p.base.direction), TailText(p)), Field(DirText(q.base.direction), TailText(q));
    var p2, q2 := Field(Number(p.base.amount), p1), Field(Number(q.base.amount), q1);
    SplitOnce(p.account, q.account, Field(Number(p.base.date), p2), Field(Number(q.base.date), q2));
    NumberField(p.base.date, q.base.date, p2, q2);
    NumberField(p.base.amount, q.base.amount, p1, q1);
    SplitOnce(DirText(p.base.direction), DirText(q.base.direction), TailText(p), TailText(q));
    assert "debit"[0] != "credit"[0];
  }

  lemma {:induction false} NumberField(m: int, n: int, r: string, s: string)
    requires Field(Number(m), r) == Field(Number(n), s)
    ensures m == n && r == s
  {
    NumberNoBar(m);
    NumberNoBar(n);
    SplitOnce(Number(m), Number(n), r, s);
    NumberInjective(m, n);
  }

  function OccMark(occ: nat): (s: string)
    ensures NoBar(s) && |s| > 1 && s[0] == '#' && s[1..] == Decimal(occ)
  {
    var d := Decimal(occ);
    assert forall c | c in "#" + d :: c == '#' || c in d;
    "#" + d
  }

  lemma {:induction false} TailSplits(p: Print)
    ensures var x := p.base.merchant + BalanceText(p.balance);
            TailText(p) == if p.occ > 0 then Field(x, OccMark(p.occ)) else x
    ensures p.base.merchant + BalanceText(p.balance) == match p.balance case Some(n) => Field(p.base.merchant, Number(n)) case None => p.base.merchant
  {
    if p.occ > 0 { assert "|#" + Decimal(p.occ) == "|" + OccMark(p.occ); }
  }

  /** One tail with an occurrence mark and one without would make the second's merchant ambiguous. */
  lemma {:induction false} OneOccOnly(p: Print, q: Print)
    requires TailText(p) == TailText(q) && p.occ > 0 && q.occ == 0
    ensures Ambiguous(q.base.merchant)
  {
    TailSplits(p);
    TailSplits(q);
    var x := p.base.merchant + BalanceText(p.balance);
    if q.balance.Some? {
      NumberNoBar(q.balance.value);
      SplitOnce(x, q.base.merchant, OccMark(p.occ), Number(q.balance.value));
      assert false;
    } else {
      assert OccText(p.occ) == "|" + OccMark(p.occ);
      assert ReadsAsRepeat(q.base.merchant, x, p.occ);
    }
  }

  lemma {:induction false} OccEqual(p: Print, q: Print)
    requires TailText(p) == TailText(q) && !Ambiguous(p.base.merchant) && !Ambiguous(q.base.merchant)
    ensures p.occ == q.occ && p.base.merchant + BalanceText(p.balance) == q.base.merchant + BalanceText(q.balance)
  {
    if p.occ > 0 && q.occ == 0 { OneOccOnly(p, q); }
    if q.occ > 0 && p.occ == 0 { OneOccOnly(q, p); }
    TailSplits(p);
    TailSplits(q);
    if p.occ > 0 && q.occ > 0 {
      SplitOnce(p.base.merchant + BalanceText(p.balance), q.base.merchant + BalanceText(q.balance), OccMark(p.occ), OccMark(q.occ));
      NumberInjective(p.occ, q.occ);
    }
  }

  lemma {:induction false} OneBalanceOnly(p: Print, q: Print)
    requires p.base.merchant + BalanceText(p.balance) == q.base.merchant + BalanceText(q.balance)
    requires p.balance.Some? && q.balance == None
    ensures Ambiguous(q.base.merchant)
  {
    assert q.base.merchant + "" == q.base.merchant;
    assert ReadsAsBalance(q.base.merchant, p.base.merchant, p.balance.value);
  }

  lemma {:induction false} BalanceEqual(p: Print, q: Print)
    requires p.base.merchant + BalanceText(p.balance) == q.base.merchant + BalanceText(q.balance)
    requires !Ambiguous(p.base.merchant) && !Ambiguous(q.base.merchant)
    ensures p.base.merchant == q.base.merchant && p.balance == q.balance
  {
    TailSplits(p);
    TailSplits(q);
    if p.balance.Some? && q.balance.Some? {
      var m, n := p.balance.value, q.balance.value;
      NumberNoBar(m);
      NumberNoBar(n);
      SplitOnce(p.base.merchant, q.base.merchant, Number(m), Number(n));
      NumberInjective(m, n);
    }
    if p.balance.Some? && q.balance == None { OneBalanceOnly(p, q); }
    if q.balance.Some? && p.balance == None { OneBalanceOnly(q, p); }
  }

  /** ... and every ambiguous merchant does collide, with a line of a different merchant. */
  lemma {:induction false} AmbiguousCollides(p: Print) returns (q: Print)
    requires Ambiguous(p.base.merchant) && p.balance == None && p.occ == 0
    ensures q != p && q.base.merchant != p.base.merchant && KeyText(q) == KeyText(p)
  {
    var m := p.base.merchant;
    assert TailText(p) == m;
    if m0, n :| ReadsAsBalance(m, m0, n) {
      q := CollideBalance(p, m0, n);
    } else {
      var m0, k: nat :| ReadsAsRepeat(m, m0, k);
      q := CollideRepeat(p, m0, k);
    }
  }

  lemma {:induction false} CollideBalance(p: Print, m0: string, n: int) returns (q: Print)
    requires ReadsAsBalance(p.base.merchant, m0, n) && TailText(p) == p.base.merchant
    ensures q != p && q.base.merchant != p.base.merchant && KeyText(q) == KeyText(p)
  {
    q := p.(base := p.base.(merchant := m0), balance := Some(n), occ := 0);
    assert |p.base.merchant| > |m0|;
    assert TailText(q) == p.base.merchant + "";
  }

  lemma {:induction false} CollideRepeat(p: Print, m0: string, k: nat) returns (q: Print)
    requires ReadsAsRepeat(p.base.merchant, m0, k) && TailText(p) == p.base.merchant
    ensures q != p && q.base.merchant != p.base.merchant && KeyText(q) == KeyText(p)
  {
    q := p.(base := p.base.(merchant := m0), balance := None, occ := k);
    assert |p.base.merchant| > |m0|;
    assert m0 + "" == m0;
    assert TailText(q) == p.base.merchant;
  }
}
