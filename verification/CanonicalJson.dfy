/**
 * The snapshot comparison (scripts/check-au-snapshot.ts, scripts/e2e-first-timer.ts): a JSON value is normalised (keys
 * sorted, volatile keys dropped at any depth), printed with two-space indentation and compared line by line.
 *
 * The grammar is that of sections 4 to 7 of RFC 8259. Keys sort by code unit. Numbers are kept as their printed text.
 */
module CanonicalJson {

  datatype Field = Field(key: string, value: Value)

  datatype Value = Null | Bool(b: bool) | Num(text: string) | Str(s: string) | Arr(items: seq<Value>) | Obj(fields: seq<Field>)

  // ── Well-formed values ──────────────────────────────────────────────────────────────────────────────

  predicate NumChar(c: char) { '0' <= c <= '9' || c in {'-', '+', '.', 'e', 'E'} }

  /** A number's text: not empty, number characters only, starting with a digit or a minus sign. */
  predicate NumText(t: string) { t != "" && ('0' <= t[0] <= '9' || t[0] == '-') && forall c | c in t :: NumChar(c) }

  predicate DistinctKeys(fs: seq<Field>) { forall i, j | 0 <= i < j < |fs| :: fs[i].key != fs[j].key }

  /** Object keys are distinct and number texts are numbers, at every depth. */
  predicate Good(v: Value) {
    match v
    case Num(t) => NumText(t)
    case Arr(vs) => forall i | 0 <= i < |vs| :: Good(vs[i])
    case Obj(fs) => DistinctKeys(fs) && forall i | 0 <= i < |fs| :: Good(fs[i].value)
    case _ => true
  }

  /** A number's text in the letters of section 6 of RFC 8259. */
  lemma {:induction false} NumTextIff(t: string)
    ensures NumText(t) <==> |t| > 0 && t[0] in "-0123456789" && forall c | c in t :: c in "0123456789-+.eE"
  {
    forall c: char ensures NumChar(c) <==> c in "0123456789-+.eE" { DigitIn(c); }
    if |t| > 0 { DigitIn(t[0]); }
  }

  lemma {:induction false} DigitIn(c: char)
    ensures c in "0123456789-+.eE" <==> '0' <= c <= '9' || c in {'-', '+', '.', 'e', 'E'}
    ensures c in "-0123456789" <==> '0' <= c <= '9' || c == '-'
  {
    var all, first := "0123456789-+.eE", "-0123456789";
    if '0' <= c <= '9' { assert all[c as int - '0' as int] == c && first[c as int - '0' as int + 1] == c; }
    assert all[10] == '-' && all[11] == '+' && all[12] == '.' && all[13] == 'e' && all[14] == 'E' && first[0] == '-';
  }

  // ── String order ────────────────────────────────────────────────────────────────────────────────────

  predicate Less(a: string, b: string) {
    if b == "" then false else if a == "" then true else a[0] < b[0] || (a[0] == b[0] && Less(a[1..], b[1..]))
  }

  lemma {:induction false} LessTotal(a: string, b: string)
    ensures Less(a, b) || a == b || Less(b, a)
    ensures !(Less(a, b) && Less(b, a)) && !Less(a, a)
  {
    if a != "" { LessTotal(a[1..], a[1..]); }
    if a != "" && b != "" {
      LessTotal(a[1..], b[1..]);
      if a[0] == b[0] && a[1..] == b[1..] { assert a == [a[0]] + a[1..] && b == [b[0]] + b[1..]; }
    }
  }

  lemma {:induction false} LessTransitive(a: string, b: string, c: string)
    requires Less(a, b) && Less(b, c)
    ensures Less(a, c)
  {
    if a != "" { if a[0] == b[0] == c[0] { LessTransitive(a[1..], b[1..], c[1..]); } }
  }

  // ── Sorting fields ──────────────────────────────────────────────────────────────────────────────────

  predicate Sorted(fs: seq<Field>) { forall i, j | 0 <= i < j < |fs| :: Less(fs[i].key, fs[j].key) }

  function Inserted(fs: seq<Field>, f: Field): (out: seq<Field>)
    ensures forall g :: g in out <==> g in fs || g == f
    ensures |out| == |fs| + 1
  {
    if fs == [] then [f]
    else if Less(f.key, fs[0].key) then [f] + fs
    else [fs[0]] + Inserted(fs[1..], f)
  }

  lemma {:induction false} InsertedSorted(fs: seq<Field>, f: Field)
    requires Sorted(fs) && forall g | g in fs :: g.key != f.key
    ensures Sorted(Inserted(fs, f))
  {
    if fs != [] {
      LessTotal(f.key, fs[0].key);
      if Less(f.key, fs[0].key) {
        forall j | 0 <= j < |fs| ensures Less(f.key, fs[j].key) {
          if j > 0 { LessTransitive(f.key, fs[0].key, fs[j].key); }
        }
      } else {
        assert fs[0] in fs && forall g | g in fs[1..] :: g in fs;
        InsertedSorted(fs[1..], f);
        var rest := Inserted(fs[1..], f);
        forall j | 0 <= j < |rest| ensures Less(fs[0].key, rest[j].key) {
          assert rest[j] in rest;
          if rest[j] != f { var k :| 0 <= k < |fs[1..]| && fs[1..][k] == rest[j]; assert fs[k + 1] == rest[j]; }
        }
      }
    }
  }

  // ── Normalising ─────────────────────────────────────────────────────────────────────────────────────

  function Normal(volatile: string -> bool, v: Value): (n: Value)
    decreases v
  {
    match v
    case Arr(vs) => Arr(seq(|vs|, i requires 0 <= i < |vs| => Normal(volatile, vs[i])))
    case Obj(fs) => Obj(NormalFields(volatile, fs))
    case _ => v
  }

  /** Keys sorted, volatile ones dropped, values normalised. */
  function NormalFields(volatile: string -> bool, fs: seq<Field>): (out: seq<Field>)
    decreases fs
  {
    if fs == [] then [] else
    var f := fs[0];
    var rest := NormalFields(volatile, fs[1..]);
    if volatile(f.key) then rest else Inserted(rest, Field(f.key, Normal(volatile, f.value)))
  }

  predicate Comes(volatile: string -> bool, fs: seq<Field>, g: Field) {
    exists i | 0 <= i < |fs| :: !volatile(fs[i].key) && g == Field(fs[i].key, Normal(volatile, fs[i].value))
  }

  lemma {:induction false} NormalFieldsIn(volatile: string -> bool, fs: seq<Field>, g: Field)
    ensures g in NormalFields(volatile, fs) <==> Comes(volatile, fs, g)
    decreases |fs|
  {
    if fs != [] {
      NormalFieldsIn(volatile, fs[1..], g);
      if i :| 0 <= i < |fs| && !volatile(fs[i].key) && g == Field(fs[i].key, Normal(volatile, fs[i].value)) {
        if i > 0 { assert fs[1..][i - 1] == fs[i]; }
      }
      if j :| 0 <= j < |fs[1..]| && !volatile(fs[1..][j].key) && g == Field(fs[1..][j].key, Normal(volatile, fs[1..][j].value)) {
        assert fs[j + 1] == fs[1..][j];
      }
    }
  }

  lemma {:induction false} NormalFieldsSorted(volatile: string -> bool, fs: seq<Field>)
    requires DistinctKeys(fs)
    ensures Sorted(NormalFields(volatile, fs))
    decreases |fs|
  {
    if fs != [] {
      NormalFieldsSorted(volatile, fs[1..]);
      var rest := NormalFields(volatile, fs[1..]);
      forall g | g in rest ensures g.key != fs[0].key {
        NormalFieldsIn(volatile, fs[1..], g);
        var i :| 0 <= i < |fs[1..]| && g.key == fs[1..][i].key;
        assert fs[i + 1].key == g.key;
      }
      if !volatile(fs[0].key) { InsertedSorted(rest, Field(fs[0].key, Normal(volatile, fs[0].value))); }
    }
  }

  // ── Sorted keys ─────────────────────────────────────────────────────────────────────────────────────

  /** The strings first differ at k, and the first is smaller there. */
  predicate SmallerAt(a: string, b: string, k: nat) { k < |a| && k < |b| && a[..k] == b[..k] && a[k] < b[k] }

  lemma {:induction false} SmallerShift(a: string, b: string, k: nat)
    requires a != "" && b != "" && a[0] == b[0]
    ensures SmallerAt(a[1..], b[1..], k) <==> SmallerAt(a, b, k + 1)
  {
    if k < |a[1..]| && k < |b[1..]| {
      assert a[..k + 1] == [a[0]] + a[1..][..k] && b[..k + 1] == [b[0]] + b[1..][..k];
      assert a[1..][..k] == a[..k + 1][1..] && b[1..][..k] == b[..k + 1][1..];
    }
  }

  lemma {:induction false} FirstDiffer(a: string, b: string, k: nat)
    requires SmallerAt(a, b, k)
    ensures k == 0 || a[..k][0] == b[..k][0]
  {
  }

  lemma {:induction false} BeginsShift(a: string, b: string)
    requires a != "" && b != "" && a[0] == b[0]
    ensures a[1..] <= b[1..] && a[1..] != b[1..] <==> a <= b && a != b
  {
    assert a == [a[0]] + a[1..] && b == [b[0]] + b[1..];
  }

  /** The first string comes first by code unit: it is a shorter beginning of the second, or smaller where they first differ. */
  lemma {:induction false} LessIs(a: string, b: string)
    ensures Less(a, b) <==> (a <= b && a != b) || exists k: nat :: SmallerAt(a, b, k)
  {
    if a != "" && b != "" {
      if a[0] == b[0] {
        LessIs(a[1..], b[1..]);
        BeginsShift(a, b);
        if k: nat :| SmallerAt(a, b, k) { SmallerShift(a, b, k - 1); }
        if k: nat :| SmallerAt(a[1..], b[1..], k) { SmallerShift(a, b, k); }
      } else {
        assert a[0] < b[0] ==> SmallerAt(a, b, 0);
        if k: nat :| SmallerAt(a, b, k) { FirstDiffer(a, b, k); }
      }
    }
  }

  /** In a normalised object the keys are in order, none is volatile, and each other key is there with its own value. */
  lemma {:induction false} NormalObject(volatile: string -> bool, fs: seq<Field>)
    requires DistinctKeys(fs)
    ensures var n := Normal(volatile, Obj(fs));
      && n.Obj? && (forall i, j | 0 <= i < j < |n.fields| :: Less(n.fields[i].key, n.fields[j].key))
      && (forall g | g in n.fields :: !volatile(g.key))
      && forall f | f in fs && !volatile(f.key) :: Field(f.key, Normal(volatile, f.value)) in n.fields
  {
    NormalFieldsSorted(volatile, fs);
    forall g | g in NormalFields(volatile, fs) ensures !volatile(g.key) { NormalFieldsIn(volatile, fs, g); }
    forall f | f in fs && !volatile(f.key) ensures Field(f.key, Normal(volatile, f.value)) in NormalFields(volatile, fs) {
      var i :| 0 <= i < |fs| && fs[i] == f;
      NormalFieldsIn(volatile, fs, Field(f.key, Normal(volatile, f.value)));
    }
  }

  /** Two sorted field lists with the same fields are the same list. */
  lemma {:induction false} SortedUnique(fs: seq<Field>, gs: seq<Field>)
    requires Sorted(fs) && Sorted(gs) && forall f :: f in fs <==> f in gs
    ensures fs == gs
  {
    NotEmptyHas(fs);
    NotEmptyHas(gs);
    if fs != [] && gs != [] {
      assert fs[0] in gs && gs[0] in fs;
      LessTotal(fs[0].key, gs[0].key);
      FirstIsLeast(fs, gs[0]);
      FirstIsLeast(gs, fs[0]);
      forall f ensures f in fs[1..] <==> f in gs[1..] {
        RestIs(fs, f);
        RestIs(gs, f);
      }
      SortedUnique(fs[1..], gs[1..]);
      assert fs == [fs[0]] + fs[1..] && gs == [gs[0]] + gs[1..];
    }
  }

  lemma {:induction false} NotEmptyHas(fs: seq<Field>)
    ensures fs != [] ==> exists f :: f in fs
  {
    if fs != [] { assert fs[0] in fs; }
  }

  lemma {:induction false} FirstIsLeast(fs: seq<Field>, f: Field)
    requires Sorted(fs) && f in fs
    ensures f == fs[0] || Less(fs[0].key, f.key)
  {
    var i :| 0 <= i < |fs| && fs[i] == f;
  }

  lemma {:induction false} RestIs(fs: seq<Field>, f: Field)
    requires Sorted(fs) && fs != []
    ensures f in fs[1..] <==> f in fs && f != fs[0]
  {
    LessTotal(fs[0].key, fs[0].key);
    if f in fs[1..] { var i :| 0 <= i < |fs[1..]| && fs[1..][i] == f; assert fs[i + 1] == f; }
    if f in fs && f != fs[0] { var i :| 0 <= i < |fs| && fs[i] == f; assert fs[1..][i - 1] == f; }
  }

  // ── What normalising decides ────────────────────────────────────────────────────────────────────────

  predicate Twin(volatile: string -> bool, f: Field, gs: seq<Field>)
    decreases f
  {
    exists j | 0 <= j < |gs| :: gs[j].key == f.key && Same(volatile, f.value, gs[j].value)
  }

  /** Equal up to the order of object keys and volatile keys, at any depth. */
  predicate Same(volatile: string -> bool, v: Value, w: Value)
    decreases v
  {
    match v
    case Arr(vs) => w.Arr? && |vs| == |w.items| && forall i | 0 <= i < |vs| :: Same(volatile, vs[i], w.items[i])
    case Obj(fs) =>
      && w.Obj?
      && (forall i | 0 <= i < |fs| && !volatile(fs[i].key) :: Twin(volatile, fs[i], w.fields))
      && (forall j | 0 <= j < |w.fields| && !volatile(w.fields[j].key) :: exists i | 0 <= i < |fs| :: fs[i].key == w.fields[j].key)
    case _ => v == w
  }

  lemma {:induction false} NormalDecides(volatile: string -> bool, v: Value, w: Value)
    requires Good(v) && Good(w)
    ensures Normal(volatile, v) == Normal(volatile, w) <==> Same(volatile, v, w)
    decreases v
  {
    match v
    case Arr(vs) =>
      if w.Arr? && |vs| == |w.items| {
        forall i | 0 <= i < |vs| ensures Normal(volatile, vs[i]) == Normal(volatile, w.items[i]) <==> Same(volatile, vs[i], w.items[i]) {
          NormalDecides(volatile, vs[i], w.items[i]);
        }
        ItemsDecide(volatile, vs, w.items);
      } else if w.Arr? {
        assert |Normal(volatile, v).items| != |Normal(volatile, w).items|;
      }
    case Obj(fs) =>
      if w.Obj? {
        forall i, j | 0 <= i < |fs| && 0 <= j < |w.fields|
          ensures Normal(volatile, fs[i].value) == Normal(volatile, w.fields[j].value) <==> Same(volatile, fs[i].value, w.fields[j].value) {
          NormalDecides(volatile, fs[i].value, w.fields[j].value);
        }
        FieldsDecide(volatile, fs, w.fields);
      }
    case _ =>
  }

  lemma {:induction false} ItemsDecide(volatile: string -> bool, vs: seq<Value>, ws: seq<Value>)
    requires |vs| == |ws|
    ensures Normal(volatile, Arr(vs)) == Normal(volatile, Arr(ws))
       <==> forall i | 0 <= i < |vs| :: Normal(volatile, vs[i]) == Normal(volatile, ws[i])
  {
    var ns, ms := Normal(volatile, Arr(vs)).items, Normal(volatile, Arr(ws)).items;
    assert forall i | 0 <= i < |vs| :: ns[i] == Normal(volatile, vs[i]) && ms[i] == Normal(volatile, ws[i]);
    if ns != ms {
      var i :| 0 <= i < |vs| && ns[i] != ms[i];
      assert Normal(volatile, vs[i]) != Normal(volatile, ws[i]);
    }
  }

  lemma {:induction false} FieldsDecide(volatile: string -> bool, fs: seq<Field>, gs: seq<Field>)
    requires DistinctKeys(fs) && DistinctKeys(gs)
    requires forall i, j | 0 <= i < |fs| && 0 <= j < |gs| ::
               Normal(volatile, fs[i].value) == Normal(volatile, gs[j].value) <==> Same(volatile, fs[i].value, gs[j].value)
    ensures NormalFields(volatile, fs) == NormalFields(volatile, gs) <==> Same(volatile, Obj(fs), Obj(gs))
  {
    if Same(volatile, Obj(fs), Obj(gs)) {
      SameFields(volatile, fs, gs);
    }
    if NormalFields(volatile, fs) == NormalFields(volatile, gs) {
      EqualFields(volatile, fs, gs);
    }
  }

  /** A field of one object comes from the other whenever the two are the same. */
  lemma {:induction false} TwinComes(volatile: string -> bool, f: Field, gs: seq<Field>)
    requires !volatile(f.key) && Twin(volatile, f, gs)
    requires forall j | 0 <= j < |gs| && Same(volatile, f.value, gs[j].value) :: Normal(volatile, f.value) == Normal(volatile, gs[j].value)
    ensures Comes(volatile, gs, Field(f.key, Normal(volatile, f.value)))
  {
    var j :| 0 <= j < |gs| && gs[j].key == f.key && Same(volatile, f.value, gs[j].value);
    assert Field(f.key, Normal(volatile, f.value)) == Field(gs[j].key, Normal(volatile, gs[j].value));
  }

  lemma {:induction false} TwinBack(volatile: string -> bool, fs: seq<Field>, gs: seq<Field>, j: nat)
    requires DistinctKeys(gs) && Same(volatile, Obj(fs), Obj(gs)) && j < |gs| && !volatile(gs[j].key)
    requires forall i | 0 <= i < |fs| && Same(volatile, fs[i].value, gs[j].value) :: Normal(volatile, fs[i].value) == Normal(volatile, gs[j].value)
    ensures Comes(volatile, fs, Field(gs[j].key, Normal(volatile, gs[j].value)))
  {
    var i :| 0 <= i < |fs| && fs[i].key == gs[j].key;
    assert Twin(volatile, fs[i], gs);
    var k :| 0 <= k < |gs| && gs[k].key == fs[i].key && Same(volatile, fs[i].value, gs[k].value);
    assert k == j;
    assert Field(gs[j].key, Normal(volatile, gs[j].value)) == Field(fs[i].key, Normal(volatile, fs[i].value));
  }

  lemma {:induction false} SameFields(volatile: string -> bool, fs: seq<Field>, gs: seq<Field>)
    requires DistinctKeys(fs) && DistinctKeys(gs) && Same(volatile, Obj(fs), Obj(gs))
    requires forall i, j | 0 <= i < |fs| && 0 <= j < |gs| && Same(volatile, fs[i].value, gs[j].value) ::
               Normal(volatile, fs[i].value) == Normal(volatile, gs[j].value)
    ensures NormalFields(volatile, fs) == NormalFields(volatile, gs)
  {
    forall h ensures h in NormalFields(volatile, fs) <==> h in NormalFields(volatile, gs) {
      NormalFieldsIn(volatile, fs, h);
      NormalFieldsIn(volatile, gs, h);
      if Comes(volatile, fs, h) {
        var i :| 0 <= i < |fs| && !volatile(fs[i].key) && h == Field(fs[i].key, Normal(volatile, fs[i].value));
        TwinComes(volatile, fs[i], gs);
      }
      if Comes(volatile, gs, h) {
        var j :| 0 <= j < |gs| && !volatile(gs[j].key) && h == Field(gs[j].key, Normal(volatile, gs[j].value));
        TwinBack(volatile, fs, gs, j);
      }
    }
    NormalFieldsSorted(volatile, fs);
    NormalFieldsSorted(volatile, gs);
    SortedUnique(NormalFields(volatile, fs), NormalFields(volatile, gs));
  }

  lemma {:induction false} ComesFrom(volatile: string -> bool, fs: seq<Field>, gs: seq<Field>, i: nat) returns (j: nat)
    requires NormalFields(volatile, fs) == NormalFields(volatile, gs) && i < |fs| && !volatile(fs[i].key)
    ensures j < |gs| && gs[j].key == fs[i].key && Normal(volatile, fs[i].value) == Normal(volatile, gs[j].value)
  {
    var h := Field(fs[i].key, Normal(volatile, fs[i].value));
    NormalFieldsIn(volatile, fs, h);
    NormalFieldsIn(volatile, gs, h);
    j :| 0 <= j < |gs| && !volatile(gs[j].key) && h == Field(gs[j].key, Normal(volatile, gs[j].value));
  }

  lemma {:induction false} EqualFields(volatile: string -> bool, fs: seq<Field>, gs: seq<Field>)
    requires NormalFields(volatile, fs) == NormalFields(volatile, gs)
    requires forall i, j | 0 <= i < |fs| && 0 <= j < |gs| && Normal(volatile, fs[i].value) == Normal(volatile, gs[j].value) ::
               Same(volatile, fs[i].value, gs[j].value)
    ensures Same(volatile, Obj(fs), Obj(gs))
  {
    forall i | 0 <= i < |fs| && !volatile(fs[i].key) ensures Twin(volatile, fs[i], gs) {
      var j := ComesFrom(volatile, fs, gs, i);
      assert Same(volatile, fs[i].value, gs[j].value);
    }
    forall j | 0 <= j < |gs| && !volatile(gs[j].key) ensures exists i | 0 <= i < |fs| :: fs[i].key == gs[j].key {
      var i := ComesFrom(volatile, gs, fs, j);
    }
  }

  /** Normal forms are well formed and normalise to themselves. */
  lemma {:induction false} NormalIsIdempotent(volatile: string -> bool, v: Value)
    requires Good(v)
    ensures Good(Normal(volatile, v)) && Normal(volatile, Normal(volatile, v)) == Normal(volatile, v)
    decreases v
  {
    match v
    case Arr(vs) =>
      forall i | 0 <= i < |vs| ensures Good(Normal(volatile, vs[i])) && Normal(volatile, Normal(volatile, vs[i])) == Normal(volatile, vs[i]) {
        NormalIsIdempotent(volatile, vs[i]);
      }
      var n := Normal(volatile, v);
      assert Normal(volatile, n).items == n.items;
    case Obj(fs) =>
      forall i | 0 <= i < |fs| ensures Good(Normal(volatile, fs[i].value)) && Normal(volatile, Normal(volatile, fs[i].value)) == Normal(volatile, fs[i].value) {
        NormalIsIdempotent(volatile, fs[i].value);
      }
      FieldsIdempotent(volatile, fs);
    case _ =>
  }

  lemma {:induction false} SortedDistinct(fs: seq<Field>)
    requires Sorted(fs)
    ensures DistinctKeys(fs)
  {
    forall i, j | 0 <= i < j < |fs| ensures fs[i].key != fs[j].key {
      LessTotal(fs[i].key, fs[j].key);
    }
  }

  lemma {:induction false} FieldsIdempotent(volatile: string -> bool, fs: seq<Field>)
    requires DistinctKeys(fs)
    requires forall i | 0 <= i < |fs| :: Good(Normal(volatile, fs[i].value)) && Normal(volatile, Normal(volatile, fs[i].value)) == Normal(volatile, fs[i].value)
    ensures Good(Obj(NormalFields(volatile, fs)))
    ensures NormalFields(volatile, NormalFields(volatile, fs)) == NormalFields(volatile, fs)
  {
    var ns := NormalFields(volatile, fs);
    NormalFieldsSorted(volatile, fs);
    SortedDistinct(ns);
    NormalFieldsSorted(volatile, ns);
    forall i | 0 <= i < |ns| ensures Good(ns[i].value) && Field(ns[i].key, Normal(volatile, ns[i].value)) == ns[i] && !volatile(ns[i].key) {
      assert ns[i] in ns;
      NormalFieldsIn(volatile, fs, ns[i]);
    }
    forall h ensures h in NormalFields(volatile, ns) <==> h in ns {
      NormalFieldsIn(volatile, ns, h);
    }
    SortedUnique(NormalFields(volatile, ns), ns);
  }

  // ── Printing ────────────────────────────────────────────────────────────────────────────────────────

  function Hex(n: nat): char
    requires n < 16
  {
    if n < 10 then '0' + n as char else 'a' + (n - 10) as char
  }

  /** How one character is written inside a string (section 7 of RFC 8259, short escapes first). */
  function Esc(c: char): (e: string)
    ensures e != ""
  {
    if c == '"' then "\\\""
    else if c == '\\' then "\\\\"
    else if c == '\U{8}' then "\\b"
    else if c == '\t' then "\\t"
    else if c == '\n' then "\\n"
    else if c == '\U{C}' then "\\f"
    else if c == '\r' then "\\r"
    else if c < ' ' then "\\u00" + [Hex(c as int / 16), Hex(c as int % 16)]
    else [c]
  }

  function EscAll(s: string): string { if s == "" then "" else Esc(s[0]) + EscAll(s[1..]) }

  function Quote(s: string): string { "\"" + (EscAll(s) + "\"") }

  function Indent(d: nat): string { if d == 0 then "" else "  " + Indent(d - 1) }

  /** JSON.stringify(v, null, 2) at depth d. */
  function Print(v: Value, d: nat): string
    decreases v, 0
  {
    match v
    case Null => "null"
    case Bool(b) => if b then "true" else "false"
    case Num(t) => t
    case Str(s) => Quote(s)
    case Arr(vs) => if vs == [] then "[]" else "[\n" + (PrintItems(vs, d + 1) + ("\n" + (Indent(d) + "]")))
    case Obj(fs) => if fs == [] then "{}" else "{\n" + (PrintFields(fs, d + 1) + ("\n" + (Indent(d) + "}")))
  }

  function PrintItems(vs: seq<Value>, d: nat): string
    decreases vs, 1
  {
    if vs == [] then "" else Indent(d) + (Print(vs[0], d) + (if |vs| == 1 then "" else ",\n" + PrintItems(vs[1..], d)))
  }

  function PrintFields(fs: seq<Field>, d: nat): string
    decreases fs, 1
  {
    if fs == [] then "" else
    Indent(d) + (Quote(fs[0].key) + (": " + (Print(fs[0].value, d) + (if |fs| == 1 then "" else ",\n" + PrintFields(fs[1..], d)))))
  }

  // ── The text determines the value ───────────────────────────────────────────────────────────────────

  lemma {:induction false} HexInjective(m: nat, n: nat)
    requires m < 16 && n < 16 && Hex(m) == Hex(n)
    ensures m == n
  {
  }

  lemma {:induction false} EscShape(c: char)
    ensures var e := Esc(c);
      && e[0] != '"'
      && (e[0] == '\\' ==> |e| >= 2)
      && (e[0] != '\\' ==> e == [c])
      && (e[0] == '\\' && e[1] == 'u' ==> |e| == 6 && c < ' ' && e[4] == Hex(c as int / 16) && e[5] == Hex(c as int % 16))
      && (e[0] == '\\' && e[1] != 'u' ==> |e| == 2)
  {
  }

  /** The second character of a short escape says which character it stands for. */
  lemma {:induction false} ShortEscape(c: char, d: char)
    requires |Esc(c)| == 2 && |Esc(d)| == 2 && Esc(c)[1] == Esc(d)[1]
    ensures c == d
  {
  }

  // ── A reader gets the string back ───────────────────────────────────────────────────────────────────

  function HexValue(c: char): int { if '0' <= c <= '9' then c as int - '0' as int else if 'a' <= c <= 'f' then c as int - 'a' as int + 10 else 0 }

  /** The character a two-character escape stands for, by the table of section 7 of RFC 8259. */
  function ShortFor(c: char): char {
    match c
    case 'b' => 8 as char
    case 't' => 9 as char
    case 'n' => 10 as char
    case 'f' => 12 as char
    case 'r' => 13 as char
    case _ => c
  }

  /** Reading the inside of a JSON string. */
  function Unescaped(s: string): string {
    if s == "" then ""
    else if s[0] != '\\' then [s[0]] + Unescaped(s[1..])
    else if |s| >= 6 && s[1] == 'u' then [((16 * HexValue(s[4]) + HexValue(s[5])) % 256) as char] + Unescaped(s[6..])
    else if |s| >= 2 then [ShortFor(s[1])] + Unescaped(s[2..])
    else ""
  }

  lemma {:induction false} HexReads(n: nat)
    requires n < 16
    ensures HexValue(Hex(n)) == n
  {
  }

  lemma {:induction false} EscReads(c: char, rest: string)
    ensures Unescaped(Esc(c) + rest) == [c] + Unescaped(rest)
  {
    var e := Esc(c);
    EscShape(c);
    assert (e + rest)[|e|..] == rest && forall i | 0 <= i < |e| :: (e + rest)[i] == e[i];
    if |e| == 6 {
      HexReads(c as int / 16);
      HexReads(c as int % 16);
      assert e[1] == 'u';
    }
  }

  /** Seven characters have an escape of two, the other control characters one of six, and all else is written as it is. */
  lemma {:induction false} EscLength(c: char)
    ensures |Esc(c)| == if c as int in {8, 9, 10, 12, 13, 34, 92} then 2 else if c as int < 32 then 6 else 1
  {
  }

  /** What is printed between the quotes reads back as the string. */
  lemma {:induction false} StringReadsBack(s: string)
    ensures Unescaped(EscAll(s)) == s
  {
    if s != "" {
      StringReadsBack(s[1..]);
      EscReads(s[0], EscAll(s[1..]));
      assert s == [s[0]] + s[1..];
    }
  }

  lemma {:induction false} CutLeft(a: string, x: string, y: string)
    requires a + x == a + y
    ensures x == y
  {
    assert (a + x)[|a|..] == x && (a + y)[|a|..] == y;
  }

  lemma {:induction false} EscReadable(c: char, x: string, d: char, y: string)
    requires Esc(c) + x == Esc(d) + y
    ensures c == d && x == y
  {
    var e, f, r := Esc(c), Esc(d), Esc(c) + x;
    EscShape(c);
    EscShape(d);
    assert r[0] == e[0] == f[0];
    if e[0] == '\\' {
      assert r[1] == e[1] == f[1];
      if e[1] == 'u' {
        assert r[4] == e[4] == f[4] && r[5] == e[5] == f[5];
        HexInjective(c as int / 16, d as int / 16);
        HexInjective(c as int % 16, d as int % 16);
        assert c as int == d as int;
      } else {
        ShortEscape(c, d);
      }
    }
    CutLeft(Esc(c), x, y);
  }

  /** What is left of a string's text: its escapes, the closing quote, and what follows. */
  function StrRest(s: string, x: string): string { EscAll(s) + ("\"" + x) }

  lemma {:induction false} StrRestIs(s: string, x: string)
    ensures StrRest(s, x) == if s == "" then "\"" + x else Esc(s[0]) + StrRest(s[1..], x)
    ensures StrRest(s, x) != "" && (StrRest(s, x)[0] == '"' <==> s == "")
  {
    if s == "" {
      assert EscAll(s) + ("\"" + x) == "\"" + x;
    } else {
      EscShape(s[0]);
      assert (Esc(s[0]) + EscAll(s[1..])) + ("\"" + x) == Esc(s[0]) + (EscAll(s[1..]) + ("\"" + x));
      assert StrRest(s, x)[0] == Esc(s[0])[0];
    }
  }

  lemma {:induction false} QuoteReadable(s: string, x: string, t: string, y: string)
    requires StrRest(s, x) == StrRest(t, y)
    ensures s == t && x == y
  {
    StrRestIs(s, x);
    StrRestIs(t, y);
    if s == "" {
      CutLeft("\"", x, y);
    } else {
      EscReadable(s[0], StrRest(s[1..], x), t[0], StrRest(t[1..], y));
      QuoteReadable(s[1..], x, t[1..], y);
      assert s == [s[0]] + s[1..] && t == [t[0]] + t[1..];
    }
  }

  /** Text after a value: nothing, or a character no number contains. */
  predicate Ends(x: string) { x == "" || !NumChar(x[0]) }

  lemma {:induction false} NumReadable(t: string, x: string, u: string, y: string)
    requires NumText(t) && NumText(u) && Ends(x) && Ends(y) && t + x == u + y
    ensures t == u && x == y
  {
    var r := t + x;
    NumPrefix(t, x);
    NumPrefix(u, y);
    assert |t| == |u|;
    assert t == r[..|t|] && u == r[..|u|] && x == r[|t|..] && y == r[|u|..];
  }

  lemma {:induction false} NumPrefix(t: string, x: string)
    requires NumText(t) && Ends(x)
    ensures forall i | 0 <= i < |t| :: NumChar((t + x)[i])
    ensures |t + x| > |t| ==> !NumChar((t + x)[|t|])
  {
    forall i | 0 <= i < |t| ensures NumChar((t + x)[i]) {
      assert t[i] in t;
    }
  }

  /** The first character of a printed value says what kind of value it is. */
  lemma {:induction false} FirstChar(v: Value, d: nat, x: string)
    requires Good(v)
    ensures Print(v, d) != ""
    ensures var c := (Print(v, d) + x)[0];
      && (v.Null? <==> c == 'n') && (v.Bool? <==> c == 't' || c == 'f') && (v.Str? <==> c == '"')
      && (v.Arr? <==> c == '[') && (v.Obj? <==> c == '{') && (v.Num? <==> c == '-' || '0' <= c <= '9')
      && (v.Bool? ==> (v.b <==> c == 't'))
  {
  }

  /** No printed value is the beginning of another: what follows can be told apart from it. */
  lemma {:induction false} ValueReadable(v: Value, x: string, w: Value, y: string, d: nat)
    requires Good(v) && Good(w) && Ends(x) && Ends(y) && Print(v, d) + x == Print(w, d) + y
    ensures v == w && x == y
    decreases v, 0
  {
    FirstChar(v, d, x);
    FirstChar(w, d, y);
    match v
    case Null => CutLeft("null", x, y);
    case Bool(b) => CutLeft(Print(v, d), x, y);
    case Num(t) => NumReadable(t, x, w.text, y);
    case Str(s) => StrReadable(s, x, w.s, y);
    case Arr(vs) => ArrReadable(vs, x, w.items, y, d);
    case Obj(fs) => ObjReadable(fs, x, w.fields, y, d);
  }

  lemma {:induction false} ArrReadable(vs: seq<Value>, x: string, ws: seq<Value>, y: string, d: nat)
    requires Good(Arr(vs)) && Good(Arr(ws)) && Print(Arr(vs), d) + x == Print(Arr(ws), d) + y
    ensures vs == ws && x == y
    decreases vs, 2
  {
    ArrText(vs, x, d);
    ArrText(ws, y, d);
    assert (Print(Arr(vs), d) + x)[1] == (Print(Arr(ws), d) + y)[1];
    if vs == [] {
      CutLeft("[]", x, y);
    } else {
      var x', y' := "\n" + (Indent(d) + ("]" + x)), "\n" + (Indent(d) + ("]" + y));
      CutLeft("[\n", PrintItems(vs, d + 1) + x', PrintItems(ws, d + 1) + y');
      ItemsReadable(vs, x', ws, y', d + 1);
      CloseReadable(d, "]", x, y);
    }
  }

  lemma {:induction false} ObjReadable(fs: seq<Field>, x: string, gs: seq<Field>, y: string, d: nat)
    requires Good(Obj(fs)) && Good(Obj(gs)) && Print(Obj(fs), d) + x == Print(Obj(gs), d) + y
    ensures fs == gs && x == y
    decreases fs, 2
  {
    ObjText(fs, x, d);
    ObjText(gs, y, d);
    assert (Print(Obj(fs), d) + x)[1] == (Print(Obj(gs), d) + y)[1];
    if fs == [] {
      CutLeft("{}", x, y);
    } else {
      var x', y' := "\n" + (Indent(d) + ("}" + x)), "\n" + (Indent(d) + ("}" + y));
      CutLeft("{\n", PrintFields(fs, d + 1) + x', PrintFields(gs, d + 1) + y');
      FieldsReadable(fs, x', gs, y', d + 1);
      CloseReadable(d, "}", x, y);
    }
  }

  lemma {:induction false} CloseReadable(d: nat, close: string, x: string, y: string)
    requires "\n" + (Indent(d) + (close + x)) == "\n" + (Indent(d) + (close + y))
    ensures x == y
  {
    CutLeft("\n", Indent(d) + (close + x), Indent(d) + (close + y));
    CutLeft(Indent(d), close + x, close + y);
    CutLeft(close, x, y);
  }

  lemma {:induction false} StrReadable(s: string, x: string, t: string, y: string)
    requires Quote(s) + x == Quote(t) + y
    ensures s == t && x == y
  {
    assert Quote(s) + x == "\"" + StrRest(s, x) && Quote(t) + y == "\"" + StrRest(t, y);
    CutLeft("\"", StrRest(s, x), StrRest(t, y));
    QuoteReadable(s, x, t, y);
  }

  lemma {:induction false} ArrText(vs: seq<Value>, x: string, d: nat)
    ensures Print(Arr(vs), d) + x
         == if vs == [] then "[]" + x else "[\n" + (PrintItems(vs, d + 1) + ("\n" + (Indent(d) + ("]" + x))))
  {
    var p, i := PrintItems(vs, d + 1), Indent(d);
    assert ("[\n" + (p + ("\n" + (i + "]")))) + x == "[\n" + (p + ("\n" + (i + ("]" + x))));
  }

  lemma {:induction false} ObjText(fs: seq<Field>, x: string, d: nat)
    ensures Print(Obj(fs), d) + x
         == if fs == [] then "{}" + x else "{\n" + (PrintFields(fs, d + 1) + ("\n" + (Indent(d) + ("}" + x))))
  {
    var p, i := PrintFields(fs, d + 1), Indent(d);
    assert ("{\n" + (p + ("\n" + (i + "}")))) + x == "{\n" + (p + ("\n" + (i + ("}" + x))));
  }

  /** What follows the first item: the end, or a comma and the rest. */
  function AfterItem(vs: seq<Value>, d: nat, x: string): string
    requires vs != []
  {
    if |vs| == 1 then x else ",\n" + (PrintItems(vs[1..], d) + x)
  }

  lemma {:induction false} ItemsText(vs: seq<Value>, d: nat, x: string)
    requires vs != []
    ensures PrintItems(vs, d) + x == Indent(d) + (Print(vs[0], d) + AfterItem(vs, d, x))
  {
    var i, p := Indent(d), Print(vs[0], d);
    if |vs| == 1 {
      assert (i + (p + "")) + x == i + (p + x);
    } else {
      var r := PrintItems(vs[1..], d);
      assert (i + (p + (",\n" + r))) + x == i + (p + (",\n" + (r + x)));
    }
  }

  lemma {:induction false} ItemsReadable(vs: seq<Value>, x: string, ws: seq<Value>, y: string, d: nat)
    requires vs != [] && ws != [] && Good(Arr(vs)) && Good(Arr(ws))
    requires x != "" && y != "" && x[0] == '\n' && y[0] == '\n' && PrintItems(vs, d) + x == PrintItems(ws, d) + y
    ensures vs == ws && x == y
    decreases vs, 1
  {
    HeadReadable(vs, x, ws, y, d);
    ValueReadable(vs[0], AfterItem(vs, d, x), ws[0], AfterItem(ws, d, y), d);
    AfterItemReadable(vs, x, ws, y, d);
    if |vs| > 1 { ItemsReadable(vs[1..], x, ws[1..], y, d); }
    Rejoined(vs, ws);
  }

  lemma {:induction false} Rejoined<T>(vs: seq<T>, ws: seq<T>)
    requires vs != [] && ws != []
    ensures vs[0] == ws[0] && vs[1..] == ws[1..] ==> vs == ws
  {
    assert vs == [vs[0]] + vs[1..] && ws == [ws[0]] + ws[1..];
  }

  lemma {:induction false} HeadReadable(vs: seq<Value>, x: string, ws: seq<Value>, y: string, d: nat)
    requires vs != [] && ws != [] && PrintItems(vs, d) + x == PrintItems(ws, d) + y
    ensures Print(vs[0], d) + AfterItem(vs, d, x) == Print(ws[0], d) + AfterItem(ws, d, y)
  {
    ItemsText(vs, d, x);
    ItemsText(ws, d, y);
    CutLeft(Indent(d), Print(vs[0], d) + AfterItem(vs, d, x), Print(ws[0], d) + AfterItem(ws, d, y));
  }

  lemma {:induction false} AfterItemReadable(vs: seq<Value>, x: string, ws: seq<Value>, y: string, d: nat)
    requires vs != [] && ws != [] && x != "" && y != "" && x[0] == '\n' && y[0] == '\n' && AfterItem(vs, d, x) == AfterItem(ws, d, y)
    ensures (|vs| == 1 <==> |ws| == 1) && (|vs| == 1 ==> x == y)
    ensures |vs| > 1 ==> PrintItems(vs[1..], d) + x == PrintItems(ws[1..], d) + y
  {
    assert AfterItem(vs, d, x)[0] == AfterItem(ws, d, y)[0];
    if |vs| > 1 { CutLeft(",\n", PrintItems(vs[1..], d) + x, PrintItems(ws[1..], d) + y); }
  }

  function AfterField(fs: seq<Field>, d: nat, x: string): string
    requires fs != []
  {
    if |fs| == 1 then x else ",\n" + (PrintFields(fs[1..], d) + x)
  }

  lemma {:induction false} FieldsText(fs: seq<Field>, d: nat, x: string)
    requires fs != []
    ensures PrintFields(fs, d) + x == Indent(d) + (Quote(fs[0].key) + (": " + (Print(fs[0].value, d) + AfterField(fs, d, x))))
  {
    var i, q, p := Indent(d), Quote(fs[0].key), Print(fs[0].value, d);
    if |fs| == 1 {
      assert (i + (q + (": " + (p + "")))) + x == i + (q + (": " + (p + x)));
    } else {
      var r := PrintFields(fs[1..], d);
      assert (i + (q + (": " + (p + (",\n" + r))))) + x == i + (q + (": " + (p + (",\n" + (r + x)))));
    }
  }

  lemma {:induction false} FieldsReadable(fs: seq<Field>, x: string, gs: seq<Field>, y: string, d: nat)
    requires fs != [] && gs != [] && Good(Obj(fs)) && Good(Obj(gs))
    requires x != "" && y != "" && x[0] == '\n' && y[0] == '\n' && PrintFields(fs, d) + x == PrintFields(gs, d) + y
    ensures fs == gs && x == y
    decreases fs, 1
  {
    KeyReadable(fs, x, gs, y, d);
    ValueReadable(fs[0].value, AfterField(fs, d, x), gs[0].value, AfterField(gs, d, y), d);
    AfterFieldReadable(fs, x, gs, y, d);
    if |fs| > 1 {
      TailsGood(fs);
      TailsGood(gs);
      FieldsReadable(fs[1..], x, gs[1..], y, d);
    }
    Rejoined(fs, gs);
  }

  lemma {:induction false} KeyReadable(fs: seq<Field>, x: string, gs: seq<Field>, y: string, d: nat)
    requires fs != [] && gs != [] && PrintFields(fs, d) + x == PrintFields(gs, d) + y
    ensures fs[0].key == gs[0].key && Print(fs[0].value, d) + AfterField(fs, d, x) == Print(gs[0].value, d) + AfterField(gs, d, y)
  {
    var v, w := Print(fs[0].value, d) + AfterField(fs, d, x), Print(gs[0].value, d) + AfterField(gs, d, y);
    FieldsText(fs, d, x);
    FieldsText(gs, d, y);
    CutLeft(Indent(d), Quote(fs[0].key) + (": " + v), Quote(gs[0].key) + (": " + w));
    StrReadable(fs[0].key, ": " + v, gs[0].key, ": " + w);
    CutLeft(": ", v, w);
  }

  lemma {:induction false} AfterFieldReadable(fs: seq<Field>, x: string, gs: seq<Field>, y: string, d: nat)
    requires fs != [] && gs != [] && x != "" && y != "" && x[0] == '\n' && y[0] == '\n' && AfterField(fs, d, x) == AfterField(gs, d, y)
    ensures (|fs| == 1 <==> |gs| == 1) && (|fs| == 1 ==> x == y)
    ensures |fs| > 1 ==> PrintFields(fs[1..], d) + x == PrintFields(gs[1..], d) + y
  {
    assert AfterField(fs, d, x)[0] == AfterField(gs, d, y)[0];
    if |fs| > 1 { CutLeft(",\n", PrintFields(fs[1..], d) + x, PrintFields(gs[1..], d) + y); }
  }

  lemma {:induction false} TailsGood(fs: seq<Field>)
    requires fs != [] && Good(Obj(fs))
    ensures Good(Obj(fs[1..]))
  {
    assert forall i | 0 <= i < |fs[1..]| :: fs[1..][i] == fs[i + 1];
  }

  // ── The layout ──────────────────────────────────────────────────────────────────────────────────────

  lemma {:induction false} IndentIs(d: nat)
    ensures |Indent(d)| == 2 * d && forall i | 0 <= i < 2 * d :: Indent(d)[i] == ' '
  {
    if d > 0 { IndentIs(d - 1); }
  }

  /** A list: a bracket, each part on a line of its own two spaces further in, commas between, a bracket below the first. */
  lemma {:induction false} ArrayLayout(v: Value, w: Value, d: nat)
    ensures var close := "\n" + (Indent(d) + "]");
      && Print(Arr([]), d) == "[]"
      && Print(Arr([v]), d) == "[\n" + (Indent(d + 1) + (Print(v, d + 1) + close))
      && Print(Arr([v, w]), d) == "[\n" + (Indent(d + 1) + (Print(v, d + 1) + (",\n" + (Indent(d + 1) + (Print(w, d + 1) + close)))))
  {
    var close := "\n" + (Indent(d) + "]");
    assert [v, w][1..] == [w];
    ItemsText([v], d + 1, close);
    ItemsText([w], d + 1, close);
    ItemsText([v, w], d + 1, close);
  }

  /** An object: each key in quotes, a colon and a space, its value. */
  lemma {:induction false} ObjectLayout(f: Field, g: Field, d: nat)
    ensures var close := "\n" + (Indent(d) + "}"); var indent := Indent(d + 1);
      && Print(Obj([]), d) == "{}"
      && Print(Obj([f]), d) == "{\n" + (indent + (Quote(f.key) + (": " + (Print(f.value, d + 1) + close))))
      && Print(Obj([f, g]), d)
         == "{\n" + (indent + (Quote(f.key) + (": " + (Print(f.value, d + 1)
                  + (",\n" + (indent + (Quote(g.key) + (": " + (Print(g.value, d + 1) + close)))))))))
  {
    var close := "\n" + (Indent(d) + "}");
    assert [f, g][1..] == [g];
    FieldsText([f], d + 1, close);
    FieldsText([g], d + 1, close);
    FieldsText([f, g], d + 1, close);
  }

  /** Everything else: the JSON words, a number as it was written, a string in quotes. */
  lemma {:induction false} ScalarLayout(b: bool, t: string, d: nat)
    ensures Print(Null, d) == "null" && Print(Bool(b), d) == (if !b then "false" else "true") && Print(Num(t), d) == t
    ensures |Print(Str(t), d)| == |EscAll(t)| + 2 && Print(Str(t), d)[0] == '"' == Print(Str(t), d)[|EscAll(t)| + 1]
    ensures Unescaped(Print(Str(t), d)[1..|EscAll(t)| + 1]) == t
  {
    StringReadsBack(t);
    assert Quote(t)[1..|EscAll(t)| + 1] == EscAll(t);
  }

  /** The serialised text with its final newline. */
  function Text(volatile: string -> bool, v: Value): string { Print(Normal(volatile, v), 0) + "\n" }

  /** Two reports serialise to the same text if and only if they are equal up to key order and volatile keys. */
  lemma {:induction false} TextDecides(volatile: string -> bool, v: Value, w: Value)
    requires Good(v) && Good(w)
    ensures Text(volatile, v) == Text(volatile, w) <==> Same(volatile, v, w)
  {
    NormalIsIdempotent(volatile, v);
    NormalIsIdempotent(volatile, w);
    NormalDecides(volatile, v, w);
    if Text(volatile, v) == Text(volatile, w) {
      ValueReadable(Normal(volatile, v), "\n", Normal(volatile, w), "\n", 0);
    }
  }

  // ── The first differing line ────────────────────────────────────────────────────────────────────────

  /** split("\n") */
  function Lines(s: string): (ls: seq<string>)
    ensures |ls| >= 1
  {
    if s == "" then [""]
    else if s[0] == '\n' then [""] + Lines(s[1..])
    else var rest := Lines(s[1..]); [[s[0]] + rest[0]] + rest[1..]
  }

  function Joined(ls: seq<string>): string {
    if ls == [] then "" else if |ls| == 1 then ls[0] else ls[0] + ("\n" + Joined(ls[1..]))
  }

  lemma {:induction false} JoinedCons(c: char, ls: seq<string>)
    requires ls != []
    ensures Joined([[c] + ls[0]] + ls[1..]) == [c] + Joined(ls)
  {
    var ms := [[c] + ls[0]] + ls[1..];
    assert ms[1..] == ls[1..];
    if |ls| > 1 { assert ([c] + ls[0]) + ("\n" + Joined(ls[1..])) == [c] + (ls[0] + ("\n" + Joined(ls[1..]))); }
  }

  lemma {:induction false} JoinedBreak(ls: seq<string>)
    requires ls != []
    ensures Joined([""] + ls) == "\n" + Joined(ls)
  {
    assert ([""] + ls)[1..] == ls;
  }

  lemma {:induction false} SplitThenJoin(s: string)
    ensures Joined(Lines(s)) == s
  {
    if s != "" {
      SplitThenJoin(s[1..]);
      if s[0] == '\n' { JoinedBreak(Lines(s[1..])); } else { JoinedCons(s[0], Lines(s[1..])); }
      assert s == [s[0]] + s[1..];
    }
  }

  /** No line has a line break in it: with `SplitThenJoin`, the lines are the text's own. */
  lemma {:induction false} LinesUnbroken(s: string)
    ensures forall l | l in Lines(s) :: '\n' !in l
  {
    if s != "" {
      LinesUnbroken(s[1..]);
      var rest := Lines(s[1..]);
      assert rest[0] in rest && forall l | l in rest[1..] :: l in rest;
      forall l | l in Lines(s) ensures '\n' !in l {
        assert l in rest || l == "" || (s[0] != '\n' && l == [s[0]] + rest[0]);
      }
    }
  }

  /** The text has one line more than it has line breaks. */
  lemma {:induction false} LineCount(s: string)
    ensures |Lines(s)| == 1 + multiset(s)['\n']
  {
    if s != "" {
      LineCount(s[1..]);
      assert s == [s[0]] + s[1..];
    }
  }

  /** The scan stops at the longest common prefix of the lines; when the texts differ, one of them has that line. */
  method FirstDifference(current: string, expected: string) returns (i: nat)
    ensures i <= |Lines(current)| && i <= |Lines(expected)| && Lines(current)[..i] == Lines(expected)[..i]
    ensures i == |Lines(current)| || i == |Lines(expected)| || Lines(current)[i] != Lines(expected)[i]
    ensures current != expected ==> i < |Lines(current)| || i < |Lines(expected)|
  {
    var cur, exp := Lines(current), Lines(expected);
    i := 0;
    while i < |cur| && i < |exp| && cur[i] == exp[i]
      invariant i <= |cur| && i <= |exp| && cur[..i] == exp[..i]
    {
      i := i + 1;
    }
    SplitThenJoin(current);
    SplitThenJoin(expected);
    assert i == |cur| == |exp| ==> cur == cur[..i] && exp == exp[..i];
  }
}
