/**
 * Lodged years and Notices of Assessment (src/lib/fy-signoff.ts, src/lib/noa-store.ts, src/lib/situation-write.ts):
 * the one sign-off row per year that a lodged mark, an attestation and a NOA close share, and the capital losses a NOA
 * carries forward. Years are start years; instants and days are numbers.
 */
module FyClose {
  import opened Options

  type Id = int

  datatype Status = Plain | Lodged | ClosedWithNoa

  datatype Signoff = Signoff(signedAt: int, status: Status, lodgedAt: Option<int>)

  /** One uploaded NOA: a draft until confirmed; `capId` is the capital-loss row it wrote. */
  datatype Carry = Carry(id: Id, fy: int, confirmed: bool, loss: int, capId: Option<Id>)

  /** A prior-year capital loss; `fromNoa` rows are written here, the others by the user. */
  datatype CapLoss = CapLoss(id: Id, priorFy: int, loss: int, fromNoa: bool)

  datatype Years = Years(signoffs: map<int, Signoff>, carries: seq<Carry>, caps: seq<CapLoss>)

  // ── The sign-off row ────────────────────────────────────────────────────────────────────────────────

  function Marked(m: map<int, Signoff>, fy: int, on: int, now: int): map<int, Signoff> {
    if fy !in m then m[fy := Signoff(now, Lodged, Some(on))]
    else m[fy := m[fy].(lodgedAt := Some(on), status := if m[fy].status == ClosedWithNoa then ClosedWithNoa else Lodged)]
  }

  function Unmarked(m: map<int, Signoff>, fy: int): map<int, Signoff> {
    if fy !in m then m
    else m[fy := m[fy].(lodgedAt := None, status := if m[fy].status == Lodged then Plain else m[fy].status)]
  }

  function SignedOff(m: map<int, Signoff>, fy: int, now: int): map<int, Signoff> {
    if fy in m then m[fy := m[fy].(signedAt := now)] else m[fy := Signoff(now, Plain, None)]
  }

  /** Re-opening a year: refused while it is marked as lodged, otherwise the row goes. */
  function Cleared(m: map<int, Signoff>, fy: int): map<int, Signoff> {
    if fy in m && m[fy].lodgedAt == None then m - {fy} else m
  }

  function Closed(m: map<int, Signoff>, fy: int, now: int): map<int, Signoff> {
    m[fy := Signoff(now, ClosedWithNoa, if fy in m then m[fy].lodgedAt else None)]
  }

  /** Undoing a NOA close: a marked year falls back to lodged, any other loses its row. */
  function Reopened(m: map<int, Signoff>, fy: int): map<int, Signoff> {
    if fy !in m || m[fy].status != ClosedWithNoa then m
    else if m[fy].lodgedAt.Some? then m[fy := m[fy].(status := Lodged)]
    else m - {fy}
  }

  predicate IsClosed(m: map<int, Signoff>, fy: int) { fy in m && m[fy].status == ClosedWithNoa }

  predicate CountsAsLodged(m: map<int, Signoff>, fy: int) { fy in m && (m[fy].lodgedAt.Some? || m[fy].status == ClosedWithNoa) }

  // ── NOA records ─────────────────────────────────────────────────────────────────────────────────────

  function Find(cs: seq<Carry>, id: Id): (found: Option<Carry>)
    ensures found.Some? ==> found.value in cs && found.value.id == id
    ensures found == None ==> forall c | c in cs :: c.id != id
  {
    if cs == [] then None else if cs[0].id == id then Some(cs[0]) else Find(cs[1..], id)
  }

  function Dropped(cs: seq<Carry>, id: Id): (kept: seq<Carry>)
    ensures forall c :: c in kept <==> c in cs && c.id != id
  {
    if cs == [] then [] else
    var init, c := cs[..|cs| - 1], cs[|cs| - 1];
    assert forall x :: x in cs <==> x in init || x == c;
    if c.id == id then Dropped(init, id) else Dropped(init, id) + [c]
  }

  predicate UniqueIds(cs: seq<Carry>) { forall c, d | c in cs && d in cs && c.id == d.id :: c == d }

  /** The confirmed records of one year, other than `id`, are superseded. */
  predicate Superseded(c: Carry, fy: int, id: Id) { c.confirmed && c.fy == fy && c.id != id }

  function WithoutSuperseded(cs: seq<Carry>, fy: int, id: Id): (kept: seq<Carry>)
    ensures forall c :: c in kept <==> c in cs && !Superseded(c, fy, id)
  {
    if cs == [] then [] else
    var init, c := cs[..|cs| - 1], cs[|cs| - 1];
    assert forall x :: x in cs <==> x in init || x == c;
    if Superseded(c, fy, id) then WithoutSuperseded(init, fy, id) else WithoutSuperseded(init, fy, id) + [c]
  }

  /** UPDATE one record. */
  function Updated(cs: seq<Carry>, c: Carry): (out: seq<Carry>)
    ensures |out| == |cs| && forall i | 0 <= i < |cs| :: out[i] == if cs[i].id == c.id then c else cs[i]
  {
    seq(|cs|, i requires 0 <= i < |cs| => if cs[i].id == c.id then c else cs[i])
  }

  lemma {:induction false} UpdatedIn(cs: seq<Carry>, c: Carry, x: Carry)
    ensures x in Updated(cs, c) <==> (x == c && exists d | d in cs :: d.id == c.id) || (x in cs && x.id != c.id)
  {
    var out := Updated(cs, c);
    if x in out {
      var i :| 0 <= i < |cs| && out[i] == x;
      assert cs[i] in cs;
    }
    if d :| d in cs && d.id == c.id && x == c {
      var i :| 0 <= i < |cs| && cs[i] == d;
      assert out[i] == c;
    }
    if x in cs && x.id != c.id {
      var i :| 0 <= i < |cs| && cs[i] == x;
      assert out[i] == x;
    }
  }

  // ── The one capital-loss row a NOA keeps ────────────────────────────────────────────────────────────

  function DropCap(caps: seq<CapLoss>, id: Id): (kept: seq<CapLoss>)
    ensures forall r :: r in kept <==> r in caps && r.id != id
  {
    if caps == [] then [] else
    var init, r := caps[..|caps| - 1], caps[|caps| - 1];
    assert forall x :: x in caps <==> x in init || x == r;
    if r.id == id then DropCap(init, id) else DropCap(init, id) + [r]
  }

  /** The latest assessed confirmed record with a loss. */
  function Active(cs: seq<Carry>): (active: Option<Carry>)
    ensures active.Some? ==> active.value in cs && active.value.confirmed && active.value.loss > 0
    ensures active.Some? ==> forall c | c in cs && c.confirmed && c.loss > 0 :: c.fy <= active.value.fy
    ensures active == None ==> forall c | c in cs && c.confirmed :: c.loss <= 0
  {
    if cs == [] then None else
    var init, c := cs[..|cs| - 1], cs[|cs| - 1];
    assert forall x :: x in cs <==> x in init || x == c;
    var rest := Active(init);
    if !c.confirmed || c.loss <= 0 then rest
    else if rest == None || c.fy > rest.value.fy then Some(c) else rest
  }

  /** The rows confirmed records point at. */
  function Refs(cs: seq<Carry>): set<Id> { set c | c in cs && c.confirmed && c.capId.Some? :: c.capId.value }

  function Unref(cs: seq<Carry>): (out: seq<Carry>)
    ensures |out| == |cs| && forall i | 0 <= i < |cs| :: out[i] == if cs[i].confirmed then cs[i].(capId := None) else cs[i]
  {
    seq(|cs|, i requires 0 <= i < |cs| => if cs[i].confirmed then cs[i].(capId := None) else cs[i])
  }

  function WithoutCaps(caps: seq<CapLoss>, ids: set<Id>): (kept: seq<CapLoss>)
    ensures forall r :: r in kept <==> r in caps && r.id !in ids
  {
    if caps == [] then [] else
    var init, r := caps[..|caps| - 1], caps[|caps| - 1];
    assert forall x :: x in caps <==> x in init || x == r;
    if r.id in ids then WithoutCaps(init, ids) else WithoutCaps(init, ids) + [r]
  }

  lemma {:induction false} DropCapIs(caps: seq<CapLoss>, ids: set<Id>, id: Id)
    ensures DropCap(WithoutCaps(caps, ids), id) == WithoutCaps(caps, ids + {id})
  {
    if caps != [] {
      var init, r := caps[..|caps| - 1], caps[|caps| - 1];
      DropCapIs(init, ids, id);
      if r.id !in ids { assert WithoutCaps(caps, ids)[..|WithoutCaps(init, ids)|] == WithoutCaps(init, ids); }
    }
  }

  lemma {:induction false} WithoutNone(caps: seq<CapLoss>)
    ensures WithoutCaps(caps, {}) == caps
  {
    if caps != [] {
      WithoutNone(caps[..|caps| - 1]);
    }
  }

  /** Every row a confirmed record points at is dropped; the active record gets a new one. */
  function Reconciled(cs: seq<Carry>, caps: seq<CapLoss>, newId: Id): (seq<Carry>, seq<CapLoss>) {
    var left := WithoutCaps(caps, Refs(cs));
    match Active(cs)
    case None => (Unref(cs), left)
    case Some(a) => (Updated(Unref(cs), a.(capId := Some(newId))), left + [CapLoss(newId, a.fy, a.loss, true)])
  }

  class NoaStore {
    var carries: seq<Carry>
    var caps: seq<CapLoss>

    constructor (carries: seq<Carry>, caps: seq<CapLoss>)
      ensures this.carries == carries && this.caps == caps
    {
      this.carries, this.caps := carries, caps;
    }

    /** The loop of reconcileNoaCapitalLoss: drop each confirmed record's row and its reference. */
    method DropAll()
      modifies this
      ensures carries == Unref(old(carries)) && caps == WithoutCaps(old(caps), Refs(old(carries)))
    {
      ghost var cs, rows := carries, caps;
      WithoutNone(caps);
      assert Refs(cs[..0]) == {};
      var i := 0;
      while i < |carries|
        invariant i <= |carries| == |cs|
        invariant carries == Unref(cs[..i]) + cs[i..]
        invariant caps == WithoutCaps(rows, Refs(cs[..i]))
      {
        DropStep(cs, rows, i);
        var c := carries[i];
        if c.confirmed && c.capId.Some? {
          caps := DropCap(caps, c.capId.value);
          carries := carries[i := c.(capId := None)];
        }
        i := i + 1;
      }
      assert cs[..i] == cs;
    }

    /** reconcileNoaCapitalLoss: drop every NOA row, then write the active one. */
    method Reconcile(newId: Id)
      modifies this
      ensures (carries, caps) == Reconciled(old(carries), old(caps), newId)
    {
      var active := Active(carries);
      DropAll();
      if active.Some? {
        var a := active.value;
        caps := caps + [CapLoss(newId, a.fy, a.loss, true)];
        carries := Updated(carries, a.(capId := Some(newId)));
      }
    }
  }

  /** One round of the loop. */
  lemma {:induction false} DropStep(cs: seq<Carry>, rows: seq<CapLoss>, i: nat)
    requires i < |cs|
    ensures var c, now := cs[i], Unref(cs[..i]) + cs[i..];
      && now[i] == c
      && Unref(cs[..i + 1]) + cs[i + 1..] == (if c.confirmed && c.capId.Some? then now[i := c.(capId := None)] else now)
      && WithoutCaps(rows, Refs(cs[..i + 1]))
         == if c.confirmed && c.capId.Some? then DropCap(WithoutCaps(rows, Refs(cs[..i])), c.capId.value) else WithoutCaps(rows, Refs(cs[..i]))
  {
    var c := cs[i];
    assert cs[..i + 1] == cs[..i] + [c];
    RefsSnoc(cs[..i], c);
    if c.confirmed && c.capId.Some? {
      DropCapIs(rows, Refs(cs[..i]), c.capId.value);
    } else {
      assert Refs(cs[..i + 1]) == Refs(cs[..i]);
    }
  }

  lemma {:induction false} RefsSnoc(cs: seq<Carry>, c: Carry)
    ensures Refs(cs + [c]) == Refs(cs) + if c.confirmed && c.capId.Some? then {c.capId.value} else {}
    ensures Unref(cs + [c]) == Unref(cs) + [if c.confirmed then c.(capId := None) else c]
  {
    assert forall x :: x in cs + [c] <==> x in cs || x == c;
  }

  function NoaRows(caps: seq<CapLoss>): set<CapLoss> { set r | r in caps && r.fromNoa }

  /** What reconciling promises: one NOA row on file, the active record's own, or none. */
  ghost predicate SingleActive(cs: seq<Carry>, caps: seq<CapLoss>) {
    match Active(cs)
    case None => NoaRows(caps) == {}
    case Some(a) => a.capId.Some? && NoaRows(caps) == {CapLoss(a.capId.value, a.fy, a.loss, true)}
  }

  predicate OneEach(cs: seq<Carry>) { forall c, d | c in cs && d in cs && c.confirmed && d.confirmed && c.fy == d.fy :: c == d }

  predicate UniqueCaps(caps: seq<CapLoss>) { forall r, t | r in caps && t in caps && r.id == t.id :: r == t }

  /** One confirmed record a year, and only the active one holds a row. */
  ghost predicate Records(cs: seq<Carry>) {
    && UniqueIds(cs) && OneEach(cs)
    && forall c | c in cs && c.capId.Some? :: c.confirmed && Active(cs) == Some(c)
  }

  ghost predicate Tidy(cs: seq<Carry>, caps: seq<CapLoss>) { Records(cs) && UniqueCaps(caps) && SingleActive(cs, caps) }

  lemma {:induction false} UnrefIn(cs: seq<Carry>, x: Carry)
    ensures x in Unref(cs) <==> exists c | c in cs :: x == if c.confirmed then c.(capId := None) else c
  {
    if x in Unref(cs) {
      var i :| 0 <= i < |cs| && Unref(cs)[i] == x;
      assert cs[i] in cs;
    }
    if c :| c in cs && x == (if c.confirmed then c.(capId := None) else c) {
      var i :| 0 <= i < |cs| && cs[i] == c;
      assert Unref(cs)[i] == x;
    }
  }

  /** After reconciling, the records are in order and the NOA rows are those no record pointed at, plus the active one. */
  lemma {:induction false} ReconcileRows(cs: seq<Carry>, caps: seq<CapLoss>, newId: Id)
    requires UniqueIds(cs) && OneEach(cs) && (forall c | c in cs && c.capId.Some? :: c.confirmed)
    ensures var (ds, after) := Reconciled(cs, caps, newId);
      && Records(ds) && Active(ds).Some? == Active(cs).Some?
      && (Active(ds).Some? ==> Active(ds).value == Active(cs).value.(capId := Some(newId)))
      && NoaRows(after) == (set r | r in caps && r.fromNoa && r.id !in Refs(cs))
           + (if Active(cs).Some? then {CapLoss(newId, Active(cs).value.fy, Active(cs).value.loss, true)} else {})
  {
    var (ds, after) := Reconciled(cs, caps, newId);
    forall x | x in ds ensures exists c | c in cs :: c.id == x.id && c.fy == x.fy && c.loss == x.loss && c.confirmed == x.confirmed {
      ReconciledFrom(cs, caps, newId, x);
    }
    ReconciledRecords(cs, caps, newId);
  }

  /** The record a reconciled one came from: its reference is new if it is the active one, and gone otherwise. */
  lemma {:induction false} ReconciledFrom(cs: seq<Carry>, caps: seq<CapLoss>, newId: Id, x: Carry)
    requires x in Reconciled(cs, caps, newId).0 && UniqueIds(cs) && (forall c | c in cs && c.capId.Some? :: c.confirmed)
    ensures exists c | c in cs :: x == c.(capId := if Active(cs) == Some(c) then Some(newId) else None)
  {
    match Active(cs)
    case None =>
      UnrefIn(cs, x);
    case Some(a) =>
      var u := a.(capId := Some(newId));
      UpdatedIn(Unref(cs), u, x);
      if x == u {
        assert x == a.(capId := if Active(cs) == Some(a) then Some(newId) else None);
      } else {
        UnrefIn(cs, x);
      }
  }

  lemma {:induction false} ActiveIn(cs: seq<Carry>, caps: seq<CapLoss>, newId: Id)
    requires Active(cs).Some?
    ensures Active(cs).value.(capId := Some(newId)) in Reconciled(cs, caps, newId).0
  {
    var a := Active(cs).value;
    UnrefIn(cs, a.(capId := None));
    UpdatedIn(Unref(cs), a.(capId := Some(newId)), a.(capId := Some(newId)));
    assert exists d | d in Unref(cs) :: d.id == a.id;
  }

  lemma {:induction false} ReconciledUnique(cs: seq<Carry>, caps: seq<CapLoss>, newId: Id)
    requires UniqueIds(cs) && OneEach(cs) && (forall c | c in cs && c.capId.Some? :: c.confirmed)
    ensures UniqueIds(Reconciled(cs, caps, newId).0) && OneEach(Reconciled(cs, caps, newId).0)
  {
    var ds := Reconciled(cs, caps, newId).0;
    forall x, y | x in ds && y in ds && (x.id == y.id || (x.confirmed && y.confirmed && x.fy == y.fy)) ensures x == y {
      ReconciledFrom(cs, caps, newId, x);
      ReconciledFrom(cs, caps, newId, y);
    }
  }

  lemma {:induction false} ReconciledActive(cs: seq<Carry>, caps: seq<CapLoss>, newId: Id)
    requires UniqueIds(cs) && OneEach(cs) && (forall c | c in cs && c.capId.Some? :: c.confirmed)
    ensures var ds := Reconciled(cs, caps, newId).0;
      Active(ds) == if Active(cs).Some? then Some(Active(cs).value.(capId := Some(newId))) else None
  {
    var ds := Reconciled(cs, caps, newId).0;
    if Active(ds).Some? { ReconciledFrom(cs, caps, newId, Active(ds).value); }
    if Active(cs).Some? { ActiveIn(cs, caps, newId); }
  }

  lemma {:induction false} ReconciledRecords(cs: seq<Carry>, caps: seq<CapLoss>, newId: Id)
    requires UniqueIds(cs) && OneEach(cs) && (forall c | c in cs && c.capId.Some? :: c.confirmed)
    ensures var ds := Reconciled(cs, caps, newId).0;
      && Records(ds) && Active(ds).Some? == Active(cs).Some?
      && (Active(ds).Some? ==> Active(ds).value == Active(cs).value.(capId := Some(newId)))
  {
    var ds := Reconciled(cs, caps, newId).0;
    ReconciledUnique(cs, caps, newId);
    ReconciledActive(cs, caps, newId);
    forall x | x in ds && x.capId.Some? ensures x.confirmed && Active(ds) == Some(x) {
      ReconciledFrom(cs, caps, newId, x);
    }
  }

  // ── The operations ──────────────────────────────────────────────────────────────────────────────────

  /** Confirming a draft; `now` and `newId` come from the clock and the id generator. */
  function Confirm(y: Years, id: Id, now: int, newId: Id): Years {
    match Find(y.carries, id)
    case None => y
    case Some(row) =>
      if row.confirmed then y else
      var kept := WithoutSuperseded(Updated(y.carries, row.(confirmed := true)), row.fy, id);
      var (cs, caps) := Reconciled(kept, y.caps, newId);
      Years(Closed(y.signoffs, row.fy, now), cs, caps)
  }

  function DeleteNoa(y: Years, id: Id, newId: Id): Years {
    match Find(y.carries, id)
    case None => y
    case Some(row) =>
      var caps := if row.capId.Some? then DropCap(y.caps, row.capId.value) else y.caps;
      var left := Dropped(y.carries, id);
      if !row.confirmed then y.(carries := left, caps := caps)
      else
        var (cs, after) := Reconciled(left, caps, newId);
        Years(Reopened(y.signoffs, row.fy), cs, after)
  }

  /** An upload replaces the drafts of its year. */
  function WithoutDrafts(cs: seq<Carry>, fy: int): (kept: seq<Carry>)
    ensures forall c :: c in kept <==> c in cs && (c.confirmed || c.fy != fy)
  {
    if cs == [] then [] else
    var init, c := cs[..|cs| - 1], cs[|cs| - 1];
    assert forall x :: x in cs <==> x in init || x == c;
    if !c.confirmed && c.fy == fy then WithoutDrafts(init, fy) else WithoutDrafts(init, fy) + [c]
  }

  datatype Event =
    | Mark(fy: int, on: int, now: int)
    | Unmark(fy: int)
    | SignOff(fy: int, now: int)
    | ClearSignOff(fy: int)
    | UploadNoa(draft: Carry)
    | ConfirmNoa(id: Id, now: int, newId: Id)
    | UndoNoa(id: Id, newId: Id)
    | AddLoss(loss: CapLoss)   // the user's own prior-year loss
    | RemoveLoss(id: Id)       // the user deletes any capital-loss row, a NOA's included

  /** Ids are fresh and an upload is a draft that has written nothing. */
  predicate Possible(y: Years, e: Event) {
    && (e.UploadNoa? ==> !e.draft.confirmed && e.draft.capId == None && forall c | c in y.carries :: c.id != e.draft.id)
    && (e.ConfirmNoa? || e.UndoNoa? ==> forall r | r in y.caps :: r.id != e.newId)
    && (e.AddLoss? ==> !e.loss.fromNoa && forall r | r in y.caps :: r.id != e.loss.id)
  }

  function Next(y: Years, e: Event): Years {
    match e
    case Mark(fy, on, now) => y.(signoffs := Marked(y.signoffs, fy, on, now))
    case Unmark(fy) => y.(signoffs := Unmarked(y.signoffs, fy))
    case SignOff(fy, now) => y.(signoffs := SignedOff(y.signoffs, fy, now))
    case ClearSignOff(fy) => y.(signoffs := Cleared(y.signoffs, fy))
    case UploadNoa(draft) => y.(carries := WithoutDrafts(y.carries, draft.fy) + [draft])
    case ConfirmNoa(id, now, newId) => Confirm(y, id, now, newId)
    case UndoNoa(id, newId) => DeleteNoa(y, id, newId)
    case AddLoss(loss) => y.(caps := y.caps + [loss])
    case RemoveLoss(id) => y.(caps := DropCap(y.caps, id))
  }

  function Run(y: Years, events: seq<Event>): Years {
    if events == [] then y else Next(Run(y, events[..|events| - 1]), events[|events| - 1])
  }

  // ── The lodged date ─────────────────────────────────────────────────────────────────────────────────

  function LodgedAt(y: Years, fy: int): Option<int> { if fy in y.signoffs then y.signoffs[fy].lodgedAt else None }

  /** The last mark of the year that was not undone since. */
  function LastMark(events: seq<Event>, fy: int, start: Option<int>): Option<int> {
    if events == [] then start else
    var e := events[|events| - 1];
    if e.Mark? && e.fy == fy then Some(e.on)
    else if e.Unmark? && e.fy == fy then None
    else LastMark(events[..|events| - 1], fy, start)
  }

  lemma {:induction false} CloseKeepsDate(m: map<int, Signoff>, fy: int, now: int, g: int)
    ensures DateIn(Closed(m, fy, now), g) == DateIn(m, g) && DateIn(Reopened(m, fy), g) == DateIn(m, g)
  {
  }

  function DateIn(m: map<int, Signoff>, fy: int): Option<int> { if fy in m then m[fy].lodgedAt else None }

  lemma {:induction false} ConfirmSigns(y: Years, id: Id, now: int, newId: Id) returns (fy: int)
    ensures Confirm(y, id, now, newId).signoffs == y.signoffs || Confirm(y, id, now, newId).signoffs == Closed(y.signoffs, fy, now)
  {
    fy := if Find(y.carries, id).Some? then Find(y.carries, id).value.fy else 0;
  }

  lemma {:induction false} UndoneSigns(y: Years, id: Id, newId: Id) returns (fy: int)
    ensures DeleteNoa(y, id, newId).signoffs == y.signoffs || DeleteNoa(y, id, newId).signoffs == Reopened(y.signoffs, fy)
  {
    fy := if Find(y.carries, id).Some? then Find(y.carries, id).value.fy else 0;
  }

  lemma {:induction false} ConfirmKeepsDate(y: Years, id: Id, now: int, newId: Id, fy: int)
    ensures LodgedAt(Confirm(y, id, now, newId), fy) == LodgedAt(y, fy)
  {
    var closed := ConfirmSigns(y, id, now, newId);
    CloseKeepsDate(y.signoffs, closed, now, fy);
  }

  lemma {:induction false} UndoKeepsDate(y: Years, id: Id, newId: Id, fy: int)
    ensures LodgedAt(DeleteNoa(y, id, newId), fy) == LodgedAt(y, fy)
  {
    var fyOpen := UndoneSigns(y, id, newId);
    CloseKeepsDate(y.signoffs, fyOpen, 0, fy);
  }

  lemma {:induction false} StepLodges(y: Years, e: Event, fy: int)
    ensures LodgedAt(Next(y, e), fy)
         == if e.Mark? && e.fy == fy then Some(e.on) else if e.Unmark? && e.fy == fy then None else LodgedAt(y, fy)
  {
    match e
    case ConfirmNoa(id, now, newId) => ConfirmKeepsDate(y, id, now, newId, fy);
    case UndoNoa(id, newId) => UndoKeepsDate(y, id, newId, fy);
    case _ =>
  }

  /** Over any run, in any order, the lodged date is the last mark not undone: no attestation, re-opening, NOA close or
      NOA undo loses it, so a lodged row is never deleted. */
  lemma {:induction false} LodgedDateIsLastMark(y: Years, events: seq<Event>, fy: int)
    ensures LodgedAt(Run(y, events), fy) == LastMark(events, fy, LodgedAt(y, fy))
  {
    if events != [] {
      var init := events[..|events| - 1];
      LodgedDateIsLastMark(y, init, fy);
      StepLodges(Run(y, init), events[|events| - 1], fy);
    }
  }

  // ── Closed with a NOA ───────────────────────────────────────────────────────────────────────────────

  predicate HasConfirmed(cs: seq<Carry>, fy: int) { exists c | c in cs :: c.confirmed && c.fy == fy }

  /** A year reads as closed exactly while a NOA for it is confirmed. */
  ghost predicate ClosedExactly(y: Years) { forall fy :: IsClosed(y.signoffs, fy) <==> HasConfirmed(y.carries, fy) }

  lemma {:induction false} ConfirmedYears(cs: seq<Carry>, caps: seq<CapLoss>, newId: Id, fy: int)
    requires UniqueIds(cs) && (forall c | c in cs && c.capId.Some? :: c.confirmed)
    ensures HasConfirmed(Reconciled(cs, caps, newId).0, fy) <==> HasConfirmed(cs, fy)
  {
    var ds := Reconciled(cs, caps, newId).0;
    if x :| x in ds && x.confirmed && x.fy == fy {
      ReconciledFrom(cs, caps, newId, x);
    }
    if c :| c in cs && c.confirmed && c.fy == fy {
      var x := c.(capId := None);
      UnrefIn(cs, x);
      if Active(cs).Some? {
        var u := Active(cs).value.(capId := Some(newId));
        UpdatedIn(Unref(cs), u, x);
        ActiveIn(cs, caps, newId);
        assert Active(cs).value.id == c.id ==> u in ds && u.confirmed && u.fy == fy;
      }
    }
  }

  /** What is left of the records when a draft is claimed. */
  lemma {:induction false} ClaimedIn(cs: seq<Carry>, row: Carry, c: Carry)
    requires UniqueIds(cs) && row in cs && !row.confirmed
    ensures c in WithoutSuperseded(Updated(cs, row.(confirmed := true)), row.fy, row.id)
            <==> c == row.(confirmed := true) || (c in cs && c.id != row.id && !Superseded(c, row.fy, row.id))
  {
    UpdatedIn(cs, row.(confirmed := true), c);
  }

  lemma {:induction false} ClaimedRecords(cs: seq<Carry>, row: Carry)
    requires Records(cs) && row in cs && !row.confirmed
    ensures var kept := WithoutSuperseded(Updated(cs, row.(confirmed := true)), row.fy, row.id);
      && UniqueIds(kept) && OneEach(kept) && (forall c | c in kept && c.capId.Some? :: c.confirmed)
      && (forall fy :: HasConfirmed(kept, fy) <==> HasConfirmed(cs, fy) || fy == row.fy)
  {
    var kept, won := WithoutSuperseded(Updated(cs, row.(confirmed := true)), row.fy, row.id), row.(confirmed := true);
    forall c ensures c in kept <==> c == won || (c in cs && c.id != row.id && !Superseded(c, row.fy, row.id)) {
      ClaimedIn(cs, row, c);
    }
    forall fy ensures HasConfirmed(kept, fy) <==> HasConfirmed(cs, fy) || fy == row.fy {
      if fy == row.fy { assert won in kept; }
      if c :| c in cs && c.confirmed && c.fy == fy && fy != row.fy { assert c in kept; }
    }
  }

  /** A step keeps that, unless it re-opens a year that a NOA closed and the user never marked: then the row goes while
      the NOA stays confirmed. */
  lemma {:induction false} StepKeepsClosed(y: Years, e: Event)
    requires Records(y.carries) && ClosedExactly(y) && Possible(y, e)
    ensures ClosedExactly(Next(y, e))
       <==> !(e.ClearSignOff? && IsClosed(y.signoffs, e.fy) && y.signoffs[e.fy].lodgedAt == None)
  {
    var z := Next(y, e);
    match e
    case Mark(_, _, _) =>
    case Unmark(_) =>
    case SignOff(_, _) =>
    case ClearSignOff(fy) =>
      assert IsClosed(y.signoffs, fy) ==> HasConfirmed(z.carries, fy);
      assert !IsClosed(y.signoffs, fy) ==> forall g :: IsClosed(z.signoffs, g) == IsClosed(y.signoffs, g);
      assert forall g | g != fy :: IsClosed(z.signoffs, g) == IsClosed(y.signoffs, g);
    case UploadNoa(draft) =>
      forall fy ensures HasConfirmed(z.carries, fy) <==> HasConfirmed(y.carries, fy) {
        assert forall c :: c in z.carries <==> c in WithoutDrafts(y.carries, draft.fy) || c == draft;
        if c :| c in y.carries && c.confirmed && c.fy == fy { assert c in z.carries; }
      }
    case ConfirmNoa(id, now, newId) => ConfirmCloses(y, id, now, newId);
    case UndoNoa(id, newId) => UndoReopens(y, id, newId);
    case AddLoss(_) =>
    case RemoveLoss(_) =>
  }

  lemma {:induction false} ConfirmCloses(y: Years, id: Id, now: int, newId: Id)
    requires Records(y.carries) && ClosedExactly(y)
    ensures ClosedExactly(Confirm(y, id, now, newId))
  {
    var row := Find(y.carries, id);
    if row.Some? && !row.value.confirmed {
      var kept := WithoutSuperseded(Updated(y.carries, row.value.(confirmed := true)), row.value.fy, id);
      ClaimedRecords(y.carries, row.value);
      forall fy ensures IsClosed(Confirm(y, id, now, newId).signoffs, fy) <==> HasConfirmed(Confirm(y, id, now, newId).carries, fy) {
        ConfirmedYears(kept, y.caps, newId, fy);
      }
    }
  }

  lemma {:induction false} DroppedYears(cs: seq<Carry>, row: Carry, fy: int)
    requires Records(cs) && row in cs
    ensures HasConfirmed(Dropped(cs, row.id), fy) <==> HasConfirmed(cs, fy) && !(row.confirmed && row.fy == fy)
  {
    if c :| c in cs && c.confirmed && c.fy == fy && c.id != row.id {
      assert c in Dropped(cs, row.id);
    }
  }

  lemma {:induction false} UndoYears(y: Years, row: Carry, newId: Id, fy: int)
    requires Records(y.carries) && Find(y.carries, row.id) == Some(row)
    ensures HasConfirmed(DeleteNoa(y, row.id, newId).carries, fy) <==> HasConfirmed(y.carries, fy) && !(row.confirmed && row.fy == fy)
  {
    DroppedYears(y.carries, row, fy);
    if row.confirmed {
      ConfirmedYears(Dropped(y.carries, row.id), if row.capId.Some? then DropCap(y.caps, row.capId.value) else y.caps, newId, fy);
    }
  }

  lemma {:induction false} UndoReopens(y: Years, id: Id, newId: Id)
    requires Records(y.carries) && ClosedExactly(y)
    ensures ClosedExactly(DeleteNoa(y, id, newId))
  {
    var row := Find(y.carries, id);
    if row.Some? {
      forall fy ensures IsClosed(DeleteNoa(y, id, newId).signoffs, fy) <==> HasConfirmed(DeleteNoa(y, id, newId).carries, fy) {
        UndoYears(y, row.value, newId, fy);
        UndoSigns(y, row.value, newId, fy);
      }
    }
  }

  lemma {:induction false} UndoSigns(y: Years, row: Carry, newId: Id, fy: int)
    requires Find(y.carries, row.id) == Some(row)
    ensures IsClosed(DeleteNoa(y, row.id, newId).signoffs, fy) <==> IsClosed(y.signoffs, fy) && !(row.confirmed && row.fy == fy)
  {
  }

  /** Re-opening a NOA-closed, unmarked year: the year no longer reads as closed although its NOA is confirmed. */
  lemma {:induction false} ReopenForgetsNoa(y: Years, fy: int)
    requires ClosedExactly(y) && IsClosed(y.signoffs, fy) && y.signoffs[fy].lodgedAt == None
    ensures var z := Next(y, ClearSignOff(fy)); !CountsAsLodged(z.signoffs, fy) && HasConfirmed(z.carries, fy)
  {
  }

  /** The year to prepare by default in year `current`: the one before, until that is lodged. */
  function LodgingFy(current: int, signoffs: map<int, Signoff>): int {
    if CountsAsLodged(signoffs, current - 1) then current else current - 1
  }

  lemma {:induction false} DefaultYear(y: Years, events: seq<Event>, current: int)
    requires ClosedExactly(Run(y, events))
    ensures LodgingFy(current, Run(y, events).signoffs) == current - 1
       <==> LastMark(events, current - 1, LodgedAt(y, current - 1)) == None && !HasConfirmed(Run(y, events).carries, current - 1)
  {
    LodgedDateIsLastMark(y, events, current - 1);
  }

  // ── Capital losses ──────────────────────────────────────────────────────────────────────────────────

  /** In a tidy state the only reference is the active record's. */
  lemma {:induction false} TidyRefs(cs: seq<Carry>, caps: seq<CapLoss>)
    requires Tidy(cs, caps)
    ensures Refs(cs) == if Active(cs).Some? then {Active(cs).value.capId.value} else {}
    ensures forall r | r in caps && r.fromNoa :: r.id in Refs(cs)
  {
    assert forall r | r in caps && r.fromNoa :: r in NoaRows(caps);
  }

  /** A record about to be superseded holds the NOA row. */
  predicate SupersedesHolder(cs: seq<Carry>, row: Carry) { exists c | c in cs :: Superseded(c, row.fy, row.id) && c.capId.Some? }

  function ClaimedOf(cs: seq<Carry>, row: Carry): seq<Carry> { WithoutSuperseded(Updated(cs, row.(confirmed := true)), row.fy, row.id) }

  lemma {:induction false} KeptRefs(cs: seq<Carry>, row: Carry)
    requires Records(cs) && row in cs && !row.confirmed
    ensures Refs(ClaimedOf(cs, row)) == if SupersedesHolder(cs, row) then {} else Refs(cs)
  {
    var kept := ClaimedOf(cs, row);
    forall c ensures c in kept <==> c == row.(confirmed := true) || (c in cs && c.id != row.id && !Superseded(c, row.fy, row.id)) {
      ClaimedIn(cs, row, c);
    }
    forall c | c in cs && c.confirmed && c.capId.Some? && !Superseded(c, row.fy, row.id) ensures c in kept {
      assert c.id != row.id;
    }
  }

  lemma {:induction false} ConfirmIs(y: Years, row: Carry, now: int, newId: Id)
    requires Find(y.carries, row.id) == Some(row) && !row.confirmed
    ensures Confirm(y, row.id, now, newId).carries == Reconciled(ClaimedOf(y.carries, row), y.caps, newId).0
    ensures Confirm(y, row.id, now, newId).caps == Reconciled(ClaimedOf(y.carries, row), y.caps, newId).1
  {
  }

  /** The NOA rows after a confirm: the new active one, and with it the old one when its holder was superseded. */
  lemma {:induction false} ConfirmRows(cs: seq<Carry>, caps: seq<CapLoss>, row: Carry, newId: Id)
    requires Tidy(cs, caps) && row in cs && !row.confirmed
    ensures var (ds, after) := Reconciled(ClaimedOf(cs, row), caps, newId); var a := Active(ClaimedOf(cs, row));
      && Records(ds) && Active(ds) == (if a.Some? then Some(a.value.(capId := Some(newId))) else None)
      && NoaRows(after) == (if SupersedesHolder(cs, row) then NoaRows(caps) else {})
                          + (if a.Some? then {CapLoss(newId, a.value.fy, a.value.loss, true)} else {})
  {
    var kept := ClaimedOf(cs, row);
    ClaimedRecords(cs, row);
    ReconcileRows(kept, caps, newId);
    LeftoverRows(cs, caps, row);
  }

  lemma {:induction false} LeftoverRows(cs: seq<Carry>, caps: seq<CapLoss>, row: Carry)
    requires Tidy(cs, caps) && row in cs && !row.confirmed
    ensures (set r | r in caps && r.fromNoa && r.id !in Refs(ClaimedOf(cs, row))) == if SupersedesHolder(cs, row) then NoaRows(caps) else {}
  {
    TidyRefs(cs, caps);
    KeptRefs(cs, row);
  }

  lemma {:induction false} HolderRow(cs: seq<Carry>, caps: seq<CapLoss>, row: Carry, c: Carry)
    requires Tidy(cs, caps) && c in cs && Superseded(c, row.fy, row.id) && c.capId.Some?
    ensures NoaRows(caps) == {CapLoss(c.capId.value, c.fy, c.loss, true)}
    ensures exists r | r in caps :: r.id == c.capId.value
  {
    assert CapLoss(c.capId.value, c.fy, c.loss, true) in NoaRows(caps);
  }

  /** The kept rows are the active record's own exactly when nothing else was left behind. */
  lemma {:induction false} SingleIff(ds: seq<Carry>, after: seq<CapLoss>, a: Option<Carry>, newId: Id, left: set<CapLoss>)
    requires Active(ds) == if a.Some? then Some(a.value.(capId := Some(newId))) else None
    requires NoaRows(after) == left + (if a.Some? then {CapLoss(newId, a.value.fy, a.value.loss, true)} else {})
    requires forall r | r in left :: r.id != newId
    ensures SingleActive(ds, after) <==> left == {}
  {
    if r :| r in left { TwoRows(NoaRows(after), r, newId); }
  }

  lemma {:induction false} ConfirmSingle(cs: seq<Carry>, caps: seq<CapLoss>, row: Carry, newId: Id)
    requires Tidy(cs, caps) && row in cs && !row.confirmed && forall r | r in caps :: r.id != newId
    ensures var (ds, after) := Reconciled(ClaimedOf(cs, row), caps, newId);
      Records(ds) && (SingleActive(ds, after) <==> !SupersedesHolder(cs, row))
  {
    var (ds, after) := Reconciled(ClaimedOf(cs, row), caps, newId);
    ConfirmRows(cs, caps, row, newId);
    SingleIff(ds, after, Active(ClaimedOf(cs, row)), newId, if SupersedesHolder(cs, row) then NoaRows(caps) else {});
    if c :| c in cs && Superseded(c, row.fy, row.id) && c.capId.Some? { HolderRow(cs, caps, row, c); }
  }

  /** Confirming keeps the single NOA row exactly when no record it supersedes held it. The superseded record is deleted
      before the rows are reconciled, so a row it held is never found again. */
  lemma {:induction false} ConfirmTidy(y: Years, row: Carry, now: int, newId: Id)
    requires Tidy(y.carries, y.caps) && Possible(y, ConfirmNoa(row.id, now, newId))
    requires Find(y.carries, row.id) == Some(row) && !row.confirmed
    ensures Records(Confirm(y, row.id, now, newId).carries)
    ensures SingleActive(Confirm(y, row.id, now, newId).carries, Confirm(y, row.id, now, newId).caps) <==> !SupersedesHolder(y.carries, row)
  {
    ConfirmIs(y, row, now, newId);
    ConfirmSingle(y.carries, y.caps, row, newId);
  }

  lemma {:induction false} TwoRows(rows: set<CapLoss>, r: CapLoss, newId: Id)
    requires r in rows && r.id != newId
    ensures rows != {} && forall fy, loss :: rows != {CapLoss(newId, fy, loss, true)}
  {
  }

  /** In that case the superseded loss and the new one are both on file, and both are counted. */
  lemma {:induction false} SupersededLossStacks(y: Years, row: Carry, now: int, newId: Id, c: Carry)
    requires Tidy(y.carries, y.caps) && Possible(y, ConfirmNoa(row.id, now, newId))
    requires Find(y.carries, row.id) == Some(row) && !row.confirmed && row.loss > 0
    requires c in y.carries && Superseded(c, row.fy, row.id) && c.capId.Some?
    ensures NoaRows(Confirm(y, row.id, now, newId).caps)
         == {CapLoss(c.capId.value, c.fy, c.loss, true), CapLoss(newId, c.fy, row.loss, true)}
    ensures c.capId.value != newId
  {
    ConfirmIs(y, row, now, newId);
    StackedRows(y.carries, y.caps, row, newId, c);
  }

  lemma {:induction false} StackedRows(cs: seq<Carry>, caps: seq<CapLoss>, row: Carry, newId: Id, c: Carry)
    requires Tidy(cs, caps) && row in cs && !row.confirmed && row.loss > 0 && forall r | r in caps :: r.id != newId
    requires c in cs && Superseded(c, row.fy, row.id) && c.capId.Some?
    ensures NoaRows(Reconciled(ClaimedOf(cs, row), caps, newId).1)
         == {CapLoss(c.capId.value, c.fy, c.loss, true), CapLoss(newId, c.fy, row.loss, true)}
    ensures c.capId.value != newId
  {
    ConfirmRows(cs, caps, row, newId);
    HolderRow(cs, caps, row, c);
    ReplacementIsActive(cs, row, c);
  }

  lemma {:induction false} ReplacementIsActive(cs: seq<Carry>, row: Carry, c: Carry)
    requires Records(cs) && row in cs && !row.confirmed && row.loss > 0
    requires c in cs && Superseded(c, row.fy, row.id) && c.capId.Some?
    ensures Active(ClaimedOf(cs, row)) == Some(row.(confirmed := true))
  {
    var kept, won := ClaimedOf(cs, row), row.(confirmed := true);
    forall x ensures x in kept <==> x == won || (x in cs && x.id != row.id && !Superseded(x, row.fy, row.id)) {
      ClaimedIn(cs, row, x);
    }
    assert won in kept;
  }

  /** Undoing any NOA keeps it too: an earlier year's loss takes over. */
  lemma {:induction false} UndoTidy(y: Years, row: Carry, newId: Id)
    requires Tidy(y.carries, y.caps) && Possible(y, UndoNoa(row.id, newId)) && Find(y.carries, row.id) == Some(row)
    ensures Tidy(DeleteNoa(y, row.id, newId).carries, DeleteNoa(y, row.id, newId).caps)
  {
    if row.confirmed { UndoConfirmed(y, row, newId); } else { ActiveWithout(y.carries, row); }
  }

  lemma {:induction false} UndoIs(y: Years, row: Carry, newId: Id)
    requires Find(y.carries, row.id) == Some(row) && row.confirmed
    ensures var caps := if row.capId.Some? then DropCap(y.caps, row.capId.value) else y.caps;
      && DeleteNoa(y, row.id, newId).carries == Reconciled(Dropped(y.carries, row.id), caps, newId).0
      && DeleteNoa(y, row.id, newId).caps == Reconciled(Dropped(y.carries, row.id), caps, newId).1
  {
  }

  lemma {:induction false} UndoConfirmed(y: Years, row: Carry, newId: Id)
    requires Tidy(y.carries, y.caps) && Possible(y, UndoNoa(row.id, newId)) && Find(y.carries, row.id) == Some(row) && row.confirmed
    ensures Tidy(DeleteNoa(y, row.id, newId).carries, DeleteNoa(y, row.id, newId).caps)
  {
    var caps := if row.capId.Some? then DropCap(y.caps, row.capId.value) else y.caps;
    UndoIs(y, row, newId);
    UndoRows(y.carries, y.caps, row, caps, newId);
  }

  lemma {:induction false} UndoRows(cs: seq<Carry>, all: seq<CapLoss>, row: Carry, caps: seq<CapLoss>, newId: Id)
    requires Tidy(cs, all) && row in cs && row.confirmed && forall r | r in all :: r.id != newId
    requires forall r :: r in caps <==> r in all && row.capId != Some(r.id)
    ensures var (ds, after) := Reconciled(Dropped(cs, row.id), caps, newId); Tidy(ds, after)
  {
    var left := Dropped(cs, row.id);
    var (ds, after) := Reconciled(left, caps, newId);
    ReconcileRows(left, caps, newId);
    NothingLeft(cs, all, row, caps);
    SingleIff(ds, after, Active(left), newId, {});
    UniqueAfter(left, caps, newId);
  }

  lemma {:induction false} NothingLeft(cs: seq<Carry>, all: seq<CapLoss>, row: Carry, caps: seq<CapLoss>)
    requires Tidy(cs, all) && row in cs && forall r :: r in caps <==> r in all && row.capId != Some(r.id)
    ensures (set r | r in caps && r.fromNoa && r.id !in Refs(Dropped(cs, row.id))) == {}
  {
    LeftRefs(cs, all, row);
  }

  lemma {:induction false} UniqueAfter(cs: seq<Carry>, caps: seq<CapLoss>, newId: Id)
    requires UniqueCaps(caps) && forall r | r in caps :: r.id != newId
    ensures UniqueCaps(Reconciled(cs, caps, newId).1)
  {
  }

  lemma {:induction false} LeftRefs(cs: seq<Carry>, caps: seq<CapLoss>, row: Carry)
    requires Tidy(cs, caps) && row in cs
    ensures forall r | r in caps && r.fromNoa && row.capId != Some(r.id) :: r.id in Refs(Dropped(cs, row.id))
  {
    TidyRefs(cs, caps);
    forall r | r in caps && r.fromNoa && row.capId != Some(r.id) ensures r.id in Refs(Dropped(cs, row.id)) {
      var a := Active(cs).value;
      assert a in Dropped(cs, row.id);
    }
  }

  /** Dropping a draft does not change which record is active. */
  lemma {:induction false} ActiveWithout(cs: seq<Carry>, draft: Carry)
    requires UniqueIds(cs) && draft in cs && !draft.confirmed
    ensures Active(Dropped(cs, draft.id)) == Active(cs)
  {
    DropDraft(cs, draft);
  }

  lemma {:induction false} DropDraft(cs: seq<Carry>, draft: Carry)
    requires !draft.confirmed && forall c | c in cs && c.id == draft.id :: c == draft
    ensures Active(Dropped(cs, draft.id)) == Active(cs)
  {
    if cs != [] {
      var init, c := cs[..|cs| - 1], cs[|cs| - 1];
      assert c in cs && forall x | x in init :: x in cs;
      DropDraft(init, draft);
      if c.id != draft.id { assert Dropped(cs, draft.id)[..|Dropped(init, draft.id)|] == Dropped(init, draft.id); }
    }
  }

  // ── Each step, on the records and on a year's row ───────────────────────────────────────────────────

  /** The same NOA, whatever loss row it holds. */
  predicate SameNoa(c: Carry, d: Carry) { c.id == d.id && c.fy == d.fy && c.loss == d.loss }

  lemma {:induction false} ClaimedKept(cs: seq<Carry>, row: Carry, c: Carry)
    requires Records(cs) && row in cs && !row.confirmed && c in cs
    ensures var won := row.(confirmed := true); var kept := ClaimedOf(cs, row);
      (exists k | k in kept :: SameNoa(c, k) && k.confirmed == (c.confirmed || c == row)) <==> !(c.confirmed && c.fy == row.fy)
  {
    var won, kept := row.(confirmed := true), ClaimedOf(cs, row);
    ClaimedIn(cs, row, c);
    ClaimedIn(cs, row, won);
    if k :| k in kept && SameNoa(c, k) { ClaimedIn(cs, row, k); }
    if !(c.confirmed && c.fy == row.fy) { assert (if c == row then won else c) in kept && SameNoa(c, if c == row then won else c); }
  }

  lemma {:induction false} ClaimedFrom(cs: seq<Carry>, row: Carry, k: Carry)
    requires Records(cs) && row in cs && !row.confirmed && k in ClaimedOf(cs, row)
    ensures exists c | c in cs :: SameNoa(c, k) && k.confirmed == (c.confirmed || c == row)
  {
    ClaimedIn(cs, row, k);
    if k == row.(confirmed := true) { assert SameNoa(row, k); } else { assert SameNoa(k, k) && k != row; }
  }

  /** Confirming a draft confirms it, deletes every other confirmed record of its year, and keeps all the rest. */
  lemma {:induction false} ConfirmKeeps(y: Years, row: Carry, now: int, newId: Id)
    requires Records(y.carries) && row in y.carries && !row.confirmed
    ensures var z := Confirm(y, row.id, now, newId);
      && (forall d | d in z.carries :: exists c | c in y.carries :: SameNoa(c, d) && d.confirmed == (c.confirmed || c == row))
      && (forall c | c in y.carries ::
            (exists d | d in z.carries :: SameNoa(c, d) && d.confirmed == (c.confirmed || c == row)) <==> !(c.confirmed && c.fy == row.fy))
  {
    assert Find(y.carries, row.id) == Some(row);
    ClaimedRecords(y.carries, row);
    ConfirmIs(y, row, now, newId);
    ConfirmedKept(y.carries, y.caps, row, newId);
  }

  lemma {:induction false} ConfirmedKept(cs: seq<Carry>, caps: seq<CapLoss>, row: Carry, newId: Id)
    requires Records(cs) && row in cs && !row.confirmed
    ensures var ds := Reconciled(ClaimedOf(cs, row), caps, newId).0;
      && (forall d | d in ds :: exists c | c in cs :: SameNoa(c, d) && d.confirmed == (c.confirmed || c == row))
      && (forall c | c in cs ::
            (exists d | d in ds :: SameNoa(c, d) && d.confirmed == (c.confirmed || c == row)) <==> !(c.confirmed && c.fy == row.fy))
  {
    var kept := ClaimedOf(cs, row);
    var ds := Reconciled(kept, caps, newId).0;
    ClaimedRecords(cs, row);
    ReconcileKeeps(kept, caps, newId);
    forall d | d in ds ensures exists c | c in cs :: SameNoa(c, d) && d.confirmed == (c.confirmed || c == row) {
      var k :| k in kept && SameNoa(k, d) && k.confirmed == d.confirmed;
      ClaimedFrom(cs, row, k);
    }
    forall c | c in cs
      ensures (exists d | d in ds :: SameNoa(c, d) && d.confirmed == (c.confirmed || c == row)) <==> !(c.confirmed && c.fy == row.fy)
    {
      ClaimedKept(cs, row, c);
    }
  }

  /** Reconciling keeps every record, with its year, loss and standing. */
  lemma {:induction false} ReconcileKeeps(cs: seq<Carry>, caps: seq<CapLoss>, newId: Id)
    requires UniqueIds(cs) && (forall c | c in cs && c.capId.Some? :: c.confirmed)
    ensures var ds := Reconciled(cs, caps, newId).0;
      && (forall d | d in ds :: exists c | c in cs :: SameNoa(c, d) && c.confirmed == d.confirmed)
      && (forall c | c in cs :: exists d | d in ds :: SameNoa(c, d) && c.confirmed == d.confirmed)
  {
    var ds := Reconciled(cs, caps, newId).0;
    forall d | d in ds ensures exists c | c in cs :: SameNoa(c, d) && c.confirmed == d.confirmed { ReconciledFrom(cs, caps, newId, d); }
    forall c | c in cs ensures exists d | d in ds :: SameNoa(c, d) && c.confirmed == d.confirmed {
      var x := if c.confirmed then c.(capId := None) else c;
      UnrefIn(cs, x);
      if Active(cs).Some? {
        var u := Active(cs).value.(capId := Some(newId));
        UpdatedIn(Unref(cs), u, x);
        ActiveIn(cs, caps, newId);
      }
    }
  }

  /** Undoing a NOA deletes its record and no other; an upload replaces the drafts of its year only. */
  lemma {:induction false} RecordsKept(y: Years, e: Event)
    requires Records(y.carries) && Possible(y, e) && (e.UndoNoa? || e.UploadNoa?)
    ensures var z := Next(y, e);
      && (forall d | d in z.carries :: (e.UploadNoa? && d == e.draft) || exists c | c in y.carries :: SameNoa(c, d) && c.confirmed == d.confirmed)
      && (forall c | c in y.carries :: (exists d | d in z.carries :: SameNoa(c, d) && c.confirmed == d.confirmed)
            <==> if e.UndoNoa? then c.id != e.id else c.confirmed || c.fy != e.draft.fy)
      && (e.UploadNoa? ==> e.draft in z.carries)
  {
    var z := Next(y, e);
    match e
    case UploadNoa(draft) =>
      assert forall c :: c in z.carries <==> c in WithoutDrafts(y.carries, draft.fy) || c == draft;
      forall c | c in y.carries && (c.confirmed || c.fy != draft.fy) ensures c in z.carries && SameNoa(c, c) {}
    case UndoNoa(id, newId) =>
      var found := Find(y.carries, id);
      if found.Some? && found.value.confirmed {
        var caps := if found.value.capId.Some? then DropCap(y.caps, found.value.capId.value) else y.caps;
        ReconcileKeeps(Dropped(y.carries, id), caps, newId);
      } else {
        forall c | c in y.carries && c.id != id ensures c in z.carries && SameNoa(c, c) {}
      }
  }

  /** A loss the user entered stays on file through every step but their own deletion of it. */
  lemma {:induction false} OwnLossesKept(y: Years, e: Event, r: CapLoss)
    requires Tidy(y.carries, y.caps) && Possible(y, e) && !r.fromNoa && e != RemoveLoss(r.id)
    ensures r in Next(y, e).caps <==> r in y.caps || e == AddLoss(r)
  {
    match e
    case ConfirmNoa(id, now, newId) =>
      if Find(y.carries, id).Some? && !Find(y.carries, id).value.confirmed { OwnKept(y.carries, y.caps, ClaimedOf(y.carries, Find(y.carries, id).value), y.caps, newId, r); }
    case UndoNoa(id, newId) =>
      var row := Find(y.carries, id);
      if row.Some? {
        var caps := if row.value.capId.Some? then DropCap(y.caps, row.value.capId.value) else y.caps;
        if row.value.capId.Some? { HeldIsNoa(y.carries, y.caps, row.value); }
        OwnKept(y.carries, y.caps, Dropped(y.carries, id), caps, newId, r);
      }
    case _ =>
  }

  lemma {:induction false} HeldIsNoa(cs: seq<Carry>, caps: seq<CapLoss>, c: Carry)
    requires Tidy(cs, caps) && c in cs && c.capId.Some?
    ensures forall r | r in caps && r.id == c.capId.value :: r.fromNoa
  {
    assert CapLoss(c.capId.value, c.fy, c.loss, true) in NoaRows(caps);
  }

  lemma {:induction false} OwnKept(cs: seq<Carry>, all: seq<CapLoss>, left: seq<Carry>, caps: seq<CapLoss>, newId: Id, r: CapLoss)
    requires Tidy(cs, all) && !r.fromNoa && (r in caps <==> r in all)
    requires forall c | c in left && c.capId.Some? :: exists x | x in cs :: x.capId == c.capId
    ensures r in Reconciled(left, caps, newId).1 <==> r in all
  {
    forall x | x in cs && x.capId.Some? ensures r in all ==> x.capId != Some(r.id) { HeldIsNoa(cs, all, x); }
  }

  /** How a year's row stands after a step. */
  datatype Standing = NoRow | Standing(signedAt: int, closed: bool, lodgedAt: Option<int>)

  function StandingOf(y: Years, fy: int): Standing {
    if fy in y.signoffs then Standing(y.signoffs[fy].signedAt, y.signoffs[fy].status == ClosedWithNoa, y.signoffs[fy].lodgedAt) else NoRow
  }

  /** Only a step for the year changes its row: a mark, an attestation and a NOA make it when there is none; marks and attestations
      change one column of it; a NOA closes it as of now and its undo opens it again; re-opening and undoing drop a row that no
      lodged date keeps. */
  lemma {:induction false} StepStands(y: Years, e: Event, fy: int)
    ensures var was, now := StandingOf(y, fy), StandingOf(Next(y, e), fy);
      match e
      case Mark(g, on, t) =>
        now == if g != fy then was else if was == NoRow then Standing(t, false, Some(on)) else Standing(was.signedAt, was.closed, Some(on))
      case Unmark(g) => now == if g != fy || was == NoRow then was else Standing(was.signedAt, was.closed, None)
      case SignOff(g, t) =>
        now == if g != fy then was else if was == NoRow then Standing(t, false, None) else Standing(t, was.closed, was.lodgedAt)
      case ClearSignOff(g) => now == if g == fy && was != NoRow && was.lodgedAt == None then NoRow else was
      case ConfirmNoa(id, t, _) =>
        var row := Find(y.carries, id);
        now == if row == None || row.value.confirmed || row.value.fy != fy then was
               else if was == NoRow then Standing(t, true, None) else Standing(t, true, was.lodgedAt)
      case UndoNoa(id, _) =>
        var row := Find(y.carries, id);
        now == if row == None || !row.value.confirmed || row.value.fy != fy || was == NoRow || !was.closed then was
               else if was.lodgedAt == None then NoRow else Standing(was.signedAt, false, was.lodgedAt)
      case _ => now == was
  {
  }

  /** A row's status tells a closed year from a lodged one from any other, and says lodged exactly when it has a date and no NOA
      closed it: every step keeps that. */
  predicate StatusTells(m: map<int, Signoff>) {
    forall fy | fy in m && m[fy].status != ClosedWithNoa :: m[fy].status == Lodged <==> m[fy].lodgedAt.Some?
  }

  lemma {:induction false} StatusKept(y: Years, e: Event)
    requires StatusTells(y.signoffs)
    ensures StatusTells(Next(y, e).signoffs)
  {
    match e
    case ConfirmNoa(id, now, newId) => var fy := ConfirmSigns(y, id, now, newId);
    case UndoNoa(id, newId) => var fy := UndoneSigns(y, id, newId);
    case _ =>
  }

  // ── Whole runs ──────────────────────────────────────────────────────────────────────────────────────

  predicate IsNoaRow(caps: seq<CapLoss>, id: Id) { exists r | r in caps :: r.id == id && r.fromNoa }

  /** The steps that break a promise: re-opening a NOA-closed, unmarked year, confirming over the holder, and deleting a
      NOA's own row by hand. */
  predicate Breaks(y: Years, e: Event) {
    || (e.ClearSignOff? && IsClosed(y.signoffs, e.fy) && y.signoffs[e.fy].lodgedAt == None)
    || (e.ConfirmNoa? && Find(y.carries, e.id).Some? && !Find(y.carries, e.id).value.confirmed
        && SupersedesHolder(y.carries, Find(y.carries, e.id).value))
    || (e.RemoveLoss? && IsNoaRow(y.caps, e.id))
  }

  ghost predicate Good(y: Years) { Tidy(y.carries, y.caps) && ClosedExactly(y) }

  lemma {:induction false} ActiveWithoutDrafts(cs: seq<Carry>, fy: int)
    ensures Active(WithoutDrafts(cs, fy)) == Active(cs)
  {
    if cs != [] {
      var init, c := cs[..|cs| - 1], cs[|cs| - 1];
      ActiveWithoutDrafts(init, fy);
      if c.confirmed || c.fy != fy {
        assert WithoutDrafts(cs, fy)[..|WithoutDrafts(init, fy)|] == WithoutDrafts(init, fy);
      }
    }
  }

  lemma {:induction false} UploadTidy(cs: seq<Carry>, caps: seq<CapLoss>, draft: Carry)
    requires Tidy(cs, caps) && !draft.confirmed && draft.capId == None && forall c | c in cs :: c.id != draft.id
    ensures Tidy(WithoutDrafts(cs, draft.fy) + [draft], caps)
  {
    var left := WithoutDrafts(cs, draft.fy);
    var all := left + [draft];
    ActiveWithoutDrafts(cs, draft.fy);
    assert all[..|left|] == left && forall c :: c in all <==> c in left || c == draft;
    assert Active(all) == Active(cs);
  }

  lemma {:induction false} AddTidy(cs: seq<Carry>, caps: seq<CapLoss>, loss: CapLoss)
    requires Tidy(cs, caps) && !loss.fromNoa && forall r | r in caps :: r.id != loss.id
    ensures Tidy(cs, caps + [loss])
  {
    assert NoaRows(caps + [loss]) == NoaRows(caps);
  }

  /** Deleting a row by hand keeps the promise exactly when it is the user's own: a deleted NOA row is not written again
      until the next NOA is confirmed or undone. */
  lemma {:induction false} RemoveTidy(cs: seq<Carry>, caps: seq<CapLoss>, id: Id)
    requires Tidy(cs, caps)
    ensures Tidy(cs, DropCap(caps, id)) <==> !IsNoaRow(caps, id)
  {
    if r :| r in caps && r.id == id && r.fromNoa {
      assert r in NoaRows(caps) && r !in NoaRows(DropCap(caps, id));
    } else {
      assert NoaRows(DropCap(caps, id)) == NoaRows(caps);
    }
  }

  lemma {:induction false} ConfirmStepTidy(y: Years, row: Carry, now: int, newId: Id)
    requires Tidy(y.carries, y.caps) && Possible(y, ConfirmNoa(row.id, now, newId))
    requires Find(y.carries, row.id) == Some(row) && !row.confirmed && !SupersedesHolder(y.carries, row)
    ensures Tidy(Confirm(y, row.id, now, newId).carries, Confirm(y, row.id, now, newId).caps)
  {
    ConfirmTidy(y, row, now, newId);
    ConfirmIs(y, row, now, newId);
    UniqueAfter(ClaimedOf(y.carries, row), y.caps, newId);
  }

  lemma {:induction false} ConfirmEventTidy(y: Years, id: Id, now: int, newId: Id)
    requires Tidy(y.carries, y.caps) && Possible(y, ConfirmNoa(id, now, newId)) && !Breaks(y, ConfirmNoa(id, now, newId))
    ensures Tidy(Confirm(y, id, now, newId).carries, Confirm(y, id, now, newId).caps)
  {
    var row := Find(y.carries, id);
    if row.Some? && !row.value.confirmed { ConfirmStepTidy(y, row.value, now, newId); }
  }

  lemma {:induction false} UndoEventTidy(y: Years, id: Id, newId: Id)
    requires Tidy(y.carries, y.caps) && Possible(y, UndoNoa(id, newId))
    ensures Tidy(DeleteNoa(y, id, newId).carries, DeleteNoa(y, id, newId).caps)
  {
    var row := Find(y.carries, id);
    if row.Some? { UndoTidy(y, row.value, newId); }
  }

  lemma {:induction false} StepTidy(y: Years, e: Event)
    requires Tidy(y.carries, y.caps) && Possible(y, e) && !Breaks(y, e)
    ensures Tidy(Next(y, e).carries, Next(y, e).caps)
  {
    match e
    case UploadNoa(draft) => UploadTidy(y.carries, y.caps, draft);
    case ConfirmNoa(id, now, newId) => ConfirmEventTidy(y, id, now, newId);
    case UndoNoa(id, newId) => UndoEventTidy(y, id, newId);
    case AddLoss(loss) => AddTidy(y.carries, y.caps, loss);
    case RemoveLoss(id) => RemoveTidy(y.carries, y.caps, id);
    case _ =>
  }

  lemma {:induction false} StepGood(y: Years, e: Event)
    requires Good(y) && Possible(y, e) && !Breaks(y, e)
    ensures Good(Next(y, e))
  {
    StepTidy(y, e);
    StepKeepsClosed(y, e);
  }

  /** Every step of the run is possible and breaks nothing. */
  predicate Careful(y: Years, events: seq<Event>) {
    events != [] ==>
      var init, e := events[..|events| - 1], events[|events| - 1];
      Careful(y, init) && Possible(Run(y, init), e) && !Breaks(Run(y, init), e)
  }

  /** Every run without such a step keeps both promises throughout. */
  lemma {:induction false} RunGood(y: Years, events: seq<Event>)
    requires Good(y) && Careful(y, events)
    ensures Good(Run(y, events))
  {
    if events != [] {
      RunGood(y, events[..|events| - 1]);
      StepGood(Run(y, events[..|events| - 1]), events[|events| - 1]);
    }
  }
}
