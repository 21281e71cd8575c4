/**
 * Shared originals in the object store (src/lib/r2-store.ts; ingest, classifyAndRoute, deleteDocument and
 * deleteTransaction in src/agent.ts), for one tenant: rows and documents share keys, deletes check references, and the
 * bucket can be cleared behind the database's back.
 */
module ObjectStore {
  import opened Options

  type Id = int

  datatype Key = TxnKey(id: Id) | DocKey(id: Id)

  datatype Txn = Txn(id: Id, key: Option<Key>, hash: Option<int>, duplicate: bool, doc: Option<Id>)

  datatype Doc = Doc(id: Id, key: Key, hash: Option<int>)

  /** The two tables, and the bytes (by their hash) stored under each key. */
  datatype Store = Store(txns: seq<Txn>, docs: seq<Doc>, bucket: map<Key, int>)

  /** An upload: the hash of the bytes received, and the client's hash of the photo before it compressed it. */
  datatype Upload = Upload(id: Id, bytes: int, original: Option<int>) {
    function ImageHash(): int { original.GetOr(bytes) }
    predicate Matches(h: Option<int>) { h == Some(ImageHash()) || h == Some(bytes) }
  }

  function Put(b: map<Key, int>, k: Key, bytes: int): map<Key, int> { b[k := bytes] }

  /** Write only what is missing. */
  function Restored(b: map<Key, int>, k: Key, bytes: int): map<Key, int> { if k in b then b else b[k := bytes] }

  // ── Ingest and routing ──────────────────────────────────────────────────────────────────────────────

  function Prior(ts: seq<Txn>, u: Upload): (t: Option<Txn>)
    ensures t.Some? ==> t.value in ts && u.Matches(t.value.hash) && !t.value.duplicate
    ensures t == None ==> forall x | x in ts :: !(u.Matches(x.hash) && !x.duplicate)
  {
    if ts == [] then None else if u.Matches(ts[0].hash) && !ts[0].duplicate then Some(ts[0]) else Prior(ts[1..], u)
  }

  function PriorDoc(ds: seq<Doc>, u: Upload): (d: Option<Doc>)
    ensures d.Some? ==> d.value in ds && u.Matches(d.value.hash)
    ensures d == None ==> forall x | x in ds :: !u.Matches(x.hash)
  {
    if ds == [] then None else if u.Matches(ds[0].hash) then Some(ds[0]) else PriorDoc(ds[1..], u)
  }

  /** A receipt arrives. A duplicate reuses its original's key, restoring the object there if it was cleared. */
  function Ingest(s: Store, u: Upload): Store {
    match Prior(s.txns, u)
    case Some(p) =>
      var k := p.key.GetOr(TxnKey(u.id));
      s.(bucket := Restored(s.bucket, k, u.bytes), txns := s.txns + [Txn(u.id, Some(k), Some(u.ImageHash()), true, None)])
    case None =>
      s.(bucket := Put(s.bucket, TxnKey(u.id), u.bytes),
         txns := s.txns + [Txn(u.id, Some(TxnKey(u.id)), Some(u.ImageHash()), false, None)])
  }

  /** How the model call of a new document ends: it throws, the document is filed, or filed with a receipt row. */
  datatype Call = Throws | Filed | FiledWithRow(txn: Id)

  /** A document arrives: the object is stored before the model call, the row after it. */
  function Route(s: Store, u: Upload, call: Call): Store {
    match PriorDoc(s.docs, u)
    case Some(d) => s.(bucket := Restored(s.bucket, d.key, u.bytes))
    case None =>
      var stored := s.(bucket := Put(s.bucket, DocKey(u.id), u.bytes));
      var filed := stored.(docs := s.docs + [Doc(u.id, DocKey(u.id), Some(u.ImageHash()))]);
      match call
      case Throws => stored
      case Filed => filed
      case FiledWithRow(t) => filed.(txns := s.txns + [Txn(t, Some(DocKey(u.id)), Some(u.ImageHash()), false, Some(u.id))])
  }

  // ── Deletes ─────────────────────────────────────────────────────────────────────────────────────────

  predicate TxnRefers(ts: seq<Txn>, k: Key, except: Option<Id>) { exists t | t in ts :: t.key == Some(k) && Some(t.id) != except }

  predicate DocRefers(ds: seq<Doc>, k: Key) { exists d | d in ds :: d.key == k }

  predicate KeyStillReferenced(s: Store, k: Key, exceptTxn: Option<Id>, includeDocuments: bool) {
    TxnRefers(s.txns, k, exceptTxn) || (includeDocuments && DocRefers(s.docs, k))
  }

  function FindTxn(ts: seq<Txn>, id: Id): (t: Option<Txn>)
    ensures t.Some? ==> t.value in ts && t.value.id == id
    ensures t == None ==> forall x | x in ts :: x.id != id
  {
    if ts == [] then None else if ts[0].id == id then Some(ts[0]) else FindTxn(ts[1..], id)
  }

  function FindDoc(ds: seq<Doc>, id: Id): (d: Option<Doc>)
    ensures d.Some? ==> d.value in ds && d.value.id == id
    ensures d == None ==> forall x | x in ds :: x.id != id
  {
    if ds == [] then None else if ds[0].id == id then Some(ds[0]) else FindDoc(ds[1..], id)
  }

  function WithoutTxn(ts: seq<Txn>, id: Id): (kept: seq<Txn>)
    ensures forall t :: t in kept <==> t in ts && t.id != id
  {
    if ts == [] then [] else
    var init, t := ts[..|ts| - 1], ts[|ts| - 1];
    assert forall x :: x in ts <==> x in init || x == t;
    if t.id == id then WithoutTxn(init, id) else WithoutTxn(init, id) + [t]
  }

  function WithoutOfDoc(ts: seq<Txn>, doc: Id): (kept: seq<Txn>)
    ensures forall t :: t in kept <==> t in ts && t.doc != Some(doc)
  {
    if ts == [] then [] else
    var init, t := ts[..|ts| - 1], ts[|ts| - 1];
    assert forall x :: x in ts <==> x in init || x == t;
    if t.doc == Some(doc) then WithoutOfDoc(init, doc) else WithoutOfDoc(init, doc) + [t]
  }

  function WithoutDoc(ds: seq<Doc>, id: Id): (kept: seq<Doc>)
    ensures forall d :: d in kept <==> d in ds && d.id != id
  {
    if ds == [] then [] else
    var init, d := ds[..|ds| - 1], ds[|ds| - 1];
    assert forall x :: x in ds <==> x in init || x == d;
    if d.id == id then WithoutDoc(init, id) else WithoutDoc(init, id) + [d]
  }

  /** The object goes first, while the row is still there, unless another row or a document needs it. */
  function DeleteTransaction(s: Store, id: Id): Store {
    match FindTxn(s.txns, id)
    case None => s
    case Some(t) =>
      var bucket := if t.key.Some? && !KeyStillReferenced(s, t.key.value, Some(id), true) then s.bucket - {t.key.value} else s.bucket;
      s.(bucket := bucket, txns := WithoutTxn(s.txns, id))
  }

  /** The document's own rows go first, then the document, then its object unless a row still needs it. */
  function DeleteDocument(s: Store, id: Id): Store {
    match FindDoc(s.docs, id)
    case None => s
    case Some(d) =>
      var left := s.(txns := WithoutOfDoc(s.txns, id), docs := WithoutDoc(s.docs, id));
      left.(bucket := if !KeyStillReferenced(left, d.key, None, false) then s.bucket - {d.key} else s.bucket)
  }

  /** Every stored object but that of key `k` is as it was. */
  predicate Untouched(before: map<Key, int>, after: map<Key, int>, k: Key) {
    forall j | j in before && j != k :: j in after && after[j] == before[j]
  }

  /** Every object that something still refers to is as it was. */
  predicate SparesReferenced(before: Store, after: Store) {
    forall k | k in before.bucket && Referenced(after, k) :: k in after.bucket && after.bucket[k] == before.bucket[k]
  }

  /** The bytes are those received or those of the photo before it was compressed. */
  predicate SameImage(u: Upload, hash: Option<int>) { hash.Some? && (hash.value == u.bytes || (u.original.Some? && hash == u.original)) }

  /** The row of a receipt: a duplicate exactly when some row that is none has the same image; otherwise under a key of its own. */
  predicate FiledReceipt(before: Store, u: Upload, row: Txn) {
    && row.id == u.id && row.doc == None && row.hash == (if u.original.Some? then u.original else Some(u.bytes))
    && (row.duplicate <==> exists t | t in before.txns :: !t.duplicate && SameImage(u, t.hash))
    && (!row.duplicate ==> row.key == Some(TxnKey(u.id)))
  }

  /** The object is there, and nothing but a missing one was written. */
  predicate PutBack(before: map<Key, int>, after: map<Key, int>, k: Key) {
    k in after && Untouched(before, after, k) && (k in before ==> after == before)
  }

  /** A document is filed unless one on file has the same image or the model call throws, and a receipt row with it when the
      call says so. */
  predicate FiledDocument(before: Store, u: Upload, call: Call, after: Store) {
    var hash := if u.original.Some? then u.original else Some(u.bytes);
    var unseen := (forall d | d in before.docs :: !SameImage(u, d.hash));
    && after.docs == before.docs + (if unseen && call != Throws then [Doc(u.id, DocKey(u.id), hash)] else [])
    && after.txns == before.txns + (if unseen && call.FiledWithRow? then [Txn(call.txn, Some(DocKey(u.id)), hash, false, Some(u.id))] else [])
    && (unseen ==> after.bucket == before.bucket[DocKey(u.id) := u.bytes])
    && (!unseen ==> exists d | d in before.docs && SameImage(u, d.hash) :: PutBack(before.bucket, after.bucket, d.key))
  }

  lemma {:induction false} RouteFiles(s: Store, u: Upload, call: Call)
    ensures FiledDocument(s, u, call, Route(s, u, call))
  {
  }

  class Originals {
    var s: Store

    constructor (s: Store)
      ensures this.s == s
    {
      this.s := s;
    }

    /** A receipt is filed as one more row, whose object is in the bucket; no stored object of another key is written over, and
        a duplicate's row carries its original's key. */
    method ReceiveReceipt(u: Upload)
      modifies this
      ensures s == Ingest(old(s), u)
      ensures old(s).txns < s.txns && |s.txns| == |old(s).txns| + 1 && s.docs == old(s).docs
      ensures s.txns[|old(s).txns|].key.Some? && s.txns[|old(s).txns|].key.value in s.bucket
      ensures Untouched(old(s).bucket, s.bucket, TxnKey(u.id))
      ensures forall t | Prior(old(s).txns, u) == Some(t) && t.key.Some? ::
        s.txns[|old(s).txns|].key == t.key && s.txns[|old(s).txns|].duplicate && Untouched(old(s).bucket, s.bucket, t.key.value)
      ensures NoOrphans(old(s)) ==> NoOrphans(s)
      ensures FiledReceipt(old(s), u, s.txns[|old(s).txns|])
      ensures !s.txns[|old(s).txns|].duplicate ==> s.bucket == old(s).bucket[TxnKey(u.id) := u.bytes]
    {
      if NoOrphans(s) { IngestKeeps(s, u); }
      var prior := Prior(s.txns, u);
      if prior.Some? {
        var k := if prior.value.key.Some? then prior.value.key.value else TxnKey(u.id);
        if k !in s.bucket { s := s.(bucket := s.bucket[k := u.bytes]); }
        s := s.(txns := s.txns + [Txn(u.id, Some(k), Some(u.ImageHash()), true, None)]);
        return;
      }
      s := s.(bucket := s.bucket[TxnKey(u.id) := u.bytes]);
      s := s.(txns := s.txns + [Txn(u.id, Some(TxnKey(u.id)), Some(u.ImageHash()), false, None)]);
    }

    /** Put before the model call, which may throw; the row is only written after it. No row is lost, no stored object but the
        document's own new one is written over, and only a new document whose call throws leaves an object without a row. */
    method ReceiveDocument(u: Upload, call: Call)
      modifies this
      ensures s == Route(old(s), u, call)
      ensures old(s).txns <= s.txns && old(s).docs <= s.docs && Untouched(old(s).bucket, s.bucket, DocKey(u.id))
      ensures forall d | d in s.docs && d !in old(s).docs :: d.key in s.bucket && s.bucket[d.key] == u.bytes
      ensures Possible(old(s), DocumentIn(u, call)) && NoOrphans(old(s)) ==> (NoOrphans(s) <==> !Strands(old(s), DocumentIn(u, call)))
      ensures FiledDocument(old(s), u, call, s)
    {
      if Possible(s, DocumentIn(u, call)) && NoOrphans(s) { RouteKeeps(s, u, call); }
      RouteFiles(s, u, call);
      var prior := PriorDoc(s.docs, u);
      if prior.Some? {
        if prior.value.key !in s.bucket { s := s.(bucket := s.bucket[prior.value.key := u.bytes]); }
        return;
      }
      s := s.(bucket := s.bucket[DocKey(u.id) := u.bytes]);
      if call == Throws { return; }
      s := s.(docs := s.docs + [Doc(u.id, DocKey(u.id), Some(u.ImageHash()))]);
      if call.FiledWithRow? {
        s := s.(txns := s.txns + [Txn(call.txn, Some(DocKey(u.id)), Some(u.ImageHash()), false, Some(u.id))]);
      }
    }

    /** Exactly the row goes; its object goes with it only when nothing that remains refers to it. */
    method RemoveTransaction(id: Id)
      modifies this
      ensures s == DeleteTransaction(old(s), id)
      ensures s.docs == old(s).docs && (forall t :: t in s.txns <==> t in old(s).txns && t.id != id)
      ensures Keyed(old(s)) ==> SparesReferenced(old(s), s) && (NoOrphans(old(s)) ==> NoOrphans(s))
      ensures Keyed(old(s)) ==> forall k | k in old(s).bucket :: k !in s.bucket <==>
        (exists t | t in old(s).txns :: t.id == id && t.key == Some(k)) && (forall t | t in s.txns :: t.key != Some(k)) && forall d | d in s.docs :: d.key != k
    {
      if Keyed(s) {
        SparedBy(s, TxnGone(id));
        if NoOrphans(s) { DeleteTxnKeeps(s, id); }
      }
      var t := FindTxn(s.txns, id);
      if t == None { return; }
      if t.value.key.Some? && !KeyStillReferenced(s, t.value.key.value, Some(id), true) {
        s := s.(bucket := s.bucket - {t.value.key.value});
      }
      s := s.(txns := WithoutTxn(s.txns, id));
    }

    /** The document goes with its own rows (when it exists); its object goes only when nothing that remains refers to it. */
    method RemoveDocument(id: Id)
      modifies this
      ensures s == DeleteDocument(old(s), id)
      ensures (forall d :: d in s.docs <==> d in old(s).docs && d.id != id)
      ensures (forall t :: t in s.txns <==> t in old(s).txns && !(FindDoc(old(s).docs, id).Some? && t.doc == Some(id)))
      ensures Keyed(old(s)) ==> SparesReferenced(old(s), s) && (NoOrphans(old(s)) ==> NoOrphans(s))
      ensures (forall d, e | d in old(s).docs && e in old(s).docs && d.id == e.id :: d == e) ==> forall k | k in old(s).bucket ::
        k !in s.bucket <==> (exists d | d in old(s).docs :: d.id == id && d.key == k) && forall t | t in s.txns :: t.key != Some(k)
    {
      if Keyed(s) {
        SparedBy(s, DocGone(id));
        if NoOrphans(s) { DeleteDocKeeps(s, id); }
      }
      var d := FindDoc(s.docs, id);
      if d == None { return; }
      s := s.(txns := WithoutOfDoc(s.txns, id));
      s := s.(docs := WithoutDoc(s.docs, id));
      if !KeyStillReferenced(s, d.value.key, None, false) { s := s.(bucket := s.bucket - {d.value.key}); }
    }
  }

  // ── What every run keeps ────────────────────────────────────────────────────────────────────────────

  predicate Referenced(s: Store, k: Key) { TxnRefers(s.txns, k, None) || DocRefers(s.docs, k) }

  /** Ids are keys, each document has its own object, and a document's rows point at nothing but that object. */
  predicate Keyed(s: Store) {
    && (forall t, u | t in s.txns && u in s.txns && t.id == u.id :: t == u)
    && (forall d, e | d in s.docs && e in s.docs && d.id == e.id :: d == e)
    && (forall d | d in s.docs :: d.key == DocKey(d.id))
    && (forall t | t in s.txns && t.doc.Some? :: t.key == None || t.key == Some(DocKey(t.doc.value)))
  }

  predicate NoOrphans(s: Store) { forall k | k in s.bucket :: Referenced(s, k) }

  datatype Event =
    | ReceiptIn(u: Upload)
    | DocumentIn(u: Upload, call: Call)
    | TxnGone(id: Id)
    | DocGone(id: Id)
    | Cleared(keys: set<Key>)   // objects removed from the bucket by hand

  /** Ids are fresh: no row, document or object has used them. */
  predicate Possible(s: Store, e: Event) {
    match e
    case ReceiptIn(u) => FindTxn(s.txns, u.id) == None
    case DocumentIn(u, call) =>
      && FindDoc(s.docs, u.id) == None && (call.FiledWithRow? ==> FindTxn(s.txns, call.txn) == None)
      && DocKey(u.id) !in s.bucket && !Referenced(s, DocKey(u.id))
    case _ => true
  }

  function Next(s: Store, e: Event): Store {
    match e
    case ReceiptIn(u) => Ingest(s, u)
    case DocumentIn(u, call) => Route(s, u, call)
    case TxnGone(id) => DeleteTransaction(s, id)
    case DocGone(id) => DeleteDocument(s, id)
    case Cleared(keys) => s.(bucket := s.bucket - keys)
  }

  /** Any upload under an id that nothing has used is possible, and so is any delete; clearing takes exactly the objects named. */
  lemma {:induction false} EventsMean(s: Store, e: Event)
    ensures match e
      case ReceiptIn(u) => Possible(s, e) <==> forall t | t in s.txns :: t.id != u.id
      case DocumentIn(u, call) => Possible(s, e) <==>
        && (forall d | d in s.docs :: d.id != u.id && d.key != DocKey(u.id)) && (forall t | t in s.txns :: t.key != Some(DocKey(u.id)))
        && DocKey(u.id) !in s.bucket && (call.FiledWithRow? ==> forall t | t in s.txns :: t.id != call.txn)
      case TxnGone(_) => Possible(s, e)
      case DocGone(_) => Possible(s, e)
      case Cleared(keys) => Possible(s, e)
    ensures e.Cleared? ==> Next(s, e).txns == s.txns && Next(s, e).docs == s.docs
    ensures e.Cleared? ==> forall k :: k in Next(s, e).bucket <==> k in s.bucket && k !in e.keys
    ensures e.Cleared? ==> forall k | k in Next(s, e).bucket :: Next(s, e).bucket[k] == s.bucket[k]
  {
  }

  /** A new document whose model call throws: its object is stored and no row is ever written. */
  predicate Strands(s: Store, e: Event) { e.DocumentIn? && e.call == Throws && PriorDoc(s.docs, e.u) == None }

  lemma {:induction false} AppendRefers(s: Store, ts: seq<Txn>, t: Txn, k: Key)
    ensures TxnRefers(ts + [t], k, None) <==> TxnRefers(ts, k, None) || t.key == Some(k)
  {
    assert forall x :: x in ts + [t] <==> x in ts || x == t;
  }

  lemma {:induction false} IngestKeyed(s: Store, u: Upload)
    requires Keyed(s) && FindTxn(s.txns, u.id) == None
    ensures Keyed(Ingest(s, u))
  {
  }

  lemma {:induction false} RouteKeyed(s: Store, u: Upload, call: Call)
    requires Keyed(s) && Possible(s, DocumentIn(u, call))
    ensures Keyed(Route(s, u, call))
  {
  }

  lemma {:induction false} StepKeyed(s: Store, e: Event)
    requires Keyed(s) && Possible(s, e)
    ensures Keyed(Next(s, e))
  {
    match e
    case ReceiptIn(u) => IngestKeyed(s, u);
    case DocumentIn(u, call) => RouteKeyed(s, u, call);
    case _ =>
  }

  /** No step but one leaves an object nothing refers to. */
  lemma {:induction false} StepStrands(s: Store, e: Event)
    requires Keyed(s) && NoOrphans(s) && Possible(s, e)
    ensures NoOrphans(Next(s, e)) <==> !Strands(s, e)
  {
    match e
    case ReceiptIn(u) => IngestKeeps(s, u);
    case DocumentIn(u, call) => RouteKeeps(s, u, call);
    case TxnGone(id) => DeleteTxnKeeps(s, id);
    case DocGone(id) => DeleteDocKeeps(s, id);
    case Cleared(keys) =>
  }

  lemma {:induction false} IngestKeeps(s: Store, u: Upload)
    requires NoOrphans(s)
    ensures NoOrphans(Ingest(s, u))
  {
    var z := Ingest(s, u);
    forall k | k in z.bucket ensures Referenced(z, k) {
      AppendRefers(s, s.txns, z.txns[|s.txns|], k);
    }
  }

  lemma {:induction false} RouteKeeps(s: Store, u: Upload, call: Call)
    requires NoOrphans(s) && DocKey(u.id) !in s.bucket && !Referenced(s, DocKey(u.id))
    ensures NoOrphans(Route(s, u, call)) <==> !(call == Throws && PriorDoc(s.docs, u) == None)
  {
    var z := Route(s, u, call);
    if PriorDoc(s.docs, u) == None {
      if call == Throws {
        assert DocKey(u.id) in z.bucket && !Referenced(z, DocKey(u.id));
      } else {
        forall k | k in z.bucket ensures Referenced(z, k) {
          RouteRefers(s, u, call, k);
        }
      }
    } else {
      forall k | k in z.bucket ensures Referenced(z, k) {
        assert k in s.bucket || k == PriorDoc(s.docs, u).value.key;
      }
    }
  }

  lemma {:induction false} RouteRefers(s: Store, u: Upload, call: Call, k: Key)
    requires PriorDoc(s.docs, u) == None && call != Throws && (Referenced(s, k) || k == DocKey(u.id))
    ensures Referenced(Route(s, u, call), k)
  {
    var z, d := Route(s, u, call), Doc(u.id, DocKey(u.id), Some(u.ImageHash()));
    assert forall x :: x in z.docs <==> x in s.docs || x == d;
    assert forall t | t in s.txns :: t in z.txns;
  }

  lemma {:induction false} DeleteTxnKeeps(s: Store, id: Id)
    requires Keyed(s) && NoOrphans(s)
    ensures NoOrphans(DeleteTransaction(s, id))
  {
    var z := DeleteTransaction(s, id);
    if FindTxn(s.txns, id).Some? {
      var t := FindTxn(s.txns, id).value;
      forall k | k in z.bucket ensures Referenced(z, k) {
        if TxnRefers(s.txns, k, None) {
          var x :| x in s.txns && x.key == Some(k);
          if x.id != id { assert x in z.txns; }
        }
        if t.key == Some(k) && TxnRefers(s.txns, k, Some(id)) {
          var x :| x in s.txns && x.key == Some(k) && Some(x.id) != Some(id);
          assert x in z.txns;
        }
      }
    }
  }

  lemma {:induction false} DeleteDocKeeps(s: Store, id: Id)
    requires Keyed(s) && NoOrphans(s)
    ensures NoOrphans(DeleteDocument(s, id))
  {
    var z := DeleteDocument(s, id);
    if FindDoc(s.docs, id).Some? {
      forall k | k in z.bucket ensures Referenced(z, k) {
        if k != DocKey(id) { OtherKeyKept(s, id, k); }
      }
    }
  }

  lemma {:induction false} OtherKeyKept(s: Store, id: Id, k: Key)
    requires Keyed(s) && Referenced(s, k) && k != DocKey(id)
    ensures Referenced(DeleteDocument(s, id), k)
  {
    var z := DeleteDocument(s, id);
    if t :| t in s.txns && t.key == Some(k) { assert t in z.txns; }
    if d :| d in s.docs && d.key == k { assert d in z.docs; }
  }

  /** A delete never takes away an object that a remaining row or document still refers to. */
  lemma {:induction false} DeletesSpareShared(s: Store, e: Event, k: Key)
    requires Keyed(s) && (e.TxnGone? || e.DocGone?)
    requires k in s.bucket && Referenced(Next(s, e), k)
    ensures k in Next(s, e).bucket && Next(s, e).bucket[k] == s.bucket[k]
  {
    var z := Next(s, e);
    if e.TxnGone? && FindTxn(s.txns, e.id).Some? {
      if t :| t in z.txns && t.key == Some(k) { assert t in s.txns && Some(t.id) != Some(e.id); }
    }
    if e.DocGone? && FindDoc(s.docs, e.id).Some? {
      if d :| d in z.docs && d.key == k { assert d.id != e.id && d.key == DocKey(d.id); }
    }
  }

  lemma {:induction false} SparedBy(s: Store, e: Event)
    requires Keyed(s) && (e.TxnGone? || e.DocGone?)
    ensures SparesReferenced(s, Next(s, e))
  {
    forall k | k in s.bucket && Referenced(Next(s, e), k) ensures k in Next(s, e).bucket && Next(s, e).bucket[k] == s.bucket[k] {
      DeletesSpareShared(s, e, k);
    }
  }

  function Run(s: Store, es: seq<Event>): Store {
    if es == [] then s else Next(Run(s, es[..|es| - 1]), es[|es| - 1])
  }

  /** Every step of the run is possible and strands nothing. */
  predicate Careful(s: Store, es: seq<Event>) {
    es != [] ==>
      var init, e := es[..|es| - 1], es[|es| - 1];
      Careful(s, init) && Possible(Run(s, init), e) && !Strands(Run(s, init), e)
  }

  /** Over every run whose new documents all get a row, no object is ever left that nothing refers to. */
  lemma {:induction false} RunStrandsNothing(s: Store, es: seq<Event>)
    requires Keyed(s) && NoOrphans(s) && Careful(s, es)
    ensures Keyed(Run(s, es)) && NoOrphans(Run(s, es))
  {
    if es != [] {
      var init, e := es[..|es| - 1], es[|es| - 1];
      RunStrandsNothing(s, init);
      StepKeyed(Run(s, init), e);
      StepStrands(Run(s, init), e);
    }
  }

  // ── A re-upload finds its original, whatever happened since ─────────────────────────────────────────

  /** The event deletes the row, by itself or with its document. */
  predicate Deletes(e: Event, t: Txn) { (e.TxnGone? && e.id == t.id) || (e.DocGone? && t.doc == Some(e.id)) }

  lemma {:induction false} PriorAppend(ts: seq<Txn>, x: Txn, u: Upload, t: Txn)
    requires Prior(ts, u) == Some(t)
    ensures Prior(ts + [x], u) == Some(t)
  {
    if !(u.Matches(ts[0].hash) && !ts[0].duplicate) {
      assert (ts + [x])[1..] == ts[1..] + [x];
      PriorAppend(ts[1..], x, u, t);
    }
  }

  lemma {:induction false} PriorAbsent(ts: seq<Txn>, x: Txn, u: Upload)
    requires Prior(ts, u) == None
    ensures Prior(ts + [x], u) == if u.Matches(x.hash) && !x.duplicate then Some(x) else None
  {
    if ts == [] {
      assert ts + [x] == [x] && [x][1..] == [];
    } else {
      assert ts[0] in ts && (ts + [x])[1..] == ts[1..] + [x];
      PriorAbsent(ts[1..], x, u);
    }
  }

  /** The first match is the last element's only when nothing before it matches. */
  lemma {:induction false} PriorSnoc(ts: seq<Txn>, x: Txn, u: Upload)
    ensures Prior(ts + [x], u) == if Prior(ts, u).Some? then Prior(ts, u) else if u.Matches(x.hash) && !x.duplicate then Some(x) else None
  {
    if Prior(ts, u).Some? { PriorAppend(ts, x, u, Prior(ts, u).value); } else { PriorAbsent(ts, x, u); }
  }

  lemma {:induction false} PriorWithoutTxn(ts: seq<Txn>, id: Id, u: Upload)
    ensures forall t | Prior(ts, u) == Some(t) && t.id != id :: Prior(WithoutTxn(ts, id), u) == Some(t)
    ensures Prior(ts, u) == None ==> Prior(WithoutTxn(ts, id), u) == None
  {
    if ts != [] {
      var init, x := ts[..|ts| - 1], ts[|ts| - 1];
      assert ts == init + [x];
      PriorWithoutTxn(init, id, u);
      PriorSnoc(init, x, u);
      PriorSnoc(WithoutTxn(init, id), x, u);
    }
  }

  lemma {:induction false} PriorWithoutDoc(ts: seq<Txn>, doc: Id, u: Upload)
    ensures forall t | Prior(ts, u) == Some(t) && t.doc != Some(doc) :: Prior(WithoutOfDoc(ts, doc), u) == Some(t)
    ensures Prior(ts, u) == None ==> Prior(WithoutOfDoc(ts, doc), u) == None
  {
    if ts != [] {
      var init, x := ts[..|ts| - 1], ts[|ts| - 1];
      assert ts == init + [x];
      PriorWithoutDoc(init, doc, u);
      PriorSnoc(init, x, u);
      PriorSnoc(WithoutOfDoc(init, doc), x, u);
    }
  }

  lemma {:induction false} PriorKept(s: Store, e: Event, u: Upload, t: Txn)
    requires Prior(s.txns, u) == Some(t) && !Deletes(e, t)
    ensures Prior(Next(s, e).txns, u) == Some(t)
  {
    match e
    case ReceiptIn(v) => PriorAppend(s.txns, Next(s, e).txns[|s.txns|], u, t);
    case DocumentIn(v, call) => if |Next(s, e).txns| > |s.txns| { PriorAppend(s.txns, Next(s, e).txns[|s.txns|], u, t); }
    case TxnGone(id) => PriorWithoutTxn(s.txns, id, u);
    case DocGone(id) => PriorWithoutDoc(s.txns, id, u);
    case Cleared(_) =>
  }

  /**
   * Whatever comes in, is deleted or is cleared from the bucket in between, short of the original itself: sending the
   * receipt again finds that original, files the duplicate under its key, puts the object back if it is gone, and never
   * overwrites it if it is there.
   */
  lemma {:induction false} ReuploadRestores(s: Store, es: seq<Event>, u: Upload, t: Txn, k: Key)
    requires Prior(s.txns, u) == Some(t) && t.key == Some(k) && forall e | e in es :: !Deletes(e, t)
    ensures Prior(Run(s, es).txns, u) == Some(t)
    ensures var y := Run(s, es); var z := Ingest(y, u);
      && k in z.bucket && z.bucket[k] == (if k in y.bucket then y.bucket[k] else u.bytes)
      && z.bucket.Keys == y.bucket.Keys + {k} && Untouched(y.bucket, z.bucket, k)
      && z.txns == y.txns + [Txn(u.id, Some(k), Some(u.ImageHash()), true, None)]
  {
    if es != [] {
      var init, e := es[..|es| - 1], es[|es| - 1];
      assert e in es && forall x | x in init :: x in es;
      ReuploadRestores(s, init, u, t, k);
      PriorKept(Run(s, init), e, u, t);
    }
  }
}
