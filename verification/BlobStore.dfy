/**
 The content-addressed store: users' documents share one blob row and one physical file per content
 hash, and a reference count on the row decides when the file is purged.
*/
module BlobStore {
  import opened Wrappers
  import opened Sequences

  type Id = int

  datatype Blob = Blob(hash: string, refCount: int)

  datatype Document = Document(owner: Id, blobId: Option<Id>, hash: string)

  datatype Store = Store(blobs: map<Id, Blob>, documents: map<Id, Document>, files: set<string>)

  datatype Error = BadFile | NotFound | KeyTaken

  /** A file is the hash of its bytes, or None when it is not a PDF or too large. */
  datatype Request =
    | Upload(user: Id, newDoc: Id, newBlob: Id, file: Option<string>)
    | AttachPdf(user: Id, doc: Id, newBlob: Id, file: Option<string>)
    | Register(user: Id, newDoc: Id, hash: string)
    | DeleteDocument(user: Id, doc: Id)

  // ---- The calls ----------------------------------------------------------------------------------

  /** The row with this hash; the column is unique. */
  ghost function Find(blobs: map<Id, Blob>, hash: string): Option<Id> {
    if exists b :: b in blobs && blobs[b].hash == hash then
      var b :| b in blobs && blobs[b].hash == hash;
      Some(b)
    else None
  }

  /** One more reference to the row, or a first one on a new row. */
  function Referenced(blobs: map<Id, Blob>, found: Option<Id>, newBlob: Id, hash: string): map<Id, Blob>
    requires found.Some? ==> found.value in blobs
  {
    match found
    case Some(b) => blobs[b := blobs[b].(refCount := blobs[b].refCount + 1)]
    case None => blobs[newBlob := Blob(hash, 1)]
  }

  ghost function Uploaded(s: Store, user: Id, newDoc: Id, newBlob: Id, file: Option<string>): Result<Store, Error> {
    if file.None? then Err(BadFile)
    else
      var found := Find(s.blobs, file.value);
      if newDoc in s.documents || (found.None? && newBlob in s.blobs) then Err(KeyTaken)
      else
        var b := if found.Some? then found.value else newBlob;
        Ok(Store(Referenced(s.blobs, found, newBlob, file.value),
                 s.documents[newDoc := Document(user, Some(b), file.value)],
                 s.files + {file.value}))
  }

  ghost function Attached(s: Store, user: Id, doc: Id, newBlob: Id, file: Option<string>): Result<Store, Error> {
    if doc !in s.documents || s.documents[doc].owner != user then Err(NotFound)
    else if file.None? then Err(BadFile)
    else
      var found := Find(s.blobs, file.value);
      if found.None? && newBlob in s.blobs then Err(KeyTaken)
      else
        var b := if found.Some? then found.value else newBlob;
        Ok(Store(Referenced(s.blobs, found, newBlob, file.value),
                 s.documents[doc := Document(user, Some(b), file.value)],
                 if found.Some? then s.files else s.files + {file.value}))
  }

  /** A document known by its metadata only. */
  function Registered(s: Store, user: Id, newDoc: Id, hash: string): Result<Store, Error> {
    if newDoc in s.documents then Err(KeyTaken)
    else Ok(s.(documents := s.documents[newDoc := Document(user, None, hash)]))
  }

  /** The row whose count a deletion lowers: the document's own, or for want of one the row with its hash. */
  ghost function Released(s: Store, d: Document): Option<Id> {
    if d.blobId.Some? then (if d.blobId.value in s.blobs then d.blobId else None)
    else if d.hash != "" then Find(s.blobs, d.hash)
    else None
  }

  /** Deleting a row sets the references to it to null. */
  function Unlinked(documents: map<Id, Document>, b: Id): map<Id, Document> {
    map d | d in documents :: if documents[d].blobId == Some(b) then documents[d].(blobId := None) else documents[d]
  }

  /** The count of row b goes down by one; at zero the row goes, and with it the file of the given hash. */
  function Lowered(s: Store, b: Id, hash: string): Store
    requires b in s.blobs
  {
    var count := s.blobs[b].refCount - 1;
    if count <= 0 then Store(s.blobs - {b}, Unlinked(s.documents, b), s.files - {hash})
    else s.(blobs := s.blobs[b := s.blobs[b].(refCount := count)])
  }

  ghost function Deleted(s: Store, user: Id, doc: Id): Result<Store, Error> {
    if doc !in s.documents || s.documents[doc].owner != user then Err(NotFound)
    else
      var d := s.documents[doc];
      var rest := s.(documents := s.documents - {doc});
      match Released(s, d)
      case Some(b) => Ok(Lowered(rest, b, d.hash))
      case None => Ok(rest)
  }

  ghost function Handle(s: Store, r: Request): Result<Store, Error> {
    match r
    case Upload(user, newDoc, newBlob, file) => Uploaded(s, user, newDoc, newBlob, file)
    case AttachPdf(user, doc, newBlob, file) => Attached(s, user, doc, newBlob, file)
    case Register(user, newDoc, hash) => Registered(s, user, newDoc, hash)
    case DeleteDocument(user, doc) => Deleted(s, user, doc)
  }

  ghost function Apply(s: Store, r: Request): Store {
    match Handle(s, r)
    case Ok(after) => after
    case Err(_) => s
  }

  ghost function Run(rs: seq<Request>): Store {
    if rs == [] then Store(map[], map[], {}) else Apply(Run(rs[..|rs| - 1]), rs[|rs| - 1])
  }

  // ---- The invariant ------------------------------------------------------------------------------

  ghost function PointingTo(documents: map<Id, Document>, b: Id): set<Id> {
    set d | d in documents && documents[d].blobId == Some(b)
  }

  ghost function Count(s: Store, b: Id): nat { |PointingTo(s.documents, b)| }

  ghost predicate UniqueHashes(blobs: map<Id, Blob>) {
    forall a, b :: a in blobs && b in blobs && blobs[a].hash == blobs[b].hash ==> a == b
  }

  ghost function HashesOf(blobs: map<Id, Blob>): set<string> {
    set b | b in blobs :: blobs[b].hash
  }

  lemma HashesAfterPut(blobs: map<Id, Blob>, b: Id, blob: Blob)
    requires b in blobs ==> blobs[b].hash == blob.hash
    ensures HashesOf(blobs[b := blob]) == HashesOf(blobs) + {blob.hash}
  {
    var after := blobs[b := blob];
    assert after[b].hash in HashesOf(after);
    forall h | h in HashesOf(blobs)
      ensures h in HashesOf(after)
    {
      var a :| a in blobs && blobs[a].hash == h;
      assert a in after && after[a].hash == h;
    }
  }

  lemma HashesAfterDrop(blobs: map<Id, Blob>, b: Id)
    requires UniqueHashes(blobs) && b in blobs
    ensures HashesOf(blobs - {b}) == HashesOf(blobs) - {blobs[b].hash}
  {
    var after := blobs - {b};
    forall h | h in HashesOf(blobs) && h != blobs[b].hash
      ensures h in HashesOf(after)
    {
      var a :| a in blobs && blobs[a].hash == h;
      assert a in after && after[a].hash == h;
    }
  }

  /** How many references row b counts beyond those it has. */
  ghost function Surplus(s: Store, b: Id): int
    requires b in s.blobs
  {
    s.blobs[b].refCount - Count(s, b)
  }

  /** Every document with a blob has its row and its file, and no row counts fewer references than it has. */
  ghost predicate Safe(s: Store) {
    && UniqueHashes(s.blobs)
    && (forall d :: d in s.documents && s.documents[d].blobId.Some? ==>
          s.documents[d].blobId.value in s.blobs && s.blobs[s.documents[d].blobId.value].hash == s.documents[d].hash)
    && (forall b :: b in s.blobs ==> s.blobs[b].refCount >= 1 && s.blobs[b].refCount >= Count(s, b))
    && s.files == HashesOf(s.blobs)
  }

  ghost predicate Exact(s: Store) {
    forall b :: b in s.blobs ==> s.blobs[b].refCount == Count(s, b)
  }

  /** The hash of a document without a blob is never the hash of a PDF, so it matches no row. */
  ghost predicate Separate(s: Store, isPdfHash: string -> bool) {
    && (forall b :: b in s.blobs ==> isPdfHash(s.blobs[b].hash))
    && (forall d :: d in s.documents && s.documents[d].blobId.None? ==> !isPdfHash(s.documents[d].hash))
  }

  predicate Honest(r: Request, isPdfHash: string -> bool) {
    match r
    case Upload(_, _, _, file) => file.Some? ==> isPdfHash(file.value)
    case AttachPdf(_, _, _, file) => file.Some? ==> isPdfHash(file.value)
    case Register(_, _, hash) => !isPdfHash(hash)
    case DeleteDocument(_, _) => true
  }

  lemma FindUnique(blobs: map<Id, Blob>, b: Id)
    requires UniqueHashes(blobs) && b in blobs
    ensures Find(blobs, blobs[b].hash) == Some(b)
  {
  }

  lemma CountAfterPut(documents: map<Id, Document>, d: Id, doc: Document, b: Id)
    ensures |PointingTo(documents[d := doc], b)| ==
            |PointingTo(documents, b)|
            - (if d in documents && documents[d].blobId == Some(b) then 1 else 0)
            + (if doc.blobId == Some(b) then 1 else 0)
  {
    var before, after := PointingTo(documents, b), PointingTo(documents[d := doc], b);
    if doc.blobId == Some(b) {
      assert after == before + {d};
    } else {
      assert after == before - {d};
    }
  }

  lemma CountAfterDrop(documents: map<Id, Document>, d: Id, b: Id)
    requires d in documents
    ensures |PointingTo(documents - {d}, b)| ==
            |PointingTo(documents, b)| - if documents[d].blobId == Some(b) then 1 else 0
  {
    assert PointingTo(documents - {d}, b) == PointingTo(documents, b) - {d};
  }

  // ---- Uploading and attaching ----------------------------------------------------------------------

  /** Both calls point a document at the row of the file's hash, after one more reference to that row. */
  ghost function Pointed(s: Store, d: Id, user: Id, newBlob: Id, hash: string): Store {
    var found := Find(s.blobs, hash);
    Store(Referenced(s.blobs, found, newBlob, hash),
          s.documents[d := Document(user, Some(if found.Some? then found.value else newBlob), hash)],
          s.files + {hash})
  }

  ghost predicate PointsTo(documents: map<Id, Document>, d: Id, b: Id) {
    d in documents && documents[d].blobId == Some(b)
  }

  /** Only the row that the document pointed to before gains a surplus. */
  lemma PointedSurplus(s: Store, d: Id, user: Id, newBlob: Id, hash: string, b: Id)
    requires Safe(s) && (Find(s.blobs, hash).None? ==> newBlob !in s.blobs)
    requires b in Pointed(s, d, user, newBlob, hash).blobs
    ensures Surplus(Pointed(s, d, user, newBlob, hash), b) ==
            (if b in s.blobs then Surplus(s, b) else 0) + if PointsTo(s.documents, d, b) then 1 else 0
  {
    var t := Pointed(s, d, user, newBlob, hash);
    CountAfterPut(s.documents, d, t.documents[d], b);
    if b !in s.blobs {
      NobodyPointsOutside(s, b);
    }
  }

  lemma NobodyPointsOutside(s: Store, b: Id)
    requires Safe(s) && b !in s.blobs
    ensures PointingTo(s.documents, b) == {}
  {
    forall d | d in s.documents
      ensures s.documents[d].blobId != Some(b)
    {
    }
  }

  lemma PointedIsSafe(s: Store, d: Id, user: Id, newBlob: Id, hash: string)
    requires Safe(s) && (Find(s.blobs, hash).None? ==> newBlob !in s.blobs)
    ensures Safe(Pointed(s, d, user, newBlob, hash))
  {
    var t := Pointed(s, d, user, newBlob, hash);
    var target := t.documents[d].blobId.value;
    assert t.blobs == s.blobs[target := t.blobs[target]] && t.blobs[target].hash == hash;
    HashesAfterPut(s.blobs, target, t.blobs[target]);
    forall b | b in t.blobs
      ensures t.blobs[b].refCount >= 1 && t.blobs[b].refCount >= Count(t, b)
    {
      PointedSurplus(s, d, user, newBlob, hash, b);
      assert b in s.blobs ==> Surplus(s, b) >= 0;
    }
  }

  /** Pointing a document at a row keeps the counts exact unless the document already had a row. */
  lemma PointedIsExactIff(s: Store, d: Id, user: Id, newBlob: Id, hash: string)
    requires Safe(s) && (Find(s.blobs, hash).None? ==> newBlob !in s.blobs)
    ensures Exact(Pointed(s, d, user, newBlob, hash)) <==>
            Exact(s) && (d in s.documents ==> s.documents[d].blobId.None?)
  {
    var t := Pointed(s, d, user, newBlob, hash);
    if Exact(t) {
      forall b | b in s.blobs
        ensures s.blobs[b].refCount == Count(s, b) && !PointsTo(s.documents, d, b)
      {
        PointedSurplus(s, d, user, newBlob, hash, b);
      }
      assert d in s.documents && s.documents[d].blobId.Some? ==> PointsTo(s.documents, d, s.documents[d].blobId.value);
    }
    if Exact(s) && (d in s.documents ==> s.documents[d].blobId.None?) {
      forall b | b in t.blobs
        ensures t.blobs[b].refCount == Count(t, b)
      {
        PointedSurplus(s, d, user, newBlob, hash, b);
      }
    }
  }

  lemma CallsPoint(s: Store, r: Request)
    requires Safe(s) && Handle(s, r).Ok? && (r.Upload? || r.AttachPdf?)
    ensures Apply(s, r) ==
            Pointed(s, if r.Upload? then r.newDoc else r.doc, r.user, r.newBlob, r.file.value)
    ensures Find(s.blobs, r.file.value).None? ==> r.newBlob !in s.blobs
  {
    if Find(s.blobs, r.file.value).Some? {
      assert s.files + {r.file.value} == s.files;
    }
  }

  // ---- Deleting -----------------------------------------------------------------------------------

  /** Lowering a row that counts more references than are left keeps the store safe and touches no other document. */
  lemma LoweredIsSafe(s: Store, b: Id)
    requires Safe(s) && b in s.blobs && s.blobs[b].refCount > Count(s, b)
    ensures Safe(Lowered(s, b, s.blobs[b].hash))
    ensures Lowered(s, b, s.blobs[b].hash).documents == s.documents
    ensures Exact(Lowered(s, b, s.blobs[b].hash)) <==>
            (forall a :: a in s.blobs && a != b ==> s.blobs[a].refCount == Count(s, a)) &&
            s.blobs[b].refCount - 1 == Count(s, b)
  {
    var t := Lowered(s, b, s.blobs[b].hash);
    if s.blobs[b].refCount - 1 <= 0 {
      assert PointingTo(s.documents, b) == {};
      forall d | d in s.documents
        ensures s.documents[d].blobId != Some(b)
      {
        assert d !in PointingTo(s.documents, b);
      }
      assert t.documents == s.documents;
      HashesAfterDrop(s.blobs, b);
    } else {
      HashesAfterPut(s.blobs, b, t.blobs[b]);
      assert s.blobs[b].hash in HashesOf(s.blobs);
    }
    assert forall a :: a in t.blobs ==> Count(t, a) == Count(s, a);
    assert forall a :: a in t.blobs ==> a in s.blobs && (a != b ==> t.blobs[a] == s.blobs[a]);
    assert forall a :: a in s.blobs && a != b ==> a in t.blobs;
  }

  lemma DroppedIsSafe(s: Store, doc: Id)
    requires Safe(s) && doc in s.documents
    ensures var rest := s.(documents := s.documents - {doc});
            && Safe(rest)
            && forall b :: Count(rest, b) == Count(s, b) - if s.documents[doc].blobId == Some(b) then 1 else 0
  {
    var rest := s.(documents := s.documents - {doc});
    forall b
      ensures Count(rest, b) == Count(s, b) - if s.documents[doc].blobId == Some(b) then 1 else 0
    {
      CountAfterDrop(s.documents, doc, b);
    }
  }

  /** Deleting a document that has a row: every other document keeps its row and its file. */
  lemma DeleteWithBlob(s: Store, user: Id, doc: Id)
    requires Safe(s) && Deleted(s, user, doc).Ok? && s.documents[doc].blobId.Some?
    ensures var t := Deleted(s, user, doc).value;
            && Safe(t) && t.documents == s.documents - {doc} && (Exact(t) <==> Exact(s))
  {
    var rest, b := s.(documents := s.documents - {doc}), s.documents[doc].blobId.value;
    DroppedIsSafe(s, doc);
    LoweredIsSafe(rest, b);
    assert forall a :: a in s.blobs ==> Count(rest, a) == Count(s, a) - if a == b then 1 else 0;
  }

  /** Deleting a document whose hash matches no row and that has none changes no row. */
  lemma DeleteWithoutBlob(s: Store, user: Id, doc: Id)
    requires Safe(s) && Deleted(s, user, doc).Ok? && s.documents[doc].blobId.None?
    requires forall b :: b in s.blobs ==> s.blobs[b].hash != s.documents[doc].hash
    ensures var t := Deleted(s, user, doc).value;
            && Safe(t) && t.documents == s.documents - {doc} && t.blobs == s.blobs && (Exact(t) <==> Exact(s))
  {
    DroppedIsSafe(s, doc);
    var t := Deleted(s, user, doc).value;
    assert forall b :: Count(t, b) == Count(s, b);
  }

  /**
   A document without a row whose hash matches a row lowers a count that never included it. The
   deletion stays harmless exactly when that row counts more references than it has.
  */
  lemma MatchingDeleteIsSafeIff(s: Store, user: Id, doc: Id, b: Id)
    requires Safe(s) && Deleted(s, user, doc).Ok? && s.documents[doc].blobId.None? && s.documents[doc].hash != ""
    requires b in s.blobs && s.blobs[b].hash == s.documents[doc].hash
    ensures var t := Deleted(s, user, doc).value;
            Safe(t) && t.documents == s.documents - {doc} <==> s.blobs[b].refCount > Count(s, b)
  {
    var rest, t := s.(documents := s.documents - {doc}), Deleted(s, user, doc).value;
    FindUnique(s.blobs, b);
    DroppedIsSafe(s, doc);
    assert Count(rest, b) == Count(s, b);
    if s.blobs[b].refCount > Count(s, b) {
      LoweredIsSafe(rest, b);
    } else if s.blobs[b].refCount - 1 <= 0 {
      assert Count(rest, b) == 1;
      var d := AMember(PointingTo(rest.documents, b));
      assert t.documents[d].blobId == None;
    } else {
      assert t.documents == rest.documents;
      assert t.blobs[b].refCount < Count(t, b);
    }
  }

  // ---- What each request does ---------------------------------------------------------------------

  /** Some row has this hash. */
  ghost predicate Stored(s: Store, hash: string) { exists b :: b in s.blobs && s.blobs[b].hash == hash }

  /**
   Row b of the new store is the one with the hash: the old one with one more reference, or a new one
   with its first. Every other row stands.
  */
  ghost predicate OneMoreReference(s: Store, t: Store, b: Id, newBlob: Id, hash: string) {
    && b in t.blobs && t.blobs[b].hash == hash
    && (if Stored(s, hash) then
          b in s.blobs && s.blobs[b].hash == hash && t.blobs.Keys == s.blobs.Keys &&
          t.blobs[b].refCount == s.blobs[b].refCount + 1
        else b == newBlob && t.blobs.Keys == s.blobs.Keys + {newBlob} && t.blobs[b].refCount == 1)
    && (forall a :: a in s.blobs && a != b ==> t.blobs[a] == s.blobs[a])
    && t.files == s.files + {hash}
  }

  /** A shared upload is never refused: it fails only for a bad file or a key in use. */
  lemma UploadAcceptedIff(s: Store, user: Id, newDoc: Id, newBlob: Id, file: Option<string>)
    requires Safe(s)
    ensures Handle(s, Upload(user, newDoc, newBlob, file)).Ok? <==>
            file.Some? && newDoc !in s.documents && (newBlob !in s.blobs || Stored(s, file.value))
  {
  }

  /** The new document has the user, the hash, and the row of the hash; no other document is touched. */
  lemma UploadEffect(s: Store, user: Id, newDoc: Id, newBlob: Id, hash: string)
    requires Safe(s) && newDoc !in s.documents && (newBlob !in s.blobs || Stored(s, hash))
    ensures var t := Apply(s, Upload(user, newDoc, newBlob, Some(hash)));
            && t.documents.Keys == s.documents.Keys + {newDoc}
            && t.documents[newDoc].owner == user && t.documents[newDoc].hash == hash
            && t.documents[newDoc].blobId.Some?
            && OneMoreReference(s, t, t.documents[newDoc].blobId.value, newBlob, hash)
            && forall d :: d in s.documents ==> t.documents[d] == s.documents[d]
  {
  }

  lemma AttachAcceptedIff(s: Store, user: Id, doc: Id, newBlob: Id, file: Option<string>)
    requires Safe(s)
    ensures Handle(s, AttachPdf(user, doc, newBlob, file)).Ok? <==>
            && doc in s.documents && s.documents[doc].owner == user
            && file.Some? && (newBlob !in s.blobs || Stored(s, file.value))
  {
  }

  /** The document keeps its owner and changes to the hash of the file and its row; no other document is touched. */
  lemma AttachEffect(s: Store, user: Id, doc: Id, newBlob: Id, hash: string)
    requires Safe(s) && doc in s.documents && s.documents[doc].owner == user && (newBlob !in s.blobs || Stored(s, hash))
    ensures var t := Apply(s, AttachPdf(user, doc, newBlob, Some(hash)));
            && t.documents.Keys == s.documents.Keys
            && t.documents[doc].owner == user && t.documents[doc].hash == hash && t.documents[doc].blobId.Some?
            && OneMoreReference(s, t, t.documents[doc].blobId.value, newBlob, hash)
            && forall d :: d in s.documents && d != doc ==> t.documents[d] == s.documents[d]
  {
    var t := Apply(s, AttachPdf(user, doc, newBlob, Some(hash)));
    CallsPoint(s, AttachPdf(user, doc, newBlob, Some(hash)));
    assert t.documents.Keys == s.documents.Keys;
  }

  lemma RegisterEffect(s: Store, user: Id, newDoc: Id, hash: string)
    ensures Handle(s, Register(user, newDoc, hash)).Ok? <==> newDoc !in s.documents
    ensures newDoc !in s.documents ==>
              var t := Apply(s, Register(user, newDoc, hash));
              && t.documents == s.documents[newDoc := Document(user, None, hash)]
              && t.blobs == s.blobs && t.files == s.files
  {
  }

  /**
   A deletion is carried out exactly for the user's own document. With a row of its own, that row
   counts one less; with its last reference the row and the file of its hash go. Nothing else changes.
  */
  lemma DeleteEffect(s: Store, user: Id, doc: Id)
    requires Safe(s)
    ensures Handle(s, DeleteDocument(user, doc)).Ok? <==> doc in s.documents && s.documents[doc].owner == user
    ensures doc in s.documents && s.documents[doc].owner == user && s.documents[doc].blobId.Some? ==>
              var t, b := Apply(s, DeleteDocument(user, doc)), s.documents[doc].blobId.value;
              && b in s.blobs && t.documents == s.documents - {doc}
              && (forall a :: a in s.blobs && a != b ==> a in t.blobs && t.blobs[a] == s.blobs[a])
              && if s.blobs[b].refCount == 1 then
                   t.blobs.Keys == s.blobs.Keys - {b} && t.files == s.files - {s.blobs[b].hash}
                 else
                   && t.blobs.Keys == s.blobs.Keys && t.files == s.files
                   && t.blobs[b] == s.blobs[b].(refCount := s.blobs[b].refCount - 1)
  {
    if doc in s.documents && s.documents[doc].owner == user && s.documents[doc].blobId.Some? {
      DeleteWithBlob(s, user, doc);
    }
  }

  // ---- The references in one number ---------------------------------------------------------------

  /** The sum of all counts. */
  ghost function Total(blobs: map<Id, Blob>): int
    decreases blobs.Keys
  {
    if exists b :: b in blobs then
      var b :| b in blobs;
      blobs[b].refCount + Total(blobs - {b})
    else 0
  }

  lemma {:induction false} TotalWithout(blobs: map<Id, Blob>, b: Id)
    requires b in blobs
    ensures Total(blobs) == blobs[b].refCount + Total(blobs - {b})
    decreases blobs.Keys
  {
    var a :| a in blobs && Total(blobs) == blobs[a].refCount + Total(blobs - {a});
    if a != b {
      TotalWithout(blobs - {a}, b);
      TotalWithout(blobs - {b}, a);
      assert blobs - {a} - {b} == blobs - {b} - {a};
    }
  }

  lemma TotalAfterPut(blobs: map<Id, Blob>, b: Id, blob: Blob)
    ensures Total(blobs[b := blob]) == Total(blobs) + blob.refCount - if b in blobs then blobs[b].refCount else 0
  {
    TotalWithout(blobs[b := blob], b);
    assert blobs[b := blob] - {b} == blobs - {b};
    if b in blobs {
      TotalWithout(blobs, b);
    } else {
      assert blobs - {b} == blobs;
    }
  }

  /** The documents pointing to one of the rows. */
  ghost function Holders(documents: map<Id, Document>, rows: set<Id>): set<Id> {
    set d | d in documents && documents[d].blobId.Some? && documents[d].blobId.value in rows
  }

  /** The references counted beyond those that exist, over all rows. */
  ghost function Owed(s: Store): int {
    Total(s.blobs) - |Holders(s.documents, s.blobs.Keys)|
  }

  ghost function WithRow(documents: map<Id, Document>): set<Id> {
    set d | d in documents && documents[d].blobId.Some?
  }

  lemma SafeHolders(s: Store)
    requires Safe(s)
    ensures Holders(s.documents, s.blobs.Keys) == WithRow(s.documents)
  {
    forall d | d in s.documents && s.documents[d].blobId.Some?
      ensures s.documents[d].blobId.value in s.blobs.Keys
    {
    }
  }

  lemma HoldersWithout(documents: map<Id, Document>, rows: set<Id>, b: Id)
    requires b in rows
    ensures |Holders(documents, rows)| == |Holders(documents, rows - {b})| + |PointingTo(documents, b)|
  {
    assert Holders(documents, rows) == Holders(documents, rows - {b}) + PointingTo(documents, b);
    assert Holders(documents, rows - {b}) !! PointingTo(documents, b);
  }

  lemma {:induction false} TotalCoversHolders(documents: map<Id, Document>, blobs: map<Id, Blob>)
    requires forall b :: b in blobs ==> blobs[b].refCount >= |PointingTo(documents, b)|
    ensures Total(blobs) >= |Holders(documents, blobs.Keys)|
    ensures Total(blobs) == |Holders(documents, blobs.Keys)| <==>
            forall b :: b in blobs ==> blobs[b].refCount == |PointingTo(documents, b)|
    decreases blobs.Keys
  {
    if blobs == map[] {
      assert Holders(documents, {}) == {};
    } else {
      assert blobs.Keys != {};
      var b := AMember(blobs.Keys);
      var rest := blobs - {b};
      TotalWithout(blobs, b);
      HoldersWithout(documents, blobs.Keys, b);
      assert rest.Keys == blobs.Keys - {b};
      TotalCoversHolders(documents, rest);
      assert forall a :: a in rest ==> rest[a] == blobs[a];
      assert forall a :: a in blobs ==> a == b || a in rest;
    }
  }

  lemma ExactIffNothingOwed(s: Store)
    requires Safe(s)
    ensures Owed(s) >= 0
    ensures Exact(s) <==> Owed(s) == 0
  {
    forall b | b in s.blobs
      ensures s.blobs[b].refCount >= |PointingTo(s.documents, b)|
    {
      assert Count(s, b) == |PointingTo(s.documents, b)|;
    }
    TotalCoversHolders(s.documents, s.blobs);
    assert forall b :: Count(s, b) == |PointingTo(s.documents, b)|;
  }

  // ---- One request ----------------------------------------------------------------------------------

  /** The request re-points a document that already has a row, whose old reference is then not given back. */
  predicate Leaks(s: Store, r: Request) {
    && r.AttachPdf? && r.file.Some?
    && r.doc in s.documents && s.documents[r.doc].owner == r.user && s.documents[r.doc].blobId.Some?
  }

  /** The request deletes a document without a row whose hash is that of some row. */
  ghost predicate Matches(s: Store, r: Request) {
    && r.DeleteDocument?
    && r.doc in s.documents && s.documents[r.doc].owner == r.user && s.documents[r.doc].blobId.None?
    && s.documents[r.doc].hash != "" && Find(s.blobs, s.documents[r.doc].hash).Some?
  }

  /** And that row has no reference to spare. */
  ghost predicate Robs(s: Store, r: Request) {
    Matches(s, r) &&
    var b := Find(s.blobs, s.documents[r.doc].hash).value;
    s.blobs[b].refCount <= Count(s, b)
  }

  function Subject(r: Request): Id {
    match r
    case Upload(_, newDoc, _, _) => newDoc
    case AttachPdf(_, doc, _, _) => doc
    case Register(_, newDoc, _) => newDoc
    case DeleteDocument(_, doc) => doc
  }

  /** No document but the request's own is changed. */
  ghost predicate OthersStand(s: Store, r: Request) {
    forall d :: d in s.documents && d != Subject(r) ==>
      d in Apply(s, r).documents && Apply(s, r).documents[d] == s.documents[d]
  }

  lemma DeletedCases(s: Store, r: Request)
    requires Safe(s) && r.DeleteDocument? && Handle(s, r).Ok? && !Robs(s, r)
    ensures Safe(Apply(s, r)) && Apply(s, r).documents == s.documents - {r.doc}
  {
    if s.documents[r.doc].blobId.Some? {
      DeleteWithBlob(s, r.user, r.doc);
    } else if Matches(s, r) {
      MatchingDeleteIsSafeIff(s, r.user, r.doc, Find(s.blobs, s.documents[r.doc].hash).value);
    } else if s.documents[r.doc].hash != "" {
      DeleteWithoutBlob(s, r.user, r.doc);
    } else {
      DroppedIsSafe(s, r.doc);
    }
  }

  /** A request is harmless, to the store and to every other document, unless it robs a row. */
  lemma StepIsHarmlessIff(s: Store, r: Request)
    requires Safe(s)
    ensures Safe(Apply(s, r)) && OthersStand(s, r) <==> !Robs(s, r)
  {
    if Robs(s, r) {
      var b := Find(s.blobs, s.documents[r.doc].hash).value;
      var t := Apply(s, r);
      MatchingDeleteIsSafeIff(s, r.user, r.doc, b);
      assert t == Deleted(s, r.user, r.doc).value && t.documents.Keys == s.documents.Keys - {r.doc};
      if OthersStand(s, r) {
        forall d | d in t.documents
          ensures t.documents[d] == s.documents[d]
        {
          assert d in s.documents && d != Subject(r);
        }
        assert t.documents == s.documents - {r.doc};
      }
    } else if Handle(s, r).Ok? {
      match r
      case Upload(user, newDoc, newBlob, file) =>
        CallsPoint(s, r);
        PointedIsSafe(s, newDoc, user, newBlob, file.value);
      case AttachPdf(user, doc, newBlob, file) =>
        CallsPoint(s, r);
        PointedIsSafe(s, doc, user, newBlob, file.value);
      case Register(user, newDoc, hash) => RegisterKeeps(s, user, newDoc, hash);
      case DeleteDocument(user, doc) => DeletedCases(s, r);
    }
  }

  lemma RegisterKeeps(s: Store, user: Id, newDoc: Id, hash: string)
    requires Safe(s) && newDoc !in s.documents
    ensures var t := Registered(s, user, newDoc, hash).value;
            Safe(t) && Owed(t) == Owed(s)
  {
    var t := Registered(s, user, newDoc, hash).value;
    forall b
      ensures Count(t, b) == Count(s, b)
    {
      CountAfterPut(s.documents, newDoc, Document(user, None, hash), b);
    }
    assert Holders(t.documents, t.blobs.Keys) == Holders(s.documents, s.blobs.Keys);
  }

  lemma PointedOwes(s: Store, d: Id, user: Id, newBlob: Id, hash: string)
    requires Safe(s) && (Find(s.blobs, hash).None? ==> newBlob !in s.blobs)
    ensures Owed(Pointed(s, d, user, newBlob, hash)) ==
            Owed(s) + if d in s.documents && s.documents[d].blobId.Some? then 1 else 0
  {
    var t := Pointed(s, d, user, newBlob, hash);
    var target := t.documents[d].blobId.value;
    assert t.blobs == s.blobs[target := t.blobs[target]];
    TotalAfterPut(s.blobs, target, t.blobs[target]);
    assert Total(t.blobs) == Total(s.blobs) + 1;
    PointedIsSafe(s, d, user, newBlob, hash);
    SafeHolders(s);
    SafeHolders(t);
    WithOneMoreRow(s.documents, d, t.documents[d]);
  }

  lemma WithOneMoreRow(documents: map<Id, Document>, d: Id, doc: Document)
    requires doc.blobId.Some?
    ensures |WithRow(documents[d := doc])| ==
            |WithRow(documents)| + if d in documents && documents[d].blobId.Some? then 0 else 1
  {
    assert WithRow(documents[d := doc]) == WithRow(documents) + {d};
    if d in WithRow(documents) {
      assert WithRow(documents) + {d} == WithRow(documents);
    } else {
      assert |WithRow(documents) + {d}| == |WithRow(documents)| + 1;
    }
  }

  lemma LoweredOwes(s: Store, b: Id, hash: string)
    requires b in s.blobs && s.blobs[b].refCount >= 1
    ensures Total(Lowered(s, b, hash).blobs) == Total(s.blobs) - 1
  {
    TotalWithout(s.blobs, b);
    TotalAfterPut(s.blobs, b, s.blobs[b].(refCount := s.blobs[b].refCount - 1));
  }

  lemma DeletedOwes(s: Store, r: Request)
    requires Safe(s) && r.DeleteDocument? && Handle(s, r).Ok? && !Robs(s, r)
    ensures Owed(Apply(s, r)) == Owed(s) - if Matches(s, r) then 1 else 0
  {
    var t, rest := Apply(s, r), s.(documents := s.documents - {r.doc});
    var d := s.documents[r.doc];
    DeletedCases(s, r);
    SafeHolders(s);
    SafeHolders(t);
    assert WithRow(t.documents) == WithRow(s.documents) - {r.doc};
    if Released(s, d).Some? {
      LoweredOwes(rest, Released(s, d).value, d.hash);
    }
  }

  /** The books: a re-attachment adds one reference too many, a matching deletion takes one away. */
  lemma OwedChanges(s: Store, r: Request)
    requires Safe(s) && !Robs(s, r)
    ensures Owed(Apply(s, r)) ==
            Owed(s) + (if Handle(s, r).Ok? && Leaks(s, r) then 1 else 0) - if Matches(s, r) then 1 else 0
  {
    if Handle(s, r).Ok? {
      match r
      case Upload(user, newDoc, newBlob, file) =>
        CallsPoint(s, r);
        PointedOwes(s, newDoc, user, newBlob, file.value);
      case AttachPdf(user, doc, newBlob, file) =>
        CallsPoint(s, r);
        PointedOwes(s, doc, user, newBlob, file.value);
      case Register(user, newDoc, hash) => RegisterKeeps(s, user, newDoc, hash);
      case DeleteDocument(user, doc) => DeletedOwes(s, r);
    }
  }

  // ---- Whole runs ---------------------------------------------------------------------------------

  ghost predicate SomeRequestRobs(rs: seq<Request>) {
    rs != [] && (SomeRequestRobs(rs[..|rs| - 1]) || Robs(Run(rs[..|rs| - 1]), rs[|rs| - 1]))
  }

  /** At every point of the run the store is safe, and no request has touched a document other than its own. */
  ghost predicate Harmless(rs: seq<Request>) {
    Safe(Run(rs)) && (rs == [] || (Harmless(rs[..|rs| - 1]) && OthersStand(Run(rs[..|rs| - 1]), rs[|rs| - 1])))
  }

  /** How many re-attachments a run has carried out, and how many matching deletions. */
  ghost function Leaked(rs: seq<Request>): nat {
    if rs == [] then 0
    else
      var s, r := Run(rs[..|rs| - 1]), rs[|rs| - 1];
      Leaked(rs[..|rs| - 1]) + if Handle(s, r).Ok? && Leaks(s, r) then 1 else 0
  }

  ghost function Returned(rs: seq<Request>): nat {
    if rs == [] then 0
    else Returned(rs[..|rs| - 1]) + if Matches(Run(rs[..|rs| - 1]), rs[|rs| - 1]) then 1 else 0
  }

  /** A run is harmless exactly if no deletion of a document without a row meets a row without a reference to spare. */
  lemma {:induction false} HarmlessIffNobodyRobbed(rs: seq<Request>)
    ensures Harmless(rs) <==> !SomeRequestRobs(rs)
  {
    if rs != [] {
      HarmlessIffNobodyRobbed(rs[..|rs| - 1]);
      if Harmless(rs[..|rs| - 1]) {
        StepIsHarmlessIff(Run(rs[..|rs| - 1]), rs[|rs| - 1]);
      }
    }
  }

  lemma {:induction false} RunOwes(rs: seq<Request>)
    requires !SomeRequestRobs(rs)
    ensures Safe(Run(rs)) && Owed(Run(rs)) == Leaked(rs) - Returned(rs)
  {
    if rs == [] {
      assert Holders(Run(rs).documents, Run(rs).blobs.Keys) == {};
    } else {
      RunOwes(rs[..|rs| - 1]);
      StepIsHarmlessIff(Run(rs[..|rs| - 1]), rs[|rs| - 1]);
      OwedChanges(Run(rs[..|rs| - 1]), rs[|rs| - 1]);
    }
  }

  /**
   Over every run by any users in which no row is robbed: no count falls below the number of
   documents pointing to its row, every document with a row has its file, the counts exceed the
   references by exactly the re-attachments less the matching deletions, and so they are exact if
   and only if those balance.
  */
  lemma EveryRunIsSafe(rs: seq<Request>)
    requires !SomeRequestRobs(rs)
    ensures Safe(Run(rs))
    ensures forall d :: d in Run(rs).documents && Run(rs).documents[d].blobId.Some? ==>
              Run(rs).documents[d].blobId.value in Run(rs).blobs && Run(rs).documents[d].hash in Run(rs).files
    ensures Total(Run(rs).blobs) == |Holders(Run(rs).documents, Run(rs).blobs.Keys)| + Leaked(rs) - Returned(rs)
    ensures Exact(Run(rs)) <==> Leaked(rs) == Returned(rs)
  {
    RunOwes(rs);
    ExactIffNothingOwed(Run(rs));
    FilesStand(Run(rs));
  }

  lemma FilesStand(s: Store)
    requires Safe(s)
    ensures forall d :: d in s.documents && s.documents[d].blobId.Some? ==>
              s.documents[d].blobId.value in s.blobs && s.documents[d].hash in s.files
  {
    forall d | d in s.documents && s.documents[d].blobId.Some?
      ensures s.documents[d].hash in s.files
    {
      var b := s.documents[d].blobId.value;
      assert b in s.blobs && s.blobs[b].hash in HashesOf(s.blobs);
    }
  }

  /** When the last document is gone, rows and files are gone exactly if the books balance. */
  lemma EmptyLibraryIsEmptyIff(rs: seq<Request>)
    requires !SomeRequestRobs(rs) && Run(rs).documents == map[]
    ensures Run(rs).blobs == map[] && Run(rs).files == {} <==> Leaked(rs) == Returned(rs)
  {
    EveryRunIsSafe(rs);
    EmptyIffExact(Run(rs));
  }

  lemma {:induction false} HonestRunIsSeparate(rs: seq<Request>, isPdfHash: string -> bool)
    requires forall i :: 0 <= i < |rs| ==> Honest(rs[i], isPdfHash)
    ensures Separate(Run(rs), isPdfHash) && !SomeRequestRobs(rs) && Returned(rs) == 0
  {
    if rs != [] {
      var s, r := Run(rs[..|rs| - 1]), rs[|rs| - 1];
      HonestRunIsSeparate(rs[..|rs| - 1], isPdfHash);
      RunOwes(rs[..|rs| - 1]);
      assert !Matches(s, r);
      StepKeepsSeparate(s, r, isPdfHash);
    }
  }

  lemma StepKeepsSeparate(s: Store, r: Request, isPdfHash: string -> bool)
    requires Safe(s) && Separate(s, isPdfHash) && Honest(r, isPdfHash) && !Matches(s, r)
    ensures Separate(Apply(s, r), isPdfHash)
  {
    if Handle(s, r).Ok? {
      match r
      case Upload(_, _, _, _) => CallsPoint(s, r);
      case AttachPdf(_, _, _, _) => CallsPoint(s, r);
      case Register(_, _, _) =>
      case DeleteDocument(_, _) => DeletedCases(s, r);
    }
  }

  /**
   In particular, when documents without a row never carry the hash of a PDF, every run is harmless
   and the counts are exact if and only if no PDF was attached to a document that already had one.
  */
  lemma HonestRunIsSafe(rs: seq<Request>, isPdfHash: string -> bool)
    requires forall i :: 0 <= i < |rs| ==> Honest(rs[i], isPdfHash)
    ensures Harmless(rs)
    ensures Exact(Run(rs)) <==> Leaked(rs) == 0
  {
    HonestRunIsSeparate(rs, isPdfHash);
    HarmlessIffNobodyRobbed(rs);
    EveryRunIsSafe(rs);
  }

  // ---- Both happen ------------------------------------------------------------------------------------

  lemma OneMoreRequest(rs: seq<Request>, r: Request)
    ensures Run(rs + [r]) == Apply(Run(rs), r)
    ensures Leaked(rs + [r]) == Leaked(rs) + if Handle(Run(rs), r).Ok? && Leaks(Run(rs), r) then 1 else 0
    ensures Returned(rs + [r]) == Returned(rs) + if Matches(Run(rs), r) then 1 else 0
    ensures SomeRequestRobs(rs + [r]) <==> SomeRequestRobs(rs) || Robs(Run(rs), r)
  {
    assert (rs + [r])[..|rs|] == rs;
  }

  /** A document is uploaded, given another PDF, and deleted: no document is left, but a row or a file is. */
  lemma ReattachingLeaves(user: Id, first: string, second: string)
    ensures var rs := [Upload(user, 1, 7, Some(first)), AttachPdf(user, 1, 8, Some(second)), DeleteDocument(user, 1)];
            && Run(rs).documents == map[] && Leaked(rs) == 1
            && !(Run(rs).blobs == map[] && Run(rs).files == {})
  {
    var upload, attach, delete := Upload(user, 1, 7, Some(first)), AttachPdf(user, 1, 8, Some(second)),
        DeleteDocument(user, 1);
    OneMoreRequest([], upload);
    OneMoreRequest([upload], attach);
    OneMoreRequest([upload, attach], delete);
    assert [] + [upload] == [upload] && [upload] + [attach] == [upload, attach];
    assert [upload, attach] + [delete] == [upload, attach, delete];
    UploadedAlone(user, first);
    ReattachedAlone(Run([upload]), user, first, second);
    var s := Run([upload, attach]);
    assert !Matches(s, delete);
    RunOwes([upload, attach]);
    DeletedCases(s, delete);
    EmptyLibraryIsEmptyIff([upload, attach, delete]);
  }

  lemma UploadedAlone(user: Id, hash: string)
    ensures var s := Store(map[], map[], {});
            Apply(s, Upload(user, 1, 7, Some(hash))) ==
                Store(map[7 := Blob(hash, 1)], map[1 := Document(user, Some(7), hash)], {hash})
  {
  }

  lemma ReattachedAlone(s: Store, user: Id, first: string, second: string)
    requires s == Store(map[7 := Blob(first, 1)], map[1 := Document(user, Some(7), first)], {first})
    ensures var r := AttachPdf(user, 1, 8, Some(second));
            && Handle(s, r).Ok? && Leaks(s, r)
            && Apply(s, r).documents.Keys == {1} && Apply(s, r).documents[1].owner == user
                && Apply(s, r).documents[1].blobId.Some?
  {
  }

  /** Somebody's metadata carries the hash of a PDF that somebody else uploads; deleting it takes the PDF away. */
  lemma BloblessDeleteRobs(somebody: Id, owner: Id, hash: string)
    requires hash != ""
    ensures var rs := [Register(somebody, 1, hash), Upload(owner, 2, 7, Some(hash))];
            var r := DeleteDocument(somebody, 1);
            && 2 in Run(rs).documents && Run(rs).documents[2].blobId == Some(7) && hash in Run(rs).files
            && 2 in Run(rs + [r]).documents && Run(rs + [r]).documents[2].blobId == None && hash !in Run(rs + [r]).files
  {
    var register, upload, r := Register(somebody, 1, hash), Upload(owner, 2, 7, Some(hash)),
        DeleteDocument(somebody, 1);
    OneMoreRequest([], register);
    OneMoreRequest([register], upload);
    OneMoreRequest([register, upload], r);
    assert [] + [register] == [register] && [register] + [upload] == [register, upload];
    var s := Run([register, upload]);
    assert s == Store(map[7 := Blob(hash, 1)],
                      map[1 := Document(somebody, None, hash), 2 := Document(owner, Some(7), hash)], {hash});
    assert s.blobs[7].hash == hash;
    FindUnique(s.blobs, 7);
  }

  lemma EmptyIffExact(s: Store)
    requires Safe(s) && s.documents == map[]
    ensures s.blobs == map[] && s.files == {} <==> Exact(s)
  {
    forall b | b in s.blobs
      ensures s.blobs[b].refCount > Count(s, b)
    {
      assert PointingTo(s.documents, b) == {};
    }
    if Exact(s) {
      assert forall b :: b !in s.blobs;
      assert s.blobs == map[];
    }
  }

  // ---- The service --------------------------------------------------------------------------------

  class DocumentService {
    var blobs: map<Id, Blob>
    var documents: map<Id, Document>
    var files: set<string>

    constructor ()
      ensures Tables() == Run([])
    {
      blobs, documents, files := map[], map[], {};
    }

    function Tables(): Store
      reads this
    {
      Store(blobs, documents, files)
    }

    method LookUp(hash: string) returns (found: Option<Id>)
      requires UniqueHashes(blobs)
      ensures found == Find(blobs, hash)
    {
      if b :| b in blobs && blobs[b].hash == hash {
        FindUnique(blobs, b);
        return Some(b);
      }
      return None;
    }

    method UploadDocument(user: Id, newDoc: Id, newBlob: Id, file: Option<string>) returns (e: Option<Error>)
      requires UniqueHashes(blobs)
      modifies this
      ensures Tables() == Apply(old(Tables()), Upload(user, newDoc, newBlob, file))
      ensures e.None? <==> Handle(old(Tables()), Upload(user, newDoc, newBlob, file)).Ok?
    {
      if file.None? {
        return Some(BadFile);
      }
      var hash := file.value;
      var blob := LookUp(hash);
      if newDoc in documents || (blob.None? && newBlob in blobs) {
        return Some(KeyTaken);
      }
      var b := newBlob;
      if blob.Some? {
        b := blob.value;
        blobs := blobs[b := blobs[b].(refCount := blobs[b].refCount + 1)];
        if hash !in files {
          files := files + {hash};
        }
      } else {
        files := files + {hash};
        blobs := blobs[b := Blob(hash, 1)];
      }
      documents := documents[newDoc := Document(user, Some(b), hash)];
      assert files == old(files) + {hash};
      return None;
    }

    method AttachPdf(user: Id, doc: Id, newBlob: Id, file: Option<string>) returns (e: Option<Error>)
      requires UniqueHashes(blobs)
      modifies this
      ensures Tables() == Apply(old(Tables()), Request.AttachPdf(user, doc, newBlob, file))
      ensures e.None? <==> Handle(old(Tables()), Request.AttachPdf(user, doc, newBlob, file)).Ok?
    {
      if doc !in documents || documents[doc].owner != user {
        return Some(NotFound);
      }
      if file.None? {
        return Some(BadFile);
      }
      var hash := file.value;
      var blob := LookUp(hash);
      var b := newBlob;
      if blob.Some? {
        b := blob.value;
        blobs := blobs[b := blobs[b].(refCount := blobs[b].refCount + 1)];
      } else if newBlob in blobs {
        return Some(KeyTaken);
      } else {
        files := files + {hash};
        blobs := blobs[b := Blob(hash, 1)];
      }
      documents := documents[doc := Document(user, Some(b), hash)];
      return None;
    }

    method DeleteDocument(user: Id, doc: Id) returns (purged: Result<bool, Error>)
      requires UniqueHashes(blobs)
      modifies this
      ensures Tables() == Apply(old(Tables()), Request.DeleteDocument(user, doc))
      ensures purged.Ok? <==> Handle(old(Tables()), Request.DeleteDocument(user, doc)).Ok?
    {
      if doc !in documents || documents[doc].owner != user {
        return Err(NotFound);
      }
      var d := documents[doc];
      documents := documents - {doc};
      var blob: Option<Id> := None;
      if d.blobId.Some? {
        if d.blobId.value in blobs {
          blob := d.blobId;
        }
      } else if d.hash != "" {
        blob := LookUp(d.hash);
      }
      var purgedPhysical := false;
      if blob.Some? {
        purgedPhysical := LowerCount(blob.value, d.hash);
      }
      return Ok(purgedPhysical);
    }

    method LowerCount(b: Id, hash: string) returns (purged: bool)
      requires b in blobs
      modifies this
      ensures Tables() == Lowered(old(Tables()), b, hash)
      ensures purged <==> b !in blobs
    {
      var count := blobs[b].refCount - 1;
      purged := count <= 0;
      if purged {
        blobs := blobs - {b};
        documents := Unlinked(documents, b);
        files := files - {hash};
      } else {
        blobs := blobs[b := blobs[b].(refCount := count)];
      }
    }
  }
}
