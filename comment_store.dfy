/** The comment documents of the comment service in its own MongoDB database
    (`WalineProvider.resolveCommentsCollectionNames`, `exportComments` and
    `importComments`). The database is a map from collection names to the
    documents they hold. */
module CommentStore {
  import opened Js
  import opened Strings

  /** The collection names tried first, in this order. */
  const Priority: seq<string> := ["Comment", "Comments", "comment", "comments"]

  /** The default when no collection looks like a comment collection. */
  const DefaultCollection: string := "Comment"

  /** `s` lists some of the elements of `t`, in the order of `t`. */
  predicate IsSubsequence(s: seq<string>, t: seq<string>)
    decreases |t|
  {
    if s == [] then true
    else if t == [] then false
    else if s[0] == t[0] then IsSubsequence(s[1..], t[1..])
    else IsSubsequence(s, t[1..])
  }

  /** `s.filter(p)`: the elements satisfying `p`, in their order. */
  function Filter(s: seq<string>, p: string -> bool): (r: seq<string>)
    ensures forall x :: x in r <==> x in s && p(x)
    ensures IsSubsequence(r, s)
    ensures |r| <= |s|
  {
    if s == [] then []
    else if p(s[0]) then [s[0]] + Filter(s[1..], p)
    else Filter(s[1..], p)
  }

  /** `n.toLowerCase().includes('comment')`. */
  predicate LooksLikeComments(n: string) {
    Contains(ToLower(n), "comment")
  }

  /** The collections that hold the comments, given the names of the
      collections that exist: the priority names present, in priority order;
      failing that every name that contains "comment" in any case, in listing
      order; failing that the default name. Never empty. */
  function ResolveCommentsCollectionNames(names: seq<string>): (r: seq<string>)
    ensures |r| > 0
    ensures (exists p :: p in Priority && p in names) ==>
      (forall x :: x in r <==> x in Priority && x in names) && IsSubsequence(r, Priority)
    ensures (forall p :: p in Priority ==> p !in names) && (exists n :: n in names && LooksLikeComments(n)) ==>
      (forall x :: x in r <==> x in names && LooksLikeComments(x)) && IsSubsequence(r, names)
    ensures (forall p :: p in Priority ==> p !in names) && (forall n :: n in names ==> !LooksLikeComments(n)) ==>
      r == [DefaultCollection]
  {
    var existing := Filter(Priority, n => n in names);
    assert |existing| > 0 ==> existing[0] in existing;
    if |existing| > 0 then existing
    else
      var fuzzy := Filter(names, n => LooksLikeComments(n));
      assert |fuzzy| > 0 ==> fuzzy[0] in fuzzy;
      if |fuzzy| > 0 then fuzzy else [DefaultCollection]
  }

  /** Every name chosen is an existing collection, unless none qualified and the default is used. */
  lemma ResolvedNamesExist(names: seq<string>)
    ensures var r := ResolveCommentsCollectionNames(names);
            (forall x :: x in r ==> x in names) || r == [DefaultCollection]
  {
    var r := ResolveCommentsCollectionNames(names);
    if exists p :: p in Priority && p in names {
    } else if exists n :: n in names && LooksLikeComments(n) {
    } else {
      assert forall p :: p in Priority ==> p !in names;
    }
  }

  // ---------------------------------------------------------------------
  // Export: the aggregation turns every top-level ObjectId into its text.

  function ExportValue(v: Json): (r: Json)
    ensures v.JObjectId? ==> r == JStr(v.hex)
    ensures !v.JObjectId? ==> r == v
  {
    if v.JObjectId? then JStr(v.hex) else v
  }

  /** One document as `exportComments` returns it. */
  function ExportDoc(d: Assoc): (r: Assoc)
    ensures |r| == |d|
    ensures forall i :: 0 <= i < |d| ==> r[i] == (d[i].0, ExportValue(d[i].1))
  {
    if d == [] then [] else [(d[0].0, ExportValue(d[0].1))] + ExportDoc(d[1..])
  }

  /** Every document of a collection, exported. */
  function ExportDocs(docs: seq<Assoc>): (r: seq<Assoc>)
    ensures |r| == |docs|
    ensures forall i :: 0 <= i < |docs| ==> r[i] == ExportDoc(docs[i])
  {
    if docs == [] then [] else [ExportDoc(docs[0])] + ExportDocs(docs[1..])
  }

  /** `exportComments`: the documents of the first resolved collection, read
      from the database `db` whose collections are listed in `names`; a
      collection that does not exist reads as empty. */
  function ExportComments(db: map<string, seq<Assoc>>, names: seq<string>): (r: seq<Assoc>)
    ensures var primary := ResolveCommentsCollectionNames(names)[0];
            |r| == if primary in db then |db[primary]| else 0
    ensures forall j, i :: 0 <= j < |r| && 0 <= i < |r[j]| ==> !r[j][i].1.JObjectId?
  {
    var primary := ResolveCommentsCollectionNames(names)[0];
    if primary in db then ExportDocs(db[primary]) else []
  }

  // ---------------------------------------------------------------------
  // Import.

  predicate IsHexChar(c: char) {
    '0' <= c <= '9' || 'a' <= c <= 'f' || 'A' <= c <= 'F'
  }

  /** The text of an ObjectId: `/^[a-fA-F0-9]{24}$/`. */
  predicate IsObjectIdText(s: string) {
    |s| == 24 && forall i :: 0 <= i < |s| ==> IsHexChar(s[i])
  }

  /** What `toString` of an ObjectId gives: 24 lower-case hexadecimal digits. */
  predicate IsCanonicalHex(s: string) {
    |s| == 24 && forall i :: 0 <= i < |s| ==> ('0' <= s[i] <= '9' || 'a' <= s[i] <= 'f')
  }

  lemma CanonicalHexLower(s: string)
    requires IsCanonicalHex(s)
    ensures ToLower(s) == s
  {
  }

  /** One field as it is written back: only an `_id` holding ObjectId text
      becomes an ObjectId again (`new ObjectId` keeps the digits, in lower
      case); `pid`, `rid` and every other field keep their value. */
  function ImportValue(k: string, v: Json): (r: Json)
    ensures k != "_id" ==> r == v
    ensures r != v ==> k == "_id" && v.JStr? && IsObjectIdText(v.s) && r == JObjectId(ToLower(v.s))
  {
    if k == "_id" && v.JStr? && IsObjectIdText(v.s) then JObjectId(ToLower(v.s)) else v
  }

  /** One document as `importComments` writes it. */
  function ImportDoc(d: Assoc): (r: Assoc)
    ensures |r| == |d|
    ensures forall i :: 0 <= i < |d| ==> r[i] == (d[i].0, ImportValue(d[i].0, d[i].1))
  {
    if d == [] then [] else [(d[0].0, ImportValue(d[0].0, d[0].1))] + ImportDoc(d[1..])
  }

  /** `docs.map(...)`: every document converted. */
  function ImportDocs(docs: seq<Assoc>): (r: seq<Assoc>)
    ensures |r| == |docs|
    ensures forall i :: 0 <= i < |docs| ==> r[i] == ImportDoc(docs[i])
  {
    if docs == [] then [] else [ImportDoc(docs[0])] + ImportDocs(docs[1..])
  }

  /** A document as the comment service stores it: its `_id` is an ObjectId and
      no other top-level field is one (a reference such as `pid` or `rid` is text). */
  predicate StoredDoc(d: Assoc) {
    forall i :: 0 <= i < |d| ==>
      if d[i].0 == "_id" then d[i].1.JObjectId? && IsCanonicalHex(d[i].1.hex) else !d[i].1.JObjectId?
  }

  /** Exporting a stored document and importing it again gives it back unchanged. */
  lemma ExportImportRoundTrip(d: Assoc)
    requires StoredDoc(d)
    ensures ImportDoc(ExportDoc(d)) == d
  {
    var r := ImportDoc(ExportDoc(d));
    forall i | 0 <= i < |d| ensures r[i] == d[i] {
      if d[i].0 == "_id" {
        CanonicalHexLower(d[i].1.hex);
      }
    }
  }

  /** For any document, the round trip keeps every key in place, restores an
      `_id` to an ObjectId, and leaves every other ObjectId as its text. */
  lemma ExportImportNormalises(d: Assoc, i: int)
    requires 0 <= i < |d|
    ensures ImportDoc(ExportDoc(d))[i].0 == d[i].0
    ensures d[i].0 == "_id" && d[i].1.JObjectId? && IsObjectIdText(d[i].1.hex) ==>
      ImportDoc(ExportDoc(d))[i].1 == JObjectId(ToLower(d[i].1.hex))
    ensures d[i].0 != "_id" ==> ImportDoc(ExportDoc(d))[i].1 == ExportValue(d[i].1)
  {
  }

  /** An export of stored comments, imported again, gives the same documents. */
  lemma ExportImportDocs(docs: seq<Assoc>)
    requires forall i :: 0 <= i < |docs| ==> StoredDoc(docs[i])
    ensures ImportDocs(ExportDocs(docs)) == docs
  {
    forall i | 0 <= i < |docs| ensures ImportDocs(ExportDocs(docs))[i] == docs[i] {
      ExportImportRoundTrip(docs[i]);
    }
  }

  datatype DbOp = DeleteMany(collection: string) | InsertMany(collection: string, docs: seq<Assoc>)

  /** `importComments`: nothing for an empty list; otherwise every resolved
      collection is emptied and then given the converted documents. */
  method ImportComments(docs: Option<seq<Assoc>>, existing: seq<string>) returns (ops: seq<DbOp>)
    ensures docs.None? || docs.value == [] ==> ops == []
    ensures docs.Some? && docs.value != [] ==>
      var names := ResolveCommentsCollectionNames(existing);
      |ops| == 2 * |names| &&
      forall c :: 0 <= c < |names| ==>
        ops[2 * c] == DeleteMany(names[c]) &&
        ops[2 * c + 1] == InsertMany(names[c], ImportDocs(docs.value))
  {
    if docs.None? || |docs.value| == 0 {
      return [];
    }
    var ds := docs.value;
    var colNames := ResolveCommentsCollectionNames(existing);
    var deserialized: seq<Assoc> := [];
    var i := 0;
    while i < |ds|
      invariant 0 <= i <= |ds|
      invariant deserialized == ImportDocs(ds)[..i]
    {
      var r := RestoreIds(ds[i]);
      assert ImportDocs(ds)[..i + 1] == ImportDocs(ds)[..i] + [ImportDocs(ds)[i]];
      deserialized := deserialized + [r];
      i := i + 1;
    }
    assert deserialized == ImportDocs(ds);
    ops := ReplaceEach(colNames, deserialized);
  }

  /** `for (const name of colNames)`: delete everything, then insert the documents. */
  method ReplaceEach(names: seq<string>, ds: seq<Assoc>) returns (ops: seq<DbOp>)
    ensures |ops| == 2 * |names|
    ensures forall c :: 0 <= c < |names| ==> ops[2 * c] == DeleteMany(names[c]) && ops[2 * c + 1] == InsertMany(names[c], ds)
  {
    ops := [];
    var c := 0;
    while c < |names|
      invariant 0 <= c <= |names|
      invariant |ops| == 2 * c
      invariant forall c' :: 0 <= c' < c ==>
        ops[2 * c'] == DeleteMany(names[c']) && ops[2 * c' + 1] == InsertMany(names[c'], ds)
    {
      ops := ops + [DeleteMany(names[c]), InsertMany(names[c], ds)];
      c := c + 1;
    }
  }

  /** The copy `{ ...d }` with each field converted in place. */
  method RestoreIds(d: Assoc) returns (r: Assoc)
    ensures r == ImportDoc(d)
  {
    r := d;
    var k := 0;
    while k < |r|
      invariant 0 <= k <= |r| && |r| == |d|
      invariant r[..k] == ImportDoc(d)[..k]
      invariant r[k..] == d[k..]
    {
      var (key, v) := r[k];
      assert r[k] == d[k];
      if key == "_id" && v.JStr? && IsObjectIdText(v.s) {
        r := r[k := (key, JObjectId(ToLower(v.s)))];
      }
      assert r[..k + 1] == r[..k] + [r[k]];
      assert ImportDoc(d)[..k + 1] == ImportDoc(d)[..k] + [ImportDoc(d)[k]];
      k := k + 1;
    }
    assert r == r[..k];
  }

  /** The database after the operations, one after the other. */
  function Apply(db: map<string, seq<Assoc>>, ops: seq<DbOp>): map<string, seq<Assoc>>
    decreases |ops|
  {
    if ops == [] then db
    else
      var db' := match ops[0]
        case DeleteMany(c) => db[c := []]
        case InsertMany(c, ds) => db[c := (if c in db then db[c] else []) + ds];
      Apply(db', ops[1..])
  }

  /** A delete-then-insert per collection replaces the contents of each named
      collection by exactly the given documents and leaves the others alone. */
  lemma {:induction false} ReplaceCollections(db: map<string, seq<Assoc>>, names: seq<string>, ds: seq<Assoc>, ops: seq<DbOp>)
    requires |ops| == 2 * |names|
    requires forall c :: 0 <= c < |names| ==> ops[2 * c] == DeleteMany(names[c]) && ops[2 * c + 1] == InsertMany(names[c], ds)
    ensures forall n :: n in names ==> n in Apply(db, ops) && Apply(db, ops)[n] == ds
    ensures forall n :: n !in names && n in db ==> n in Apply(db, ops) && Apply(db, ops)[n] == db[n]
    ensures forall n :: n !in names && n !in db ==> n !in Apply(db, ops)
    decreases |names|
  {
    if names != [] {
      var db0 := db[names[0] := []];
      var db1 := db0[names[0] := ds];
      assert Apply(db, ops) == Apply(db1, ops[2..]) by {
        assert ops[1..][1..] == ops[2..];
        assert Apply(db, ops) == Apply(db0, ops[1..]);
        assert ops[1..][0] == InsertMany(names[0], ds);
        assert [] + ds == ds;
        assert Apply(db0, ops[1..]) == Apply(db1, ops[1..][1..]);
      }
      forall c | 0 <= c < |names| - 1
        ensures ops[2..][2 * c] == DeleteMany(names[1..][c]) && ops[2..][2 * c + 1] == InsertMany(names[1..][c], ds)
      {
        assert ops[2 * (c + 1)] == DeleteMany(names[c + 1]);
        assert ops[2 * (c + 1) + 1] == InsertMany(names[c + 1], ds);
      }
      ReplaceCollections(db1, names[1..], ds, ops[2..]);
    }
  }

  /** An import of a non-empty list leaves every comment collection holding
      exactly the converted documents: no old comment survives. */
  lemma ImportReplaces(db: map<string, seq<Assoc>>, docs: seq<Assoc>, existing: seq<string>, ops: seq<DbOp>)
    requires docs != []
    requires var names := ResolveCommentsCollectionNames(existing);
      |ops| == 2 * |names| &&
      forall c :: 0 <= c < |names| ==>
        ops[2 * c] == DeleteMany(names[c]) &&
        ops[2 * c + 1] == InsertMany(names[c], ImportDocs(docs))
    ensures forall n :: n in ResolveCommentsCollectionNames(existing) ==>
      n in Apply(db, ops) && |Apply(db, ops)[n]| == |docs| &&
      forall i :: 0 <= i < |docs| ==> Apply(db, ops)[n][i] == ImportDoc(docs[i])
  {
    var ds := ImportDocs(docs);
    ReplaceCollections(db, ResolveCommentsCollectionNames(existing), ds, ops);
  }

  /** Exporting right after an import reads back the converted documents. */
  lemma ImportThenExport(db: map<string, seq<Assoc>>, docs: seq<Assoc>, names: seq<string>, ops: seq<DbOp>)
    requires docs != []
    requires var cs := ResolveCommentsCollectionNames(names);
      |ops| == 2 * |cs| &&
      forall c :: 0 <= c < |cs| ==>
        ops[2 * c] == DeleteMany(cs[c]) &&
        ops[2 * c + 1] == InsertMany(cs[c], ImportDocs(docs))
    ensures ExportComments(Apply(db, ops), names) == ExportDocs(ImportDocs(docs))
  {
    var cs := ResolveCommentsCollectionNames(names);
    var ds := ImportDocs(docs);
    ReplaceCollections(db, cs, ds, ops);
    var db' := Apply(db, ops);
    assert cs[0] in cs;
    assert cs[0] in db' && db'[cs[0]] == ds;
  }

  /** A backup made by an export of stored comments, imported and exported
      again, is the same backup. */
  lemma BackupSurvivesImport(db: map<string, seq<Assoc>>, stored: seq<Assoc>, names: seq<string>, ops: seq<DbOp>)
    requires stored != []
    requires forall i :: 0 <= i < |stored| ==> StoredDoc(stored[i])
    requires var cs := ResolveCommentsCollectionNames(names);
      |ops| == 2 * |cs| &&
      forall c :: 0 <= c < |cs| ==>
        ops[2 * c] == DeleteMany(cs[c]) &&
        ops[2 * c + 1] == InsertMany(cs[c], ImportDocs(ExportDocs(stored)))
    ensures ExportComments(Apply(db, ops), names) == ExportDocs(stored)
  {
    ImportThenExport(db, ExportDocs(stored), names, ops);
    ExportImportDocs(stored);
  }
}
