/**
 * The document store as the backend uses it: three collections held as
 * sequences in their natural (insertion) order, with the query shapes the
 * handlers issue: `find_one` by identifier, equality filters,
 * `count_documents`, `cursor.limit` and the insert `create_document` performs.
 */
module Store {
  import opened Results
  import opened ObjectIds
  import opened Documents
  import opened Seqs

  datatype Store = Store(projects: seq<Doc>, tasks: seq<Doc>, notes: seq<Doc>)

  /** Every document carries an `_id`, as the store guarantees for what it hands out. */
  predicate HasIds(docs: seq<Doc>) {
    forall d :: d in docs ==> "_id" in d
  }

  /** No document of `docs` has the identifier `o` yet. */
  predicate IsFresh(docs: seq<Doc>, o: ObjectId) {
    forall i :: 0 <= i < |docs| ==> !Has(docs[i], "_id", Oid(o))
  }

  /** `find_one({"_id": o})`: the first document with identifier `o`. */
  function FindById(docs: seq<Doc>, o: ObjectId): (r: Option<Doc>)
    ensures r.None? <==> IsFresh(docs, o)
    ensures r.Some? ==> exists i :: 0 <= i < |docs| && docs[i] == r.value && IsFresh(docs[..i], o)
    ensures r.Some? ==> r.value in docs && Has(r.value, "_id", Oid(o))
  {
    if |docs| == 0 then None
    else if Has(docs[0], "_id", Oid(o)) then
      assert IsFresh(docs[..0], o);
      Some(docs[0])
    else
      var r := FindById(docs[1..], o);
      if r.Some? then
        var i :| 0 <= i < |docs[1..]| && docs[1..][i] == r.value && IsFresh(docs[1..][..i], o);
        assert docs[..i + 1] == [docs[0]] + docs[1..][..i];
        r
      else r
  }

  /** Looking up a fresh identifier right after inserting a document with it finds that document. */
  lemma {:induction false} FindAfterInsert(docs: seq<Doc>, d: Doc, o: ObjectId)
    requires IsFresh(docs, o)
    requires Has(d, "_id", Oid(o))
    ensures FindById(docs + [d], o) == Some(d)
    decreases |docs|
  {
    if |docs| == 0 {
      assert docs + [d] == [d];
    } else {
      assert (docs + [d])[1..] == docs[1..] + [d];
      FindAfterInsert(docs[1..], d, o);
    }
  }

  /** How many of `size` documents `cursor.limit(n)` yields: all for 0, otherwise at most `|n|`. */
  function LimitCount(size: nat, n: int): nat {
    var cap := if n < 0 then -n else n;
    if n == 0 || size <= cap then size else cap
  }

  /**
   * `cursor.limit(n)` as `get_documents` applies it when `n` is truthy: at most
   * `n` documents, `|n|` for a negative `n`, and every document for `n == 0`.
   */
  function Limit(docs: seq<Doc>, n: int): (r: seq<Doc>)
    ensures |r| <= |docs| && r == docs[..|r|]
    ensures forall x :: x in r ==> x in docs
    ensures n == 0 ==> r == docs
    ensures n > 0 ==> |r| == if |docs| <= n then |docs| else n
    ensures n < 0 ==> |r| == if |docs| <= -n then |docs| else -n
    ensures |r| == LimitCount(|docs|, n)
  {
    if n == 0 then docs else if n > 0 then Take(docs, n) else Take(docs, -n)
  }

  /** What `create_document` writes: the payload fields plus the store's `_id` and `created_at`. */
  function Stored(fields: Doc, id: ObjectId, now: DateTime): (d: Doc)
    ensures Has(d, "_id", Oid(id)) && Has(d, "created_at", Stamp(now))
    ensures d.Keys == fields.Keys + {"_id", "created_at"}
    ensures forall k :: k in fields && k != "_id" && k != "created_at" ==> d[k] == fields[k]
  {
    fields["_id" := Oid(id)]["created_at" := Stamp(now)]
  }

  /** `count_documents` of a filter: how many documents match. */
  function Count(docs: seq<Doc>, f: Doc -> bool): (n: nat)
    ensures n == |Positions(docs, f)|
    ensures n <= |docs|
  {
    FilterCountIsPositionCount(docs, f);
    |Filter(docs, f)|
  }

  /** Appending a document raises a count by one exactly when the document matches. */
  lemma CountAppend(docs: seq<Doc>, d: Doc, f: Doc -> bool)
    ensures Count(docs + [d], f) == Count(docs, f) + (if f(d) then 1 else 0)
  {
    FilterAppend(docs, [d], f);
  }
}
