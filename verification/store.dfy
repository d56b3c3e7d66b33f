/** The `feedback` collection as both servers use it: documents are only
    ever appended, and a listing is `find({slug}).sort({createdAt: -1})
    .limit(150)` mapped to the wire form. MongoDB gives no order among
    documents with equal `createdAt`; the model keeps their store order,
    and no contract below depends on that choice. */
module FeedbackStore {
  import opened Base
  import opened ObjectIds
  import opened IsoTime

  /** A stored document. `email` is absent rather than empty. */
  datatype FeedbackDoc = FeedbackDoc(
    id: ObjectId,
    slug: string,
    name: string,
    message: string,
    email: Option<string>,
    createdAt: TimeValue)

  /** The collection, in insertion order. */
  type Store = seq<FeedbackDoc>

  /** A listed entry on the wire: the id and creation time as strings, and
      no email. */
  datatype FeedbackDto = FeedbackDto(
    id: string,
    slug: string,
    name: string,
    message: string,
    createdAt: string)

  /** The `.limit(150)` of every listing. */
  const ListLimit := 150

  /** `find({slug})`: the documents of one thread, in store order. */
  function BySlug(store: Store, slug: string): (r: seq<FeedbackDoc>)
    ensures forall d :: multiset(r)[d] == if d.slug == slug then multiset(store)[d] else 0
    ensures multiset(r) <= multiset(store)
    ensures forall d :: d in r <==> d in store && d.slug == slug
  {
    if store == [] then []
    else
      assert store == [store[0]] + store[1..];
      (if store[0].slug == slug then [store[0]] else []) + BySlug(store[1..], slug)
  }

  /** Non-increasing `createdAt`. */
  predicate NewestFirst(s: seq<FeedbackDoc>)
  {
    forall i, j :: 0 <= i < j < |s| ==> s[i].createdAt >= s[j].createdAt
  }

  /** A document no older than every element may go in front. */
  lemma ConsNewestFirst(x: FeedbackDoc, s: seq<FeedbackDoc>)
    requires NewestFirst(s)
    requires forall i :: 0 <= i < |s| ==> s[i].createdAt <= x.createdAt
    ensures NewestFirst([x] + s)
  {
    var r := [x] + s;
    assert forall j :: 0 < j < |r| ==> r[j] == s[j - 1];
  }

  /** A document no older than the head of a newest-first sequence may go
      in front of it. */
  lemma FrontNewestFirst(d: FeedbackDoc, s: seq<FeedbackDoc>)
    requires NewestFirst(s)
    requires s == [] || d.createdAt >= s[0].createdAt
    ensures NewestFirst([d] + s)
  {
    ConsNewestFirst(d, s);
  }

  /** Whatever is drawn from the tail of `s` and `d` is no newer than the
      head of `s`, when `d` is older than that head. */
  lemma {:induction false} TailBound(d: FeedbackDoc, s: seq<FeedbackDoc>, rest: seq<FeedbackDoc>)
    requires NewestFirst(s) && s != [] && d.createdAt < s[0].createdAt
    requires multiset(rest) == multiset(s[1..]) + multiset{d}
    ensures forall i :: 0 <= i < |rest| ==> rest[i].createdAt <= s[0].createdAt
  {
    forall i | 0 <= i < |rest| ensures rest[i].createdAt <= s[0].createdAt {
      assert rest[i] in multiset(rest);
      if rest[i] != d {
        assert rest[i] in multiset(s[1..]);
        var k :| 0 <= k < |s[1..]| && s[1..][k] == rest[i];
        assert s[k + 1] == rest[i];
      }
    }
  }

  /** Places `d` before the first strictly older document. */
  function InsertNewestFirst(d: FeedbackDoc, s: seq<FeedbackDoc>): (r: seq<FeedbackDoc>)
    requires NewestFirst(s)
    ensures NewestFirst(r)
    ensures multiset(r) == multiset(s) + multiset{d}
  {
    if s == [] || d.createdAt >= s[0].createdAt then
      FrontNewestFirst(d, s);
      [d] + s
    else
      var rest := InsertNewestFirst(d, s[1..]);
      assert s == [s[0]] + s[1..];
      TailBound(d, s, rest);
      ConsNewestFirst(s[0], rest);
      [s[0]] + rest
  }

  /** `.sort({createdAt: -1})`: a permutation with non-increasing `createdAt`. */
  function SortNewestFirst(s: seq<FeedbackDoc>): (r: seq<FeedbackDoc>)
    ensures NewestFirst(r)
    ensures multiset(r) == multiset(s)
  {
    if s == [] then []
    else
      assert s == [s[0]] + s[1..];
      InsertNewestFirst(s[0], SortNewestFirst(s[1..]))
  }

  /** A prefix of a newest-first sequence is newest-first, and what it
      leaves out is no newer than its last element. */
  lemma PrefixOfNewestFirst(s: seq<FeedbackDoc>, k: nat)
    requires NewestFirst(s) && k <= |s|
    ensures NewestFirst(s[..k])
    ensures multiset(s[..k]) <= multiset(s)
    ensures forall x :: x in s && x !in s[..k] ==> k < |s| && (k > 0 ==> x.createdAt <= s[k - 1].createdAt)
  {
    assert s == s[..k] + s[k..];
    forall x | x in s && x !in s[..k]
      ensures k < |s| && (k > 0 ==> x.createdAt <= s[k - 1].createdAt)
    {
      var j :| 0 <= j < |s| && s[j] == x;
      assert j >= k;
    }
  }

  /** The thread of `slug`, newest first. */
  function SortedThread(store: Store, slug: string): (s: seq<FeedbackDoc>)
    ensures NewestFirst(s)
    ensures multiset(s) <= multiset(store)
    ensures forall x :: x in s <==> x in store && x.slug == slug
  {
    var thread := BySlug(store, slug);
    var s := SortNewestFirst(thread);
    assert forall x :: x in s <==> x in thread by {
      forall x ensures x in s <==> x in thread {
        assert x in s <==> x in multiset(s);
      }
    }
    s
  }

  /** The documents a GET lists for `slug`: at most 150, all of that thread,
      newest first, drawn from the store; a document of the thread is left
      out only when the list is full, and then it is no newer than the
      oldest listed one. */
  function Listing(store: Store, slug: string): (r: seq<FeedbackDoc>)
    ensures |r| <= ListLimit
    ensures forall d :: d in r ==> d.slug == slug
    ensures NewestFirst(r)
    ensures multiset(r) <= multiset(store)
    ensures forall d :: d in store && d.slug == slug && d !in r ==>
              |r| == ListLimit && d.createdAt <= r[|r| - 1].createdAt
  {
    var s := SortedThread(store, slug);
    var k := if |s| < ListLimit then |s| else ListLimit;
    PrefixOfNewestFirst(s, k);
    var r := s[..k];
    assert forall d :: d in r ==> d in s;
    r
  }

  /** Each listed document is stored and belongs to the thread. */
  lemma ListingDrawnFromStore(store: Store, slug: string)
    ensures forall i :: 0 <= i < |Listing(store, slug)| ==>
              Listing(store, slug)[i].slug == slug && Listing(store, slug)[i] in store
  {
    var r := Listing(store, slug);
    forall i | 0 <= i < |r| ensures r[i].slug == slug && r[i] in store {
      assert r[i] in r;
      assert r[i] in multiset(r);
    }
  }

  /** `String(d._id)` and `d.createdAt.toISOString()` next to the plain
      fields; `email` is not carried over. */
  function ToDto(d: FeedbackDoc): (r: FeedbackDto)
    ensures ParseHex(r.id) == Some(d.id)
    ensures IsoReads(r.createdAt, Fields(d.createdAt)) && Denotes(Fields(d.createdAt), d.createdAt)
    ensures r.slug == d.slug && r.name == d.name && r.message == d.message
  {
    FeedbackDto(IdString(d.id), d.slug, d.name, d.message, IsoString(d.createdAt))
  }

  /** The wire form of a listing, entry by entry. */
  function ToDtos(docs: seq<FeedbackDoc>): (r: seq<FeedbackDto>)
    ensures |r| == |docs|
    ensures forall i :: 0 <= i < |docs| ==> r[i] == ToDto(docs[i])
  {
    seq(|docs|, i requires 0 <= i < |docs| => ToDto(docs[i]))
  }

  /** The wire form never reveals the email: documents that differ only in
      their email list identically. */
  lemma DtoHidesEmail(d: FeedbackDoc, e: Option<string>)
    ensures ToDto(d.(email := e)) == ToDto(d)
  {
  }

  /** Ids are pairwise distinct. */
  predicate IdsUnique(store: Store)
  {
    forall i, j :: 0 <= i < j < |store| ==> store[i].id != store[j].id
  }

  /** `insertOne`: the store grows by exactly the new document at its end. */
  function Append(store: Store, d: FeedbackDoc): (r: Store)
    ensures |r| == |store| + 1 && r[..|store|] == store && r[|store|] == d
  {
    store + [d]
  }

  /** Appending a document under a fresh id keeps ids unique. */
  lemma AppendKeepsIdsUnique(store: Store, d: FeedbackDoc)
    requires IdsUnique(store)
    requires forall x :: x in store ==> x.id != d.id
    ensures IdsUnique(Append(store, d))
  {
    var r := Append(store, d);
    forall i, j | 0 <= i < j < |r| ensures r[i].id != r[j].id {
      if j == |store| {
        assert r[i] in store;
      } else {
        assert r[i] == store[i] && r[j] == store[j];
      }
    }
  }

  /** After an append, a listed document of the new document's thread is
      either that document or one already stored in the thread. */
  lemma ListedAfterAppend(store: Store, d: FeedbackDoc, x: FeedbackDoc)
    ensures x in Listing(Append(store, d), d.slug) ==> x == d || (x in store && x.slug == d.slug)
  {
    var after := Append(store, d);
    if x in Listing(after, d.slug) {
      assert x in multiset(Listing(after, d.slug));
      assert x in after;
      assert after == store + [d];
    }
  }

  /** A document newer than everything else in its thread is listed after
      it is appended. */
  lemma {:induction false} NewestListed(store: Store, d: FeedbackDoc)
    requires forall x :: x in store && x.slug == d.slug ==> x.createdAt < d.createdAt
    ensures d in Listing(Append(store, d), d.slug)
  {
    var after := Append(store, d);
    var r := Listing(after, d.slug);
    assert after[|store|] == d;
    if |r| > 0 {
      ListedAfterAppend(store, d, r[|r| - 1]);
    }
  }

  /** A document newer than everything else in its thread heads the next
      listing of that thread. */
  lemma {:induction false} NewestHeadsListing(store: Store, d: FeedbackDoc)
    requires forall x :: x in store && x.slug == d.slug ==> x.createdAt < d.createdAt
    ensures |Listing(Append(store, d), d.slug)| > 0
    ensures Listing(Append(store, d), d.slug)[0] == d
  {
    var r := Listing(Append(store, d), d.slug);
    NewestListed(store, d);
    var j :| 0 <= j < |r| && r[j] == d;
    ListedAfterAppend(store, d, r[0]);
    assert r[0].createdAt >= r[j].createdAt;
  }
}
