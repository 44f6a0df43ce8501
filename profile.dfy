/** The profile page's post list (profile.tsx): `sortPostsByDate` sorts a
    copy of the profile's posts newest first with `slice().sort(...)`, whose
    comparator is the difference of the two creation times. */
module Profile {
  import opened Common
  import Lists

  /** A post document; `createdAt` is `$createdAt` as a timestamp. */
  datatype PostDoc = PostDoc(id: string, createdAt: int)

  /** Creation times never increase along the sequence. */
  predicate NewestFirst(s: seq<PostDoc>) {
    forall i, j :: 0 <= i < j < |s| ==> s[i].createdAt >= s[j].createdAt
  }

  /** No post in `s` is newer than `t`. */
  predicate NotNewerThan(s: seq<PostDoc>, t: int) {
    forall i :: 0 <= i < |s| ==> s[i].createdAt <= t
  }

  /** Puts `p` in front of the first post that is not newer than it, so that
      among posts created at the same time `p` comes first. */
  function Insert(p: PostDoc, sorted: seq<PostDoc>): (r: seq<PostDoc>)
    ensures |r| == |sorted| + 1
  {
    if sorted == [] || sorted[0].createdAt <= p.createdAt then [p] + sorted
    else [sorted[0]] + Insert(p, sorted[1..])
  }

  /** Insertion adds `p` and loses nothing. */
  lemma {:induction false} InsertPermutes(p: PostDoc, sorted: seq<PostDoc>)
    ensures multiset(Insert(p, sorted)) == multiset(sorted) + multiset{p}
  {
    if !(sorted == [] || sorted[0].createdAt <= p.createdAt) {
      InsertPermutes(p, sorted[1..]);
      assert sorted == [sorted[0]] + sorted[1..];
    }
  }

  /** Inserting a post that is not newer than `t` into posts that are not
      newer than `t` keeps them so. */
  lemma {:induction false} InsertBounded(p: PostDoc, sorted: seq<PostDoc>, t: int)
    requires NotNewerThan(sorted, t) && p.createdAt <= t
    ensures NotNewerThan(Insert(p, sorted), t)
  {
    if !(sorted == [] || sorted[0].createdAt <= p.createdAt) {
      InsertBounded(p, sorted[1..], t);
      var rest := Insert(p, sorted[1..]);
      assert Insert(p, sorted) == [sorted[0]] + rest;
    }
  }

  /** Insertion keeps a newest-first list newest first. */
  lemma {:induction false} InsertKeepsNewestFirst(p: PostDoc, sorted: seq<PostDoc>)
    requires NewestFirst(sorted)
    ensures NewestFirst(Insert(p, sorted))
  {
    if sorted == [] || sorted[0].createdAt <= p.createdAt {
      var r := [p] + sorted;
      forall i, j | 0 <= i < j < |r| ensures r[i].createdAt >= r[j].createdAt {
        if i > 0 { assert r[i] == sorted[i - 1] && r[j] == sorted[j - 1]; }
        else { assert r[j] == sorted[j - 1]; }
      }
    } else {
      var head, tail := sorted[0], sorted[1..];
      assert NewestFirst(tail) by {
        forall i, j | 0 <= i < j < |tail| ensures tail[i].createdAt >= tail[j].createdAt {
          assert tail[i] == sorted[i + 1] && tail[j] == sorted[j + 1];
        }
      }
      assert NotNewerThan(tail, head.createdAt) by {
        forall i | 0 <= i < |tail| ensures tail[i].createdAt <= head.createdAt {
          assert tail[i] == sorted[i + 1];
        }
      }
      InsertKeepsNewestFirst(p, tail);
      InsertBounded(p, tail, head.createdAt);
      var rest := Insert(p, tail);
      var r := [head] + rest;
      assert Insert(p, sorted) == r;
      forall i, j | 0 <= i < j < |r| ensures r[i].createdAt >= r[j].createdAt {
        assert r[j] == rest[j - 1];
        if i > 0 { assert r[i] == rest[i - 1]; }
      }
    }
  }

  /** The stable sort of `s` by descending creation time. */
  function SortNewestFirst(s: seq<PostDoc>): (r: seq<PostDoc>)
    ensures multiset(r) == multiset(s) && |r| == |s|
    ensures NewestFirst(r)
  {
    if s == [] then []
    else
      var rest := SortNewestFirst(s[1..]);
      InsertKeepsNewestFirst(s[0], rest);
      InsertPermutes(s[0], rest);
      assert s == [s[0]] + s[1..];
      Insert(s[0], rest)
  }

  /** `sortPostsByDate`: no posts gives the empty list; otherwise a newest-
      first permutation of the posts, the input left as it was. */
  function SortPostsByDate(posts: Option<seq<PostDoc>>): (r: seq<PostDoc>)
    ensures posts.None? ==> r == []
    ensures posts.Some? ==> multiset(r) == multiset(posts.value) && |r| == |posts.value|
    ensures NewestFirst(r)
  {
    match posts
    case None => []
    case Some(ps) => SortNewestFirst(ps)
  }

  /** The posts created at time `t`. */
  function At(t: int): PostDoc -> bool {
    (p: PostDoc) => p.createdAt == t
  }

  /** Inserting `p` puts it ahead of every post created at the same time. */
  lemma {:induction false} InsertAheadOfTies(p: PostDoc, sorted: seq<PostDoc>, t: int)
    ensures Lists.Filter(Insert(p, sorted), At(t)) ==
            (if p.createdAt == t then [p] else []) + Lists.Filter(sorted, At(t))
  {
    var at := At(t);
    if sorted == [] || sorted[0].createdAt <= p.createdAt {
      assert Insert(p, sorted) == [p] + sorted;
      Lists.FilterCons(p, sorted, at);
    } else {
      var head, tail := sorted[0], sorted[1..];
      var rest := Insert(p, tail);
      assert sorted == [head] + tail;
      assert Insert(p, sorted) == [head] + rest;
      InsertAheadOfTies(p, tail, t);
      Lists.FilterCons(head, rest, at);
      Lists.FilterCons(head, tail, at);
      // `head` is strictly newer than `p`, so at most one of the two is kept
      if p.createdAt == t {
        assert !at(head);
      }
    }
  }

  /** The sort is stable: posts created at the same time keep their input
      order, as ECMAScript's `Array.prototype.sort` guarantees. */
  lemma {:induction false} SortIsStable(s: seq<PostDoc>, t: int)
    ensures Lists.Filter(SortNewestFirst(s), At(t)) == Lists.Filter(s, At(t))
  {
    if s != [] {
      SortIsStable(s[1..], t);
      InsertAheadOfTies(s[0], SortNewestFirst(s[1..]), t);
      assert s == [s[0]] + s[1..];
      Lists.FilterCons(s[0], s[1..], At(t));
    }
  }
}
