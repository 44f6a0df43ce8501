/** The like button and delete control under a post (postStats.tsx): an
    optimistic toggle of the viewer's id in a local copy of the post's likes,
    whose new value is both stored locally and sent as the update payload. */
module PostStats {
  import opened Common
  import Lists

  type UserId = string

  /** A user document in the post's `likes` relation; only its `$id` is used. */
  datatype Liker = Liker(id: UserId)

  /** The part of a post document the component reads. */
  datatype Post = Post(id: string, likes: seq<Liker>)

  /** The payload handed to the like-post mutation. */
  datatype LikeRequest = LikeRequest(postId: string, likesArray: seq<UserId>)

  /** `post.likes.map(user => user.$id)`: the initial local likes list. */
  function LikerIds(likers: seq<Liker>): (ids: seq<UserId>)
    ensures |ids| == |likers|
    ensures forall i :: 0 <= i < |ids| ==> ids[i] == likers[i].id
  {
    if likers == [] then [] else [likers[0].id] + LikerIds(likers[1..])
  }

  /** `checkIsLiked`: the viewer's id appears in the list. */
  function CheckIsLiked(likes: seq<UserId>, userId: UserId): (liked: bool)
    ensures liked <==> exists i :: 0 <= i < |likes| && likes[i] == userId
  {
    userId in likes
  }

  /** The predicate of `filter((id) => id !== userId)`. */
  function Differs(userId: UserId): UserId -> bool {
    id => id != userId
  }

  /** The list `handleLikePost` computes: every occurrence of the viewer's id
      removed if there is one, the id appended otherwise. */
  function Toggled(likes: seq<UserId>, userId: UserId): (r: seq<UserId>)
    ensures CheckIsLiked(r, userId) == !CheckIsLiked(likes, userId)
    ensures !CheckIsLiked(likes, userId) ==> r == likes + [userId]
  {
    Lists.FilterMembers(likes, Differs(userId));
    if userId in likes then Lists.Filter(likes, Differs(userId)) else likes + [userId]
  }

  /** The toggle touches only the viewer's id: every other id is in the new
      list exactly when it was in the old one. */
  lemma ToggleKeepsOthers(likes: seq<UserId>, userId: UserId)
    ensures forall id :: id != userId ==> (id in Toggled(likes, userId) <==> id in likes)
  {
    Lists.FilterMembers(likes, Differs(userId));
  }

  /** Unliking removes every occurrence of the viewer's id and keeps the other
      ids in their original order: the toggle of `a + [userId] + b` is the
      toggle of `a` followed by that of `b`. */
  lemma UnlikeKeepsOrder(a: seq<UserId>, b: seq<UserId>, userId: UserId)
    ensures Toggled(a + [userId] + b, userId) ==
            Lists.Filter(a, Differs(userId)) + Lists.Filter(b, Differs(userId))
  {
    var d := Differs(userId);
    var s := a + [userId] + b;
    assert s[|a|] == userId;
    assert s == a + ([userId] + b);
    Lists.FilterConcat(a, [userId] + b, d);
    Lists.FilterCons(userId, b, d);
  }

  /** Liking and then unliking, from a list without the viewer's id, gives the
      original list back. */
  lemma LikeThenUnlike(likes: seq<UserId>, userId: UserId)
    requires !CheckIsLiked(likes, userId)
    ensures Toggled(Toggled(likes, userId), userId) == likes
  {
    UnlikeKeepsOrder(likes, [], userId);
    assert likes + [userId] + [] == likes + [userId];
    forall i | 0 <= i < |likes| ensures Differs(userId)(likes[i]) {
    }
    Lists.FilterKeepsAll(likes, Differs(userId));
    assert Lists.Filter([], Differs(userId)) == [];
  }

  /** The displayed count moves by one: up when liking, down when unliking a
      list that holds each user at most once. */
  lemma LikeCountMovesByOne(likes: seq<UserId>, userId: UserId)
    requires Lists.Distinct(likes)
    ensures |Toggled(likes, userId)| ==
            if CheckIsLiked(likes, userId) then |likes| - 1 else |likes| + 1
  {
    if userId in likes {
      var k :| 0 <= k < |likes| && likes[k] == userId;
      var a, b := likes[..k], likes[k + 1..];
      assert likes == a + [userId] + b;
      UnlikeKeepsOrder(a, b, userId);
      forall i | 0 <= i < |a| ensures Differs(userId)(a[i]) {
        assert a[i] == likes[i];
      }
      forall i | 0 <= i < |b| ensures Differs(userId)(b[i]) {
        assert b[i] == likes[k + 1 + i];
      }
      Lists.FilterKeepsAll(a, Differs(userId));
      Lists.FilterKeepsAll(b, Differs(userId));
    }
  }

  /** The toggle keeps a list free of duplicates, the one-like-per-user rule
      the backend does not enforce. */
  lemma ToggleKeepsDistinct(likes: seq<UserId>, userId: UserId)
    requires Lists.Distinct(likes)
    ensures Lists.Distinct(Toggled(likes, userId))
  {
    if userId in likes {
      Lists.FilterDistinct(likes, Differs(userId));
    } else {
      var r := likes + [userId];
      forall i, j | 0 <= i < j < |r| ensures r[i] != r[j] {
        if j == |likes| { assert r[i] == likes[i]; }
      }
    }
  }

  /** The component's local state: the viewer, the post's creator, the local
      likes list and the like-post mutations fired so far. */
  class PostStatsView {
    const post: Post
    const userId: UserId
    const creatorId: UserId
    var likes: seq<UserId>
    var sent: seq<LikeRequest>

    /** Mounting: the local list starts as the ids of the post's likers. */
    constructor (post: Post, userId: UserId, creatorId: UserId)
      ensures this.post == post && this.userId == userId && this.creatorId == creatorId
      ensures likes == LikerIds(post.likes) && sent == []
    {
      this.post := post;
      this.userId := userId;
      this.creatorId := creatorId;
      likes := LikerIds(post.likes);
      sent := [];
    }

    /** `handleLikePost`, which the heart button calls with the post's own id:
        toggle the viewer's id in a copy of the list, store the copy, and fire
        the mutation with that same list as `likesArray`. */
    method HandleLikePost(postId: string)
      requires postId == post.id
      modifies this`likes, this`sent
      ensures likes == Toggled(old(likes), userId)
      ensures CheckIsLiked(likes, userId) == !CheckIsLiked(old(likes), userId)
      ensures sent == old(sent) + [LikeRequest(postId, likes)]
      ensures Lists.Distinct(old(likes)) ==>
                LikeCount() == if CheckIsLiked(old(likes), userId) then old(|likes|) - 1
                               else old(|likes|) + 1
    {
      if Lists.Distinct(likes) {
        LikeCountMovesByOne(likes, userId);
      }
      var newLikes := likes;
      var hasLiked := userId in newLikes;
      if hasLiked {
        newLikes := Lists.Filter(newLikes, Differs(userId));
      } else {
        newLikes := newLikes + [userId];
      }
      likes := newLikes;
      sent := sent + [LikeRequest(postId, newLikes)];
    }

    /** The number shown beside the heart. */
    function LikeCount(): (n: nat)
      reads this
      ensures n == |likes|
    {
      |likes|
    }

    /** The delete button appears only for the post's creator, and only while
        no delete is in flight; a spinner replaces it during a delete. */
    function DeleteControlShown(isDeletingPost: bool): (c: DeleteControl)
      ensures c == DeleteButton <==> !isDeletingPost && creatorId == userId
      ensures c == Spinner <==> isDeletingPost
    {
      if isDeletingPost then Spinner
      else if creatorId == userId then DeleteButton
      else NoControl
    }
  }
}
