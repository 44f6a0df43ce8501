/** The comment list under a post (comments.tsx): the loaded comments are
    filtered down to this post, at most five are shown until "see more" is
    pressed, and the comment box is cleared once a comment is created. */
module Comments {
  import opened Common
  import Lists

  /** How many comments are shown while "see all" is off. */
  const PAGE_SIZE := 5

  /** A comment document; `postId` is its `post.$id`. */
  datatype Comment = Comment(id: string, postId: string, commenter: string, text: string)

  /** The payload handed to the create-comment mutation. */
  datatype CommentRequest = CommentRequest(postId: string, comment: string, commenter: string)

  function Min(a: int, b: int): int { if a < b then a else b }

  /** The predicate of `filter((comment) => comment.post.$id === postId)`. */
  function OnPost(postId: string): Comment -> bool {
    (c: Comment) => c.postId == postId
  }

  /** `filteredComments`: undefined while the comments are not loaded,
      otherwise exactly the comments of this post, in their loaded order. */
  function FilteredComments(comments: Option<seq<Comment>>, postId: string): (r: Option<seq<Comment>>)
    ensures r.Some? <==> comments.Some?
    ensures r.Some? ==> forall c :: c in r.value <==> c in comments.value && c.postId == postId
    ensures r.Some? ==> |r.value| <= |comments.value|
  {
    match comments
    case None => None
    case Some(cs) =>
      Lists.FilterMembers(cs, OnPost(postId));
      Some(Lists.Filter(cs, OnPost(postId)))
  }

  /** The comments rendered: none while the comments query is fetching (a
      spinner stands in their place), otherwise the first five (`slice(0, 5)`)
      while "see all" is off, all of them while it is on, none while undefined
      or empty. */
  function DisplayedComments(filtered: Option<seq<Comment>>, seeAll: bool, fetching: bool): (shown: seq<Comment>)
    ensures fetching || filtered.None? ==> shown == []
    ensures filtered.Some? ==> shown <= filtered.value
    ensures !fetching && filtered.Some? ==>
              |shown| == if seeAll then |filtered.value| else Min(PAGE_SIZE, |filtered.value|)
  {
    if fetching then []
    else if filtered.Some? && |filtered.value| > 0 && !seeAll then
      filtered.value[..Min(PAGE_SIZE, |filtered.value|)]
    else if filtered.Some? && |filtered.value| > 0 && seeAll then
      filtered.value
    else
      []
  }

  /** The label of the "see more" / "see less" button, present only when more
      than five comments match and the comments query is not fetching. */
  function ToggleLabel(filtered: Option<seq<Comment>>, seeAll: bool, fetching: bool): (caption: Option<string>)
    ensures caption.Some? <==> !fetching && filtered.Some? && |filtered.value| > PAGE_SIZE
    ensures caption.Some? ==> caption.value == (if seeAll then "see less" else "see more")
  {
    if !fetching && filtered.Some? && |filtered.value| > PAGE_SIZE then
      Some(if seeAll then "see less" else "see more")
    else
      None
  }

  /** Once the comments are loaded and not being refetched, a missing button
      hides nothing: every matching comment is shown whatever the "see all"
      flag says. */
  lemma NothingHiddenWithoutToggle(filtered: Option<seq<Comment>>, seeAll: bool)
    requires filtered.Some? && ToggleLabel(filtered, seeAll, false).None?
    ensures DisplayedComments(filtered, seeAll, false) == filtered.value
  {
    var shown := DisplayedComments(filtered, seeAll, false);
    assert |shown| == |filtered.value|;
  }

  /** The component's state: the comment box and the "see all" flag. */
  class CommentsState {
    const postId: string
    var commentValue: string
    var seeAllComments: bool

    constructor (postId: string)
      ensures this.postId == postId && commentValue == "" && !seeAllComments
    {
      this.postId := postId;
      commentValue := "";
      seeAllComments := false;
    }

    /** The comment box's `onChange`. */
    method SetCommentValue(value: string)
      modifies this`commentValue
      ensures commentValue == value
    {
      commentValue := value;
    }

    /** The comments rendered for the loaded `comments` and the query's
        `isFetching` flag. */
    function Shown(comments: Option<seq<Comment>>, isCommentsFetching: bool): (s: seq<Comment>)
      reads this
      ensures isCommentsFetching || comments.None? ==> s == []
      ensures forall c :: c in s ==> comments.Some? && c in comments.value && c.postId == postId
      ensures !isCommentsFetching && comments.Some? && !seeAllComments ==>
                |s| == Min(PAGE_SIZE, Lists.Count(comments.value, OnPost(postId)))
    {
      DisplayedComments(FilteredComments(comments, postId), seeAllComments, isCommentsFetching)
    }

    /** `createNewComment`, given what the awaited create call produced: the
        request carries the box's text; a created comment clears the box and
        is returned, a falsy or rejected one throws and leaves the box as is. */
    method CreateNewComment(commenter: string, created: Response<Comment>)
      returns (completion: Completion<Comment>, request: CommentRequest)
      modifies this`commentValue
      ensures request == CommentRequest(postId, old(commentValue), commenter)
      ensures created.Succeeded() ==> completion == Returned(created.result.value) && commentValue == ""
      ensures !created.Succeeded() ==> completion == Threw && commentValue == old(commentValue)
    {
      request := CommentRequest(postId, commentValue, commenter);
      if !created.Succeeded() {
        completion := Threw;
        return;
      }
      commentValue := "";
      completion := Returned(created.result.value);
    }

    /** The button's `onClick`: flips "see all". */
    method ToggleSeeAll()
      modifies this`seeAllComments
      ensures seeAllComments == !old(seeAllComments)
    {
      seeAllComments := !seeAllComments;
    }
  }
}
