/** The replies under one comment (replies.tsx): the loaded replies filtered
    down to the comment, their count, and the delete control that shows only
    on the viewer's own reply while the pointer is over it. */
module Replies {
  import opened Common
  import Lists

  /** A reply document; `commentId` names its parent comment and `replierId`
      is its `replier.$id`. */
  datatype ReplyDoc = ReplyDoc(id: string, commentId: string, replierId: string, text: string)

  /** The predicate of `filter((reply) => reply.commentId === comment.$id)`. */
  function OnComment(commentId: string): ReplyDoc -> bool {
    (r: ReplyDoc) => r.commentId == commentId
  }

  /** `filteredReplies`: undefined while the replies are not loaded, otherwise
      exactly the replies to this comment, in their loaded order. */
  function FilteredReplies(replies: Option<seq<ReplyDoc>>, commentId: string): (r: Option<seq<ReplyDoc>>)
    ensures r.Some? <==> replies.Some?
    ensures r.Some? ==> forall x :: x in r.value <==> x in replies.value && x.commentId == commentId
  {
    match replies
    case None => None
    case Some(rs) =>
      Lists.FilterMembers(rs, OnComment(commentId));
      Some(Lists.Filter(rs, OnComment(commentId)))
  }

  /** The number beside the reply icon: how many loaded replies answer this
      comment (nothing is rendered while the replies are undefined). */
  function ReplyCount(replies: Option<seq<ReplyDoc>>, commentId: string): (n: Option<nat>)
    ensures n.Some? <==> replies.Some?
    ensures n.Some? ==> n.value == Lists.Count(replies.value, OnComment(commentId))
  {
    match FilteredReplies(replies, commentId)
    case None => None
    case Some(fs) => Some(|fs|)
  }

  /** The delete control of a reply: something is rendered exactly when the
      viewer wrote the reply and it is the hovered one; it is the spinner while
      a reply delete is pending and the button otherwise. */
  function DeleteControlShown(reply: ReplyDoc, userId: string, hoveredReply: string,
                              isDeletingReply: bool): (c: DeleteControl)
    ensures c != NoControl <==> reply.replierId == userId && reply.id == hoveredReply
    ensures c == Spinner <==> c != NoControl && isDeletingReply
    ensures c == DeleteButton <==> c != NoControl && !isDeletingReply
  {
    if reply.replierId == userId && hoveredReply == reply.id then
      (if isDeletingReply then Spinner else DeleteButton)
    else
      NoControl
  }

  /** Reply ids are unique within a list. */
  predicate UniqueIds(rs: seq<ReplyDoc>) {
    forall i, j :: 0 <= i < j < |rs| ==> rs[i].id != rs[j].id
  }

  /** With unique reply ids, at most one reply in the list offers the delete
      control at any time. */
  lemma AtMostOneDeleteControl(rs: seq<ReplyDoc>, userId: string, hoveredReply: string,
                               isDeletingReply: bool, i: nat, j: nat)
    requires UniqueIds(rs)
    requires i < |rs| && j < |rs|
    requires DeleteControlShown(rs[i], userId, hoveredReply, isDeletingReply) != NoControl
    requires DeleteControlShown(rs[j], userId, hoveredReply, isDeletingReply) != NoControl
    ensures i == j
  {
  }

  /** `handleDeleteReply`, given what the awaited delete call produced: the
      deleted reply is returned, a falsy or rejected result throws. */
  function HandleDeleteReply(deleted: Response<ReplyDoc>): (c: Completion<ReplyDoc>)
    ensures c.Returned? <==> deleted.Succeeded()
    ensures c.Returned? ==> c.value == deleted.result.value
  {
    match deleted
    case Resolved(Some(reply)) => Returned(reply)
    case Resolved(None) => Threw
    case Rejected => Threw
  }
}
