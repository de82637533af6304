/** The example API's immutable comment pages: `Comment`, `ResponseComment`
    and `ResponseComments` with its two ways of building a new page. */
module Comments {
  import opened Wrappers

  /** Java `long`. */
  newtype Int64 = x: int | -0x8000_0000_0000_0000 <= x < 0x8000_0000_0000_0000

  /** `Comment`: an id and a nullable body. */
  datatype Comment = Comment(id: Int64, body: Option<string>)

  /** `ResponseComment`: the post a new comment was added to, and the comment. */
  datatype ResponseComment = ResponseComment(postGuid: string, comment: Comment)

  /** `ResponseComments`: one post's comments, oldest page first, and the
      token of the next page (null when there is none). */
  datatype ResponseComments = ResponseComments(postGuid: string, comments: seq<Comment>, nextToken: Option<string>)

  /** `newWithAppended(oldData, moreData)`: the pages of one post joined,
      taking the next token of the later page; refused with an
      `IllegalStateException` when the post guids differ. */
  function NewWithAppended(oldData: ResponseComments, moreData: ResponseComments): (r: Result<ResponseComments>)
    ensures r.Failure? <==> oldData.postGuid != moreData.postGuid
    ensures r.Failure? ==> r.error == IllegalState(GuidMismatch)
    ensures r.Success? ==>
      && |r.value.comments| == |oldData.comments| + |moreData.comments|
      && r.value.comments[..|oldData.comments|] == oldData.comments
      && r.value.comments[|oldData.comments|..] == moreData.comments
      && r.value.postGuid == oldData.postGuid
      && r.value.nextToken == moreData.nextToken
  {
    if oldData.postGuid != moreData.postGuid then Failure(IllegalState(GuidMismatch))
    else Success(ResponseComments(oldData.postGuid, oldData.comments + moreData.comments, moreData.nextToken))
  }

  /** `newWithaddedComment(oldData, comment)`: the new comment in front of
      the unchanged list, with the post guid and next token kept. */
  function NewWithAddedComment(oldData: ResponseComments, c: Comment): (r: ResponseComments)
    ensures |r.comments| == |oldData.comments| + 1
    ensures r.comments[0] == c && r.comments[1..] == oldData.comments
    ensures r.postGuid == oldData.postGuid && r.nextToken == oldData.nextToken
  {
    ResponseComments(oldData.postGuid, [c] + oldData.comments, oldData.nextToken)
  }

  /** Appending two further pages one at a time is appending their join. */
  lemma AppendAssociative(x: ResponseComments, a: ResponseComments, b: ResponseComments)
    requires x.postGuid == a.postGuid == b.postGuid
    ensures NewWithAppended(a, b).Success? && NewWithAppended(x, a).Success?
    ensures NewWithAppended(NewWithAppended(x, a).value, b) == NewWithAppended(x, NewWithAppended(a, b).value)
  {
    assert (x.comments + a.comments) + b.comments == x.comments + (a.comments + b.comments);
  }

  /** A comment added in front survives loading more pages, and adding it
      before or after the load gives the same page. */
  lemma AddedCommentCommutesWithAppend(x: ResponseComments, c: Comment, moreData: ResponseComments)
    requires x.postGuid == moreData.postGuid
    ensures NewWithAppended(NewWithAddedComment(x, c), moreData).Success?
    ensures NewWithAppended(NewWithAddedComment(x, c), moreData) == Success(NewWithAddedComment(NewWithAppended(x, moreData).value, c))
  {
    assert ([c] + x.comments) + moreData.comments == [c] + (x.comments + moreData.comments);
  }

  /** Appending an empty page of the same post with the same token changes nothing. */
  lemma AppendEmptyPage(x: ResponseComments)
    ensures NewWithAppended(x, ResponseComments(x.postGuid, [], x.nextToken)) == Success(x)
  {
    assert x.comments + [] == x.comments;
  }

  /** Adding a comment always yields a page different from the input, which stays as it was. */
  lemma AddedCommentIsNew(x: ResponseComments, c: Comment)
    ensures NewWithAddedComment(x, c) != x
    ensures NewWithAddedComment(x, c).comments[1..] == x.comments
  {
    assert |NewWithAddedComment(x, c).comments| != |x.comments|;
  }
}
