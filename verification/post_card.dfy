/** One post in the dashboard feed. The card keeps its own reaction, like count,
    comment draft and edit form; each request's response is merged into the
    post it hands to the dashboard, keeping the author the card already knew. */
module PostCardView {
  import opened Posts
  import opened JsText

  /** `{ ...res.data, author: post.author }`: every field from the response
      except the author, which is the previous post's. */
  function Merge(previous: Post, response: Post): (merged: Post)
    ensures merged.author == previous.author
    ensures merged.(author := response.author) == response
  {
    response.(author := previous.author)
  }

  /** The post after a run of responses, each merged into the result of the
      previous ones (the card's prop is replaced by every merge it reports). */
  function MergeAll(previous: Post, responses: seq<Post>): Post
    decreases |responses|
  {
    if responses == [] then previous
    else MergeAll(Merge(previous, responses[0]), responses[1..])
  }

  /** However many interactions happen, the author is the one first known and
      everything else is the last response's. */
  lemma {:induction false} MergeAllKeepsAuthor(previous: Post, responses: seq<Post>)
    ensures MergeAll(previous, responses).author == previous.author
    ensures responses != [] ==>
      MergeAll(previous, responses).(author := responses[|responses| - 1].author) == responses[|responses| - 1]
    decreases |responses|
  {
    if responses != [] {
      MergeAllKeepsAuthor(Merge(previous, responses[0]), responses[1..]);
      if |responses| > 1 {
        assert responses[1..][|responses[1..]| - 1] == responses[|responses| - 1];
      }
    }
  }

  const PreviewLength := 120
  const Ellipsis := "..."

  /** The "See More" button is shown when the content is over 120 characters. */
  predicate HasSeeMore(content: string) {
    |content| > PreviewLength
  }

  /** `contentPreview`: the whole content when expanded or short enough, else
      its first 120 characters followed by "...". */
  function ContentPreview(content: string, expanded: bool): (preview: string)
    ensures expanded || !HasSeeMore(content) ==> preview == content
    ensures !expanded && HasSeeMore(content) ==>
      |preview| == PreviewLength + 3 && preview[..PreviewLength] == content[..PreviewLength]
      && preview[PreviewLength..] == Ellipsis
    ensures !expanded ==> |preview| <= PreviewLength + 3
  {
    if expanded then content
    else if |content| > PreviewLength then content[..PreviewLength] + Ellipsis
    else content
  }

  /** Without a "See More" button the expanded flag changes nothing shown. */
  lemma ShortContentIgnoresExpanded(content: string)
    requires !HasSeeMore(content)
    ensures ContentPreview(content, true) == ContentPreview(content, false) == content
  {
  }

  /** `currentUserId === post.author?._id` as written: for a post without an
      author the right side is `undefined`, which equals the `currentUserId` of a
      token that decodes without an id. */
  function OwnerControlsAsWritten(user: SessionUser, author: Option<Author>): (shown: bool)
    ensures shown <==>
      || (user.User? && author.Some? && author.value.id == user.id)
      || (user == NoIdInToken && author.None?)
  {
    match author
    case None => user == NoIdInToken
    case Some(a) => user == User(a.id)
  }

  /** The as-written check shows the Edit and Delete buttons on an authorless
      post to a session whose token carries no id. */
  lemma AuthorlessPostOwnedByIdlessToken()
    ensures OwnerControlsAsWritten(NoIdInToken, None)
    ensures !OwnerControls(NoIdInToken, None)
  {
  }

  /** The intended owner check: the controls are shown exactly to the signed-in
      user whose id is the author's. */
  function OwnerControls(user: SessionUser, author: Option<Author>): (shown: bool)
    ensures shown <==> user.User? && author.Some? && author.value.id == user.id
    ensures shown ==> OwnerControlsAsWritten(user, author)
  {
    author.Some? && user == User(author.value.id)
  }

  /** The two checks differ only on that one input. */
  lemma OwnerChecksAgreeElsewhere(user: SessionUser, author: Option<Author>)
    requires !(user == NoIdInToken && author == None)
    ensures OwnerControlsAsWritten(user, author) == OwnerControls(user, author)
  {
  }

  datatype EditForm = EditForm(title: string, content: string)

  /** The card's state and handlers. Each handler can be called in any state:
      the buttons that reach them are only rendered with the comment box open
      (`HandleComment`), in edit mode (`HandleEdit`), for long content
      (`ToggleExpanded`) or behind the owner check (`StartEdit`, `Delete`, whose
      preconditions say so), but the handlers themselves do not test this. */
  class PostCard {
    /** The `post` prop as last rendered by the dashboard. */
    var post: Post
    const user: SessionUser
    var reaction: Option<ReactionType>
    var likesCount: nat
    var comment: string
    var showCommentBox: bool
    var editMode: bool
    var form: EditForm
    var expanded: bool

    /** Mounting: the state's initial values, then the reaction effect. */
    constructor (post: Post, user: SessionUser)
      ensures this.post == post && this.user == user
      ensures reaction == SyncedReaction(post.likes, user, None)
      ensures likesCount == Count(post.likes)
      ensures comment == "" && !showCommentBox && !editMode && !expanded
      ensures form == EditForm(post.title, post.content)
    {
      this.post := post;
      this.user := user;
      reaction := SyncedReaction(post.likes, user, None);
      likesCount := Count(post.likes);
      comment := "";
      showCommentBox := false;
      editMode := false;
      form := EditForm(post.title, post.content);
      expanded := false;
    }

    /** A re-render with a new `post` prop. Only the reaction effect, which
        depends on `post.likes`, runs again; the like count and the edit form keep
        their state. */
    method ReceivePost(next: Post)
      modifies this
      ensures post == next
      ensures reaction == if next.likes != old(post.likes)
        then SyncedReaction(next.likes, user, old(reaction)) else old(reaction)
      ensures likesCount == old(likesCount) && comment == old(comment) && form == old(form)
      ensures showCommentBox == old(showCommentBox) && editMode == old(editMode)
      ensures expanded == old(expanded)
    {
      if next.likes != post.likes {
        reaction := SyncedReaction(next.likes, user, reaction);
      }
      post := next;
    }

    /** `handleReaction(type)`: sends the toggled reaction; on success takes the
        toggled reaction and the response's like count and reports the merged
        post. A response without `likes` throws at `res.data.likes.length`, after
        the reaction was set and before the count and the report. */
    method HandleReaction(pressed: ReactionType, outcome: Outcome<Post>)
      returns (request: Request, update: Option<Post>)
      modifies this
      ensures request == ReactRequest(post.id, Toggle(old(reaction), pressed))
      ensures outcome.Failure? ==> reaction == old(reaction) && likesCount == old(likesCount) && update == None
      ensures outcome.Success? ==> reaction == Toggle(old(reaction), pressed)
      ensures outcome.Success? && outcome.data.likes.Some? ==>
        likesCount == |outcome.data.likes.value| && update == Some(Merge(post, outcome.data))
      ensures outcome.Success? && outcome.data.likes.None? ==> likesCount == old(likesCount) && update == None
      ensures post == old(post) && comment == old(comment) && form == old(form)
      ensures showCommentBox == old(showCommentBox) && editMode == old(editMode)
      ensures expanded == old(expanded)
    {
      var next := Toggle(reaction, pressed);
      request := ReactRequest(post.id, next);
      update := None;
      match outcome {
        case Failure =>
        case Success(response) =>
          reaction := next;
          if response.likes.Some? {
            likesCount := |response.likes.value|;
            update := Some(Merge(post, response));
          }
      }
    }

    method SetComment(text: string)
      modifies this`comment
      ensures comment == text
    {
      comment := text;
    }

    method ToggleCommentBox()
      modifies this`showCommentBox
      ensures showCommentBox == !old(showCommentBox)
    {
      showCommentBox := !showCommentBox;
    }

    /** `handleComment`: sends the draft as it is (the card has no empty-text
        guard); on success clears the draft, closes the box and reports the
        merged post. */
    method HandleComment(outcome: Outcome<Post>) returns (request: Request, update: Option<Post>)
      modifies this
      ensures request == CommentRequest(post.id, old(comment))
      ensures outcome.Success? ==>
        comment == "" && !showCommentBox && update == Some(Merge(post, outcome.data))
      ensures outcome.Failure? ==>
        comment == old(comment) && showCommentBox == old(showCommentBox) && update == None
      ensures post == old(post) && reaction == old(reaction) && likesCount == old(likesCount)
      ensures form == old(form) && editMode == old(editMode) && expanded == old(expanded)
    {
      request := CommentRequest(post.id, comment);
      update := None;
      if outcome.Success? {
        comment := "";
        showCommentBox := false;
        update := Some(Merge(post, outcome.data));
      }
    }

    /** The Edit button, shown where the card's owner check passes. */
    method StartEdit()
      requires OwnerControlsAsWritten(user, post.author)
      modifies this`editMode
      ensures editMode
    {
      editMode := true;
    }

    method CancelEdit()
      modifies this`editMode
      ensures !editMode
    {
      editMode := false;
    }

    method SetForm(title: string, content: string)
      modifies this`form
      ensures form == EditForm(title, content)
    {
      form := EditForm(title, content);
    }

    /** `handleEdit`: both inputs are `required`, so the form is not submitted
        while either is empty; otherwise sends the form and on success reports
        the merged post and leaves edit mode. */
    method HandleEdit(outcome: Outcome<Post>) returns (request: Option<Request>, update: Option<Post>)
      modifies this
      ensures form.title == "" || form.content == "" ==> request == None && update == None && editMode == old(editMode)
      ensures form.title != "" && form.content != "" ==>
        && request == Some(EditRequest(post.id, form.title, form.content))
        && (outcome.Success? ==> update == Some(Merge(post, outcome.data)) && !editMode)
        && (outcome.Failure? ==> update == None && editMode == old(editMode))
      ensures post == old(post) && form == old(form) && reaction == old(reaction)
      ensures likesCount == old(likesCount) && comment == old(comment)
      ensures showCommentBox == old(showCommentBox) && expanded == old(expanded)
    {
      request, update := None, None;
      if form.title == "" || form.content == "" {
        return;
      }
      request := Some(EditRequest(post.id, form.title, form.content));
      if outcome.Success? {
        update := Some(Merge(post, outcome.data));
        editMode := false;
      }
    }

    /** The Delete button, shown where the card's owner check passes: nothing is
        sent unless the user confirms, and the dashboard is told of the deletion
        only once the request has succeeded. The card's own state does not change. */
    method Delete(confirmed: bool, outcome: Outcome<()>) returns (request: Option<Request>, deleted: Option<PostId>)
      requires OwnerControlsAsWritten(user, post.author)
      ensures request.Some? <==> confirmed
      ensures request.Some? ==> request.value == DeleteRequest(post.id)
      ensures deleted.Some? <==> confirmed && outcome.Success?
      ensures deleted.Some? ==> deleted.value == post.id
    {
      request, deleted := None, None;
      if !confirmed {
        return;
      }
      request := Some(DeleteRequest(post.id));
      if outcome.Success? {
        deleted := Some(post.id);
      }
    }

    method ToggleExpanded()
      modifies this`expanded
      ensures expanded == !old(expanded)
    {
      expanded := !expanded;
    }

    /** The text shown for the content. */
    function Preview(): (preview: string)
      reads this
      ensures expanded ==> preview == post.content
      ensures !expanded ==> |preview| <= PreviewLength + 3
    {
      ContentPreview(post.content, expanded)
    }

    /** The Edit and Delete buttons, behind the check as the card writes it: the
        owner sees them, and so does a token without an id on an authorless post. */
    function ShowsOwnerControls(): (shown: bool)
      reads this
      ensures shown <==> OwnerControls(user, post.author) || (user == NoIdInToken && post.author.None?)
    {
      OwnerControlsAsWritten(user, post.author)
    }
  }
}
