/** The page for a single post. Unlike the card, it replaces its post with each
    server response wholesale: whatever author the response carries, or lacks, is
    what the page then shows. */
module PostDetailsPage {
  import opened Posts
  import opened JsText

  /** `if (!comment.trim()) return;`: a comment is sent only when it has some
      character that is not whitespace. */
  function AcceptsComment(text: string): (accepted: bool)
    ensures accepted <==> !IsBlank(text)
    ensures text == "" ==> !accepted
  {
    TrimEmptyIffBlank(text);
    Trim(text) != ""
  }

  /** What the page renders. */
  datatype DetailView =
    | LoadingPost
    | NotFound
    | Loaded(post: Post, likeCount: nat, commentCount: nat, reaction: Option<ReactionType>)

  class PostDetails {
    const user: SessionUser
    var post: Option<Post>
    var loading: bool
    var comment: string
    var reaction: Option<ReactionType>

    constructor (user: SessionUser)
      ensures this.user == user
      ensures post == None && loading && comment == "" && reaction == None
    {
      this.user := user;
      post := None;
      loading := true;
      comment := "";
      reaction := None;
    }

    /** The `GET /posts/:id` effect settles. A response becomes the post and its
        likes set the reaction; a failure (a missing post among them) leaves the
        post unset. Loading ends either way. */
    method FinishFetch(outcome: Outcome<Post>)
      modifies this
      ensures !loading && comment == old(comment)
      ensures outcome.Success? ==>
        post == Some(outcome.data) && reaction == SyncedReaction(outcome.data.likes, user, old(reaction))
      ensures outcome.Failure? ==> post == old(post) && reaction == old(reaction)
    {
      if outcome.Success? {
        post := Some(outcome.data);
        reaction := SyncedReaction(outcome.data.likes, user, reaction);
      }
      loading := false;
    }

    method SetComment(text: string)
      modifies this`comment
      ensures comment == text
    {
      comment := text;
    }

    /** `handleReaction(type)`: sends the toggled reaction for the held post; on
        success the response replaces the post as it is and the toggled reaction
        is kept. Without a post, reading `post._id` throws inside the `try`, so
        nothing is sent. */
    method HandleReaction(pressed: ReactionType, outcome: Outcome<Post>) returns (request: Option<Request>)
      modifies this
      ensures old(post).None? ==> request == None && post == old(post) && reaction == old(reaction)
      ensures old(post).Some? ==>
        request == Some(ReactRequest(old(post).value.id, Toggle(old(reaction), pressed)))
      ensures old(post).Some? && outcome.Success? ==>
        post == Some(outcome.data) && reaction == Toggle(old(reaction), pressed)
      ensures outcome.Failure? ==> post == old(post) && reaction == old(reaction)
      ensures loading == old(loading) && comment == old(comment)
    {
      request := None;
      if post.None? {
        return;
      }
      var next := Toggle(reaction, pressed);
      request := Some(ReactRequest(post.value.id, next));
      if outcome.Success? {
        post := Some(outcome.data);
        reaction := next;
      }
    }

    /** `handleComment`: a blank draft sends nothing; otherwise the draft, as
        typed, is sent for the held post, and on success the response replaces
        the post and the draft is cleared. */
    method HandleComment(outcome: Outcome<Post>) returns (request: Option<Request>)
      modifies this
      ensures !AcceptsComment(old(comment)) || old(post).None? ==>
        request == None && post == old(post) && comment == old(comment)
      ensures AcceptsComment(old(comment)) && old(post).Some? ==>
        && request == Some(CommentRequest(old(post).value.id, old(comment)))
        && (outcome.Success? ==> post == Some(outcome.data) && comment == "")
        && (outcome.Failure? ==> post == old(post) && comment == old(comment))
      ensures reaction == old(reaction) && loading == old(loading)
    {
      request := None;
      if !AcceptsComment(comment) {
        return;
      }
      if post.None? {
        return;
      }
      request := Some(CommentRequest(post.value.id, comment));
      if outcome.Success? {
        post := Some(outcome.data);
        comment := "";
      }
    }

    /** Loading first; then "Post not found" while there is no post; otherwise
        the post with its like and comment counts (0 for a missing list). */
    function View(): (v: DetailView)
      reads this
      ensures v == LoadingPost <==> loading
      ensures v == NotFound <==> !loading && post.None?
      ensures v.Loaded? ==> v.post == post.value && v.reaction == reaction
      ensures v.Loaded? ==> v.likeCount == Count(post.value.likes) && v.commentCount == Count(post.value.comments)
    {
      if loading then LoadingPost
      else if post.None? then NotFound
      else Loaded(post.value, Count(post.value.likes), Count(post.value.comments), reaction)
    }
  }

  /** A blank or empty draft is never accepted; a draft with a visible character is. */
  lemma SampleComments()
    ensures !AcceptsComment("") && !AcceptsComment("  \t\n")
    ensures AcceptsComment(" hi ")
  {
    var blank := "  \t\n";
    assert IsBlank(blank) by {
      forall i | 0 <= i < |blank| ensures IsSpace(blank[i]) {
        assert blank[i] == ' ' || blank[i] == '\t' || blank[i] == '\n';
      }
    }
    var word := " hi ";
    assert !IsBlank(word) by {
      assert !IsSpace(word[1]);
    }
  }
}
