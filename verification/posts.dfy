/** The entities the card, the dashboard and the detail view share: a post as the
    server returns it, the reaction types, who is signed in, the requests the
    components send and the outcome of a request. Also the rules that both the
    card and the detail view apply: the reaction toggle, the lookup of the
    user's existing reaction, and the `xs?.length || 0` counts. */
module Posts {

  datatype Option<+T> = None | Some(value: T)

  type PostId = string
  type UserId = string

  datatype ReactionType = Like | Love | Laugh

  datatype Author = Author(id: UserId, name: string)

  /** One entry of a post's `likes` list: who reacted, and how. */
  datatype Reaction = Reaction(user: UserId, kind: ReactionType)

  datatype Comment = Comment(text: string, user: Option<Author>)

  /** A post. `author`, `likes` and `comments` may be missing from a server
      response, and the components read them with optional chaining. */
  datatype Post = Post(
    id: PostId,
    title: string,
    content: string,
    author: Option<Author>,
    likes: Option<seq<Reaction>>,
    comments: Option<seq<Comment>>)

  /** The value of `currentUserId`: `null` when there is no token (or it does not
      decode), `undefined` when the decoded token carries no id, else the id. */
  datatype SessionUser = NoSession | NoIdInToken | User(id: UserId)

  /** What a request to the server came back with. */
  datatype Outcome<+T> = Success(data: T) | Failure

  /** The requests the components issue. */
  datatype Request =
    | RegisterRequest(name: string, email: string, password: string)
    | ReactRequest(postId: PostId, kind: Option<ReactionType>)
    | CommentRequest(postId: PostId, text: string)
    | EditRequest(postId: PostId, title: string, content: string)
    | DeleteRequest(postId: PostId)

  /** `xs?.length || 0`. */
  function Count<T>(xs: Option<seq<T>>): (n: nat)
    ensures xs.None? ==> n == 0
    ensures xs.Some? ==> n == |xs.value|
  {
    match xs
    case None => 0
    case Some(s) => |s|
  }

  /** `reaction === type ? null : type`. */
  function Toggle(current: Option<ReactionType>, pressed: ReactionType): (next: Option<ReactionType>)
    ensures next == None <==> current == Some(pressed)
    ensures next != None ==> next == Some(pressed)
  {
    if current == Some(pressed) then None else Some(pressed)
  }

  /** Pressing the same button twice clears a reaction set by the first press,
      and restores one the first press cleared. */
  lemma ToggleTwice(current: Option<ReactionType>, pressed: ReactionType)
    ensures Toggle(Toggle(current, pressed), pressed) == if current == Some(pressed) then current else None
  {
  }

  /** `like.user === currentUserId`: a like's user is always a string, so it
      never equals `null` or `undefined`. */
  predicate ByUser(r: Reaction, user: SessionUser) {
    user == User(r.user)
  }

  /** Index `i` holds the first like by `user`. */
  predicate IsFirstByUser(likes: seq<Reaction>, user: SessionUser, i: int) {
    0 <= i < |likes| && ByUser(likes[i], user) && forall j :: 0 <= j < i ==> !ByUser(likes[j], user)
  }

  /** `likes.find((like) => like.user === currentUserId)`. */
  function FindByUser(likes: seq<Reaction>, user: SessionUser): (found: Option<Reaction>)
    ensures found.None? <==> forall i :: 0 <= i < |likes| ==> !ByUser(likes[i], user)
    ensures found.Some? ==> exists i :: IsFirstByUser(likes, user, i) && likes[i] == found.value
  {
    if likes == [] then None
    else if ByUser(likes[0], user) then
      assert IsFirstByUser(likes, user, 0);
      Some(likes[0])
    else
      var rest := FindByUser(likes[1..], user);
      assert forall i :: 1 <= i < |likes| ==> likes[i] == likes[1..][i - 1];
      if rest.Some? then
        var k :| IsFirstByUser(likes[1..], user, k) && likes[1..][k] == rest.value;
        assert IsFirstByUser(likes, user, k + 1);
        rest
      else
        rest
  }

  /** The effect that runs when the likes are (re)loaded:
      `const u = likes?.find(...); if (u) setReaction(u.type)`. A match sets the
      reaction to the first matching like's type; otherwise the reaction is kept. */
  function SyncedReaction(likes: Option<seq<Reaction>>, user: SessionUser, current: Option<ReactionType>)
    : (r: Option<ReactionType>)
    ensures likes.None? ==> r == current
    ensures likes.Some? && (forall i :: 0 <= i < |likes.value| ==> !ByUser(likes.value[i], user)) ==> r == current
    ensures likes.Some? ==> forall i :: IsFirstByUser(likes.value, user, i) ==> r == Some(likes.value[i].kind)
  {
    match likes
    case None => current
    case Some(ls) =>
      match FindByUser(ls, user)
      case None => current
      case Some(like) =>
        FirstByUserUnique(ls, user);
        Some(like.kind)
  }

  /** There is at most one first match. */
  lemma FirstByUserUnique(likes: seq<Reaction>, user: SessionUser)
    ensures forall i, j :: IsFirstByUser(likes, user, i) && IsFirstByUser(likes, user, j) ==> i == j
  {
  }

  /** A session without an id, or without a token, never finds a reaction. */
  lemma NoIdFindsNothing(likes: Option<seq<Reaction>>, user: SessionUser, current: Option<ReactionType>)
    requires !user.User?
    ensures SyncedReaction(likes, user, current) == current
  {
  }
}
