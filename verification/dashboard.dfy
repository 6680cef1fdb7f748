/** The dashboard feed: the loaded posts, the title search, the "Load More"
    counter, and the list updates the cards report back. */
module DashboardPage {
  import opened Posts
  import opened JsText
  import PostCardView

  /** `a` is `b` with some entries left out, the rest in their order. */
  ghost predicate IsSubsequence<T>(a: seq<T>, b: seq<T>)
    decreases |b|
  {
    || a == []
    || (b != [] && ((a[0] == b[0] && IsSubsequence(a[1..], b[1..])) || IsSubsequence(a, b[1..])))
  }

  /** `Array.prototype.filter`: the kept entries, in order, each as often as in `s`. */
  function Filter<T(==,!new)>(s: seq<T>, keep: T -> bool): (r: seq<T>)
    ensures IsSubsequence(r, s)
    ensures forall x :: x in r <==> x in s && keep(x)
    ensures forall x :: multiset(r)[x] == if keep(x) then multiset(s)[x] else 0
  {
    if s == [] then []
    else
      var rest := Filter(s[1..], keep);
      assert s == [s[0]] + s[1..];
      if keep(s[0]) then
        assert ([s[0]] + rest)[1..] == rest;
        [s[0]] + rest
      else
        rest
  }

  /** Keeping every entry changes nothing. */
  lemma {:induction false} FilterKeepsAll<T(!new)>(s: seq<T>, keep: T -> bool)
    requires forall x :: x in s ==> keep(x)
    ensures Filter(s, keep) == s
  {
    if s != [] {
      FilterKeepsAll(s[1..], keep);
    }
  }

  /** `p.title.toLowerCase().includes(search.toLowerCase())` */
  predicate TitleMatches(p: Post, search: string) {
    Includes(ToLower(p.title), ToLower(search))
  }

  /** `filteredPosts` */
  function FilterByTitle(posts: seq<Post>, search: string): (r: seq<Post>)
    ensures IsSubsequence(r, posts)
    ensures forall p :: p in r <==> p in posts && TitleMatches(p, search)
    ensures forall p :: multiset(r)[p] == if TitleMatches(p, search) then multiset(posts)[p] else 0
  {
    Filter(posts, p => TitleMatches(p, search))
  }

  /** An empty search shows every post. */
  lemma EmptySearchKeepsAll(posts: seq<Post>)
    ensures FilterByTitle(posts, "") == posts
  {
    forall p | p in posts ensures TitleMatches(p, "") {
      IncludesEmpty(ToLower(p.title));
    }
    FilterKeepsAll(posts, p => TitleMatches(p, ""));
  }

  /** The search finds nothing exactly when no title matches. */
  lemma FilterEmptyIff(posts: seq<Post>, search: string)
    ensures FilterByTitle(posts, search) == [] <==> forall p :: p in posts ==> !TitleMatches(p, search)
  {
    var r := FilterByTitle(posts, search);
    if r != [] {
      assert r[0] in r;
    }
  }

  /** `onUpdate`: `posts.map((post) => post._id === updatedPost._id ? updatedPost : post)` */
  function ReplaceById(posts: seq<Post>, updated: Post): (r: seq<Post>)
    ensures |r| == |posts|
    ensures forall i :: 0 <= i < |posts| ==> r[i] == if posts[i].id == updated.id then updated else posts[i]
  {
    if posts == [] then []
    else [if posts[0].id == updated.id then updated else posts[0]] + ReplaceById(posts[1..], updated)
  }

  /** The posts' ids, in order. */
  function Ids(posts: seq<Post>): seq<PostId> {
    seq(|posts|, i requires 0 <= i < |posts| => posts[i].id)
  }

  /** An update keeps the list's ids, in order. */
  lemma ReplaceKeepsIds(posts: seq<Post>, updated: Post)
    ensures Ids(ReplaceById(posts, updated)) == Ids(posts)
  {
  }

  /** An update whose id is not in the list leaves it as it was. */
  lemma ReplaceUnknownId(posts: seq<Post>, updated: Post)
    requires forall p :: p in posts ==> p.id != updated.id
    ensures ReplaceById(posts, updated) == posts
  {
  }

  /** Reporting the same update twice is the same as reporting it once. */
  lemma ReplaceIdempotent(posts: seq<Post>, updated: Post)
    ensures ReplaceById(ReplaceById(posts, updated), updated) == ReplaceById(posts, updated)
  {
  }

  /** `onDelete`: `posts.filter((post) => post._id !== id)` */
  function RemoveById(posts: seq<Post>, id: PostId): (r: seq<Post>)
    ensures IsSubsequence(r, posts)
    ensures forall p :: p in r ==> p.id != id
    ensures forall p: Post :: p.id != id ==> multiset(r)[p] == multiset(posts)[p]
  {
    Filter(posts, (p: Post) => p.id != id)
  }

  /** Deleting an id that is not in the list leaves it as it was. */
  lemma RemoveAbsentId(posts: seq<Post>, id: PostId)
    requires forall p :: p in posts ==> p.id != id
    ensures RemoveById(posts, id) == posts
  {
    FilterKeepsAll(posts, (p: Post) => p.id != id);
  }

  /** Deleting a post after updating it is the same as deleting it outright. */
  lemma {:induction false} RemoveAfterReplace(posts: seq<Post>, updated: Post)
    ensures RemoveById(ReplaceById(posts, updated), updated.id) == RemoveById(posts, updated.id)
  {
    if posts != [] {
      RemoveAfterReplace(posts[1..], updated);
      var replaced := ReplaceById(posts, updated);
      assert replaced[1..] == ReplaceById(posts[1..], updated);
    }
  }

  /** The ids are pairwise distinct. */
  ghost predicate UniqueIds(posts: seq<Post>) {
    forall i, j :: 0 <= i < j < |posts| ==> posts[i].id != posts[j].id
  }

  /** A card's merged response, applied to the list, changes only that card's
      entry, to the response with the entry's own author. */
  lemma CardUpdateKeepsAuthors(posts: seq<Post>, i: nat, response: Post)
    requires UniqueIds(posts) && i < |posts| && response.id == posts[i].id
    ensures var r := ReplaceById(posts, PostCardView.Merge(posts[i], response));
      && r[i] == response.(author := posts[i].author)
      && forall j :: 0 <= j < |posts| ==> r[j].author == posts[j].author && (j != i ==> r[j] == posts[j])
  {
  }

  const PageSize := 6

  /** `filteredPosts.slice(0, visiblePosts)`: a prefix of the filtered posts, as
      long as the counter allows. */
  function VisibleSlice(filtered: seq<Post>, count: nat): (r: seq<Post>)
    ensures r <= filtered
    ensures |r| == if count < |filtered| then count else |filtered|
  {
    if count < |filtered| then filtered[..count] else filtered
  }

  /** A larger counter shows an extension of what a smaller one showed. */
  lemma VisibleSliceMonotone(filtered: seq<Post>, a: nat, b: nat)
    requires a <= b
    ensures VisibleSlice(filtered, a) <= VisibleSlice(filtered, b)
  {
  }

  /** "Load More" is offered exactly when some filtered post is not shown. */
  lemma LoadMoreOfferedIffHidden(filtered: seq<Post>, count: nat)
    ensures count < |filtered| <==> |VisibleSlice(filtered, count)| < |filtered|
  {
  }

  datatype FeedView = LoadingPosts | Feed(cards: seq<Post>, loadMore: bool) | NoPosts

  class Dashboard {
    var posts: seq<Post>
    var loading: bool
    var search: string
    var visiblePosts: nat

    /** The counter is a positive multiple of the page size. */
    ghost predicate Valid()
      reads this
    {
      visiblePosts >= PageSize && visiblePosts % PageSize == 0
    }

    constructor ()
      ensures Valid()
      ensures posts == [] && loading && search == "" && visiblePosts == PageSize
    {
      posts := [];
      loading := true;
      search := "";
      visiblePosts := PageSize;
    }

    /** The `GET /posts` effect settles: a response replaces the list, a failure
        keeps it; either way loading ends. */
    method FinishLoading(outcome: Outcome<seq<Post>>)
      modifies this
      ensures !loading
      ensures outcome.Success? ==> posts == outcome.data
      ensures outcome.Failure? ==> posts == old(posts)
      ensures search == old(search) && visiblePosts == old(visiblePosts)
    {
      if outcome.Success? {
        posts := outcome.data;
      }
      loading := false;
    }

    /** Typing in the search box; the counter is not reset. */
    method SetSearch(text: string)
      modifies this`search
      ensures search == text
    {
      search := text;
    }

    /** "Load More" adds one page to the counter. */
    method LoadMore()
      requires Valid()
      modifies this`visiblePosts
      ensures Valid()
      ensures visiblePosts == old(visiblePosts) + PageSize
    {
      visiblePosts := visiblePosts + PageSize;
    }

    method OnUpdate(updated: Post)
      modifies this`posts
      ensures posts == ReplaceById(old(posts), updated)
    {
      posts := ReplaceById(posts, updated);
    }

    method OnDelete(id: PostId)
      modifies this`posts
      ensures posts == RemoveById(old(posts), id)
    {
      posts := RemoveById(posts, id);
    }

    function Filtered(): seq<Post>
      reads this
    {
      FilterByTitle(posts, search)
    }

    /** The cards rendered: the first `min(visiblePosts, |filtered|)` filtered posts. */
    function Cards(): (cards: seq<Post>)
      reads this
      ensures cards <= Filtered()
      ensures |cards| == if visiblePosts < |Filtered()| then visiblePosts else |Filtered()|
    {
      VisibleSlice(Filtered(), visiblePosts)
    }

    function LoadMoreOffered(): (offered: bool)
      reads this
      ensures offered <==> |Cards()| < |Filtered()|
    {
      visiblePosts < |Filtered()|
    }

    /** The feed: a loading line, then the cards (with "Load More" when some are
        hidden), or the empty state when the search finds nothing. */
    function View(): (v: FeedView)
      reads this
      ensures v == LoadingPosts <==> loading
      ensures v == NoPosts <==> !loading && Filtered() == []
      ensures v.Feed? ==> v.cards == Cards() && v.loadMore == LoadMoreOffered()
    {
      var filtered := Filtered();
      if loading then LoadingPosts
      else if filtered != [] then Feed(Cards(), LoadMoreOffered())
      else NoPosts
    }
  }
}
