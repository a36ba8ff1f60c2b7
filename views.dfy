/** The posts views over an in-memory store: the read-only listings (index,
    group, profile, follow feed), each a filter followed by the shared
    pagination, and the store whose follow, unfollow, create, edit and comment
    views change it. A logged-in requester is a user name that the store
    knows; an anonymous one exists only on the profile page. */
module Views {
  import opened Models
  import opened Pagination
  import opened SocialGraph

  /** `get_object_or_404` either yields its object or a not-found response. */
  datatype Outcome<+T> = Ok(value: T) | NotFound

  /** Where a view redirects to. */
  datatype Location = ProfilePage(username: UserName) | PostDetailPage(pk: PostId)

  /** What a state-changing view answers when it does not fail: a redirect,
      or the post form rendered again (for creating or for editing). */
  datatype Reply = Redirect(to: Location) | FormPage(isEdit: bool)

  /** The context of the profile page. */
  datatype ProfileContext = ProfileContext(page: Page<Post>, following: bool)

  /** The filters the listing views apply to the post table. */
  datatype Query =
    | AuthorIs(author: UserName)
    | InGroup(slug: Slug)
    | AuthorFollowedBy(edges: seq<Follow>, viewer: UserName)

  predicate Matches(q: Query, p: Post)
  {
    match q
    case AuthorIs(a) => p.author == a
    case InGroup(s) => p.group == Some(s)
    case AuthorFollowedBy(edges, v) => IsFollowing(edges, v, p.author)
  }

  /** The posts that match `q`, in table order: every matching post keeps
      its number of occurrences and every other post is dropped. */
  function Select(posts: seq<Post>, q: Query): (r: seq<Post>)
    ensures forall p :: multiset(r)[p] == if Matches(q, p) then multiset(posts)[p] else 0
    ensures forall i :: 0 <= i < |r| ==> Matches(q, r[i]) && r[i] in posts
  {
    if posts == [] then []
    else
      assert posts == [posts[0]] + posts[1..];
      (if Matches(q, posts[0]) then [posts[0]] else []) + Select(posts[1..], q)
  }

  function Repeat(p: Post, n: nat): (r: seq<Post>)
    ensures |r| == n && forall i :: 0 <= i < n ==> r[i] == p
  {
    seq(n, _ => p)
  }

  /** `Post.objects.filter(author__following__user=viewer)` as the join it
      is: each post appears once for every follow row from `viewer` to its
      author. */
  function FeedJoin(posts: seq<Post>, edges: seq<Follow>, viewer: UserName): (r: seq<Post>)
    ensures forall i :: 0 <= i < |r| ==> r[i] in posts && IsFollowing(edges, viewer, r[i].author)
  {
    if posts == [] then []
    else
      var head := Repeat(posts[0], multiset(edges)[Follow(viewer, posts[0].author)]);
      var tail := FeedJoin(posts[1..], edges, viewer);
      assert forall i :: 0 <= i < |tail| ==> tail[i] in posts;
      head + tail
  }

  /** Under the uniqueness of follow rows the join repeats nothing: the
      feed is exactly the posts whose author the viewer follows. */
  lemma {:induction false} FeedIsSelect(posts: seq<Post>, edges: seq<Follow>, viewer: UserName)
    requires UniquePairs(edges)
    ensures FeedJoin(posts, edges, viewer) == Select(posts, AuthorFollowedBy(edges, viewer))
  {
    if posts != [] {
      FeedIsSelect(posts[1..], edges, viewer);
      var f := Follow(viewer, posts[0].author);
      UniquePairsAtMostOnce(edges, f);
      if f in edges {
        assert Repeat(posts[0], 1) == [posts[0]];
      } else {
        assert Repeat(posts[0], 0) == [];
      }
    }
  }

  /** `index`: a page of the whole post table. */
  function IndexView(posts: seq<Post>, param: PageParam): (page: Page<Post>)
    ensures |page.objectList| <= POSTS_ON_PAGE
    ensures forall i :: 0 <= i < |page.objectList| ==> page.objectList[i] in posts
    ensures page.numPages == NumPages(|posts|, POSTS_ON_PAGE)
  {
    Paging(posts, param)
  }

  /** `group_posts`: not found for an unknown slug, otherwise a page of that
      group's posts and of nothing else. */
  function GroupPostsView(groups: set<Slug>, posts: seq<Post>, slug: Slug, param: PageParam): (r: Outcome<Page<Post>>)
    ensures r.NotFound? <==> slug !in groups
    ensures r.Ok? ==> |r.value.objectList| <= POSTS_ON_PAGE
    ensures r.Ok? ==> forall i :: 0 <= i < |r.value.objectList| ==>
      r.value.objectList[i] in posts && r.value.objectList[i].group == Some(slug)
  {
    if slug !in groups then NotFound
    else Ok(Paging(Select(posts, InGroup(slug)), param))
  }

  /** The group page at each number is the page of the group's posts at
      that number, and all those pages together are the group's posts, in
      table order, each once. */
  lemma GroupAllPages(groups: set<Slug>, posts: seq<Post>, slug: Slug)
    requires slug in groups
    ensures var mine := Select(posts, InGroup(slug));
      && (forall k :: 1 <= k <= NumPages(|mine|, POSTS_ON_PAGE) ==>
            GroupPostsView(groups, posts, slug, Number(k)) == Ok(Paging(mine, Number(k)))
            && Paging(mine, Number(k)).objectList == AllPages(mine, POSTS_ON_PAGE)[k - 1])
      && Flatten(AllPages(mine, POSTS_ON_PAGE)) == mine
  {
    var mine := Select(posts, InGroup(slug));
    forall k | 1 <= k <= NumPages(|mine|, POSTS_ON_PAGE)
      ensures Paging(mine, Number(k)).objectList == AllPages(mine, POSTS_ON_PAGE)[k - 1]
    {
      PagingByNumber(mine, k);
    }
    PagesConcatenateToList(mine, POSTS_ON_PAGE);
  }

  /** `profile`: not found for an unknown user, otherwise a page of that
      user's posts and the `following` flag, which holds exactly when the
      viewer is logged in and has a follow row for that user. */
  function ProfileView(users: set<UserName>, posts: seq<Post>, edges: seq<Follow>,
                       viewer: Option<UserName>, username: UserName, param: PageParam): (r: Outcome<ProfileContext>)
    ensures r.NotFound? <==> username !in users
    ensures r.Ok? ==> (r.value.following <==> viewer.Some? && Follow(viewer.value, username) in edges)
    ensures r.Ok? ==> |r.value.page.objectList| <= POSTS_ON_PAGE
    ensures r.Ok? ==> forall i :: 0 <= i < |r.value.page.objectList| ==>
      r.value.page.objectList[i] in posts && r.value.page.objectList[i].author == username
  {
    if username !in users then NotFound
    else
      var following := viewer.Some? && IsFollowing(edges, viewer.value, username);
      Ok(ProfileContext(Paging(Select(posts, AuthorIs(username)), param), following))
  }

  /** The profile page at each number shows the page of the user's posts
      at that number, and all those pages together are the user's posts, in
      table order, each once. */
  lemma ProfileAllPages(users: set<UserName>, posts: seq<Post>, edges: seq<Follow>,
                        viewer: Option<UserName>, username: UserName)
    requires username in users
    ensures var mine := Select(posts, AuthorIs(username));
      && (forall k :: 1 <= k <= NumPages(|mine|, POSTS_ON_PAGE) ==>
            ProfileView(users, posts, edges, viewer, username, Number(k)).Ok?
            && ProfileView(users, posts, edges, viewer, username, Number(k)).value.page == Paging(mine, Number(k))
            && Paging(mine, Number(k)).objectList == AllPages(mine, POSTS_ON_PAGE)[k - 1])
      && Flatten(AllPages(mine, POSTS_ON_PAGE)) == mine
  {
    var mine := Select(posts, AuthorIs(username));
    forall k | 1 <= k <= NumPages(|mine|, POSTS_ON_PAGE)
      ensures Paging(mine, Number(k)).objectList == AllPages(mine, POSTS_ON_PAGE)[k - 1]
    {
      PagingByNumber(mine, k);
    }
    PagesConcatenateToList(mine, POSTS_ON_PAGE);
  }

  /** `follow_index`: a page of the posts whose author the viewer follows. */
  function FollowIndexView(posts: seq<Post>, edges: seq<Follow>, viewer: UserName, param: PageParam): (page: Page<Post>)
    ensures |page.objectList| <= POSTS_ON_PAGE
    ensures forall i :: 0 <= i < |page.objectList| ==>
      page.objectList[i] in posts && IsFollowing(edges, viewer, page.objectList[i].author)
  {
    Paging(FeedJoin(posts, edges, viewer), param)
  }

  /** Read page by page, the follow feed is exactly the viewer's followed
      authors' posts, in table order, each once. */
  lemma FollowFeedAllPages(posts: seq<Post>, edges: seq<Follow>, viewer: UserName)
    requires UniquePairs(edges)
    ensures Flatten(AllPages(FeedJoin(posts, edges, viewer), POSTS_ON_PAGE)) ==
            Select(posts, AuthorFollowedBy(edges, viewer))
  {
    FeedIsSelect(posts, edges, viewer);
    PagesConcatenateToList(FeedJoin(posts, edges, viewer), POSTS_ON_PAGE);
  }

  /** A follower sees a post of the author they follow somewhere in their
      feed; a user without a follow row for that author never does. */
  lemma FeedMembership(posts: seq<Post>, edges: seq<Follow>, viewer: UserName, p: Post)
    requires UniquePairs(edges) && p in posts
    ensures p in FeedJoin(posts, edges, viewer) <==> IsFollowing(edges, viewer, p.author)
  {
    FeedIsSelect(posts, edges, viewer);
    var r := Select(posts, AuthorFollowedBy(edges, viewer));
    assert multiset(r)[p] == if IsFollowing(edges, viewer, p.author) then multiset(posts)[p] else 0;
    assert p in r <==> multiset(r)[p] > 0;
  }

  /** A post just put at the head of the table is the first item of the
      first page of its author's profile. */
  lemma NewPostHeadsProfile(users: set<UserName>, posts: seq<Post>, edges: seq<Follow>,
                            viewer: Option<UserName>, p: Post)
    requires p.author in users
    ensures ProfileView(users, [p] + posts, edges, viewer, p.author, NoPage).Ok?
    ensures var page := ProfileView(users, [p] + posts, edges, viewer, p.author, NoPage).value.page;
      page.number == 1 && |page.objectList| >= 1 && page.objectList[0] == p
  {
    var all := [p] + posts;
    assert all[0] == p && all[1..] == posts;
    var mine := Select(all, AuthorIs(p.author));
    assert mine == [p] + Select(posts, AuthorIs(p.author));
    var page := Paging(mine, NoPage);
    assert page.objectList[0] == mine[0];
  }

  /** The post with primary key `pk`, if any: `get_object_or_404(Post, pk=pk)`. */
  function PostIndex(posts: seq<Post>, pk: PostId): (r: Option<nat>)
    ensures r.Some? ==> r.value < |posts| && posts[r.value].pk == pk
    ensures r.None? ==> forall i :: 0 <= i < |posts| ==> posts[i].pk != pk
  {
    if posts == [] then None
    else if posts[0].pk == pk then Some(0)
    else
      match PostIndex(posts[1..], pk)
      case None => None
      case Some(i) => Some(i + 1)
  }

  /** `form.is_valid()` for the post form: its own fields are valid and the
      chosen group, if any, is an existing group, the only choices the
      form's group field offers. */
  predicate PostFormAccepted(groups: set<Slug>, form: PostForm)
  {
    form.isValid && (form.group.None? || form.group.value in groups)
  }

  /** The primary keys in use. */
  function Pks(posts: seq<Post>): set<PostId>
  {
    set p | p in posts :: p.pk
  }

  /** The database: users and groups (created elsewhere), posts newest
      first, comments oldest first, follow rows, and the next primary key. */
  class Store {
    var users: set<UserName>
    var groups: set<Slug>
    var posts: seq<Post>
    var comments: seq<Comment>
    var follows: seq<Follow>
    var nextPk: PostId

    /** The table constraints: follow rows join two known users, never a
        user to themself, never twice; posts have known authors, existing
        groups and distinct keys below `nextPk`; comments belong to a known user and an existing
        post. */
    ghost predicate Valid()
      reads this
    {
      && NoSelfFollow(follows) && UniquePairs(follows)
      && (forall i :: 0 <= i < |follows| ==> follows[i].user in users && follows[i].author in users)
      && (forall i :: 0 <= i < |posts| ==> posts[i].author in users && posts[i].pk < nextPk)
      && (forall i :: 0 <= i < |posts| ==> posts[i].group.None? || posts[i].group.value in groups)
      && (forall i, j :: 0 <= i < j < |posts| ==> posts[i].pk != posts[j].pk)
      && (forall i :: 0 <= i < |comments| ==> comments[i].author in users && comments[i].post in Pks(posts))
    }

    /** A database with the given users and groups and empty tables. */
    constructor (users: set<UserName>, groups: set<Slug>)
      ensures Valid()
      ensures this.users == users && this.groups == groups
      ensures posts == [] && comments == [] && follows == [] && nextPk == 1
    {
      this.users := users;
      this.groups := groups;
      posts := [];
      comments := [];
      follows := [];
      nextPk := 1;
    }

    /** `profile_follow`: not found for an unknown user; otherwise the
        requester follows them (unless it is the requester themself) and is
        sent to their profile. */
    method ProfileFollow(viewer: UserName, username: UserName) returns (r: Outcome<Reply>)
      requires Valid() && viewer in users
      modifies this`follows
      ensures Valid()
      ensures username !in users ==> r == NotFound && follows == old(follows)
      ensures username in users ==>
        r == Ok(Redirect(ProfilePage(username))) && follows == AfterFollow(old(follows), viewer, username)
    {
      if username !in users {
        return NotFound;
      }
      if viewer != username {
        var row := FindRow(follows, Follow(viewer, username));
        if row.None? {
          follows := follows + [Follow(viewer, username)];
        }
      }
      r := Ok(Redirect(ProfilePage(username)));
    }

    /** `profile_unfollow`: not found for an unknown user or when there is
        no follow row; otherwise that row is deleted and the requester is sent
        to the profile. */
    method ProfileUnfollow(viewer: UserName, username: UserName) returns (r: Outcome<Reply>)
      requires Valid() && viewer in users
      modifies this`follows
      ensures Valid()
      ensures username !in users || !IsFollowing(old(follows), viewer, username) ==>
        r == NotFound && follows == old(follows)
      ensures username in users && IsFollowing(old(follows), viewer, username) ==>
        r == Ok(Redirect(ProfilePage(username))) &&
        follows == AfterUnfollow(old(follows), viewer, username).value
    {
      if username !in users {
        return NotFound;
      }
      var f := Follow(viewer, username);
      var row := FindRow(follows, f);
      match row
      case None =>
        r := NotFound;
      case Some(i) =>
        follows := DeleteRow(follows, i);
        r := Ok(Redirect(ProfilePage(username)));
    }

    /** `post_create`: with a valid form a new post by the requester is put
        at the head of the table under a fresh key and the requester is sent
        to their profile; with a form it rejects (invalid fields or an
        unknown group) nothing changes and the form
        is shown again. */
    method PostCreate(viewer: UserName, form: PostForm) returns (r: Reply)
      requires Valid() && viewer in users
      modifies this`posts, this`nextPk
      ensures Valid()
      ensures PostFormAccepted(groups, form) ==>
        && r == Redirect(ProfilePage(viewer))
        && old(nextPk) !in Pks(old(posts))
        && posts == [Post(old(nextPk), viewer, form.text, form.group)] + old(posts)
        && nextPk == old(nextPk) + 1
      ensures !PostFormAccepted(groups, form) ==> r == FormPage(false) && posts == old(posts) && nextPk == old(nextPk)
    {
      if !PostFormAccepted(groups, form) {
        return FormPage(false);
      }
      PksBelow(posts, nextPk);
      var post := Post(nextPk, viewer, form.text, form.group);
      KeysAfterPrepend(post, posts);
      posts := [post] + posts;
      nextPk := nextPk + 1;
      r := Redirect(ProfilePage(viewer));
    }

    /** `post_edit`: not found for an unknown key; a requester who is not
        the author is sent to the post unchanged; the author with a valid
        form gets the post's text and group replaced (key and author stay);
        with an invalid form the form is shown again. */
    method PostEdit(viewer: UserName, pk: PostId, form: PostForm) returns (r: Outcome<Reply>)
      requires Valid() && viewer in users
      modifies this`posts
      ensures Valid()
      ensures PostIndex(old(posts), pk).None? ==> r == NotFound && posts == old(posts)
      ensures PostIndex(old(posts), pk).Some? ==>
        var i := PostIndex(old(posts), pk).value;
        if old(posts)[i].author != viewer then
          r == Ok(Redirect(PostDetailPage(pk))) && posts == old(posts)
        else if !PostFormAccepted(groups, form) then
          r == Ok(FormPage(true)) && posts == old(posts)
        else
          && r == Ok(Redirect(PostDetailPage(pk)))
          && |posts| == |old(posts)|
          && (forall j :: 0 <= j < |posts| && j != i ==> posts[j] == old(posts)[j])
          && posts[i] == Post(pk, viewer, form.text, form.group)
    {
      var found := PostIndex(posts, pk);
      if found.None? {
        return NotFound;
      }
      var i := found.value;
      var post := posts[i];
      if post.author != viewer {
        return Ok(Redirect(PostDetailPage(pk)));
      }
      if !PostFormAccepted(groups, form) {
        return Ok(FormPage(true));
      }
      var edited := post.(text := form.text, group := form.group);
      KeysAfterReplace(posts, i, edited);
      posts := posts[i := edited];
      r := Ok(Redirect(PostDetailPage(post.pk)));
    }

    /** `add_comment`: not found for an unknown key; otherwise a valid form
        appends the requester's comment to that post, and in either case the
        requester is sent to the post. */
    method AddComment(viewer: UserName, pk: PostId, form: CommentForm) returns (r: Outcome<Reply>)
      requires Valid() && viewer in users
      modifies this`comments
      ensures Valid()
      ensures PostIndex(posts, pk).None? ==> r == NotFound && comments == old(comments)
      ensures PostIndex(posts, pk).Some? ==> r == Ok(Redirect(PostDetailPage(pk)))
      ensures PostIndex(posts, pk).Some? && form.isValid ==>
        comments == old(comments) + [Comment(pk, viewer, form.text)]
      ensures PostIndex(posts, pk).Some? && !form.isValid ==> comments == old(comments)
    {
      var found := PostIndex(posts, pk);
      if found.None? {
        return NotFound;
      }
      if form.isValid {
        assert posts[found.value] in posts;
        comments := comments + [Comment(pk, viewer, form.text)];
      }
      r := Ok(Redirect(PostDetailPage(pk)));
    }
  }

  /** Every key in use is below `next` when every post's key is. */
  lemma PksBelow(posts: seq<Post>, next: PostId)
    requires forall i :: 0 <= i < |posts| ==> posts[i].pk < next
    ensures next !in Pks(posts)
  {
  }

  lemma KeysAfterPrepend(p: Post, posts: seq<Post>)
    ensures Pks([p] + posts) == Pks(posts) + {p.pk}
  {
    assert forall q :: q in [p] + posts <==> q == p || q in posts;
  }

  lemma KeysAfterReplace(posts: seq<Post>, i: nat, q: Post)
    requires i < |posts| && q.pk == posts[i].pk
    ensures Pks(posts[i := q]) == Pks(posts)
  {
    var after := posts[i := q];
    forall k | k in Pks(after) ensures k in Pks(posts) {
      var x :| x in after && x.pk == k;
      var j :| 0 <= j < |after| && after[j] == x;
      assert posts[j].pk == k;
    }
    forall k | k in Pks(posts) ensures k in Pks(after) {
      var x :| x in posts && x.pk == k;
      var j :| 0 <= j < |posts| && posts[j] == x;
      assert after[j].pk == k;
    }
  }

  /** The follow scenario end to end: `a` follows `b`, `b` posts, and the
      new post is in `a`'s feed and absent from the feed of `c`, who does not
      follow `b`. */
  method FollowScenario(s: Store, a: UserName, b: UserName, c: UserName, form: PostForm)
    requires s.Valid() && a in s.users && b in s.users && c in s.users
    requires a != b && c != a && !IsFollowing(s.follows, c, b) && PostFormAccepted(s.groups, form)
    modifies s
    ensures s.Valid()
    ensures |s.posts| > 0 && s.posts[0].author == b
    ensures s.posts[0] in FeedJoin(s.posts, s.follows, a)
    ensures s.posts[0] !in FeedJoin(s.posts, s.follows, c)
  {
    var followed := s.ProfileFollow(a, b);
    var created := s.PostCreate(b, form);
    FeedMembership(s.posts, s.follows, a, s.posts[0]);
    FeedMembership(s.posts, s.follows, c, s.posts[0]);
  }
}
