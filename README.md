# Yatube posts views, modelled in Dafny

Yatube is a small blog: users write posts, optionally in a group, comment on
posts, and follow other authors to get a feed of their posts. This project
models the decision logic of the `posts` views and the pagination helper they
share, over an in-memory store instead of the ORM:

- `models.dfy` (module `Models`): the records — users by unique handle,
  groups by unique slug, posts and comments by primary key, follow rows
  (`user` follows `author`), and the submitted post and comment forms as
  abstract valid/invalid values with their fields.
- `pagination.dfy` (module `Pagination`): `paging` from `utils.py` — a
  paginator over one ordered list with page size `POSTS_ON_PAGE` and the
  page picked by the request's `page` parameter, with Django's `get_page`
  fallbacks (missing or non-integer: page 1; out of range: the last page;
  an empty list has one empty page).
- `social_graph.dfy` (module `SocialGraph`): the follow table as a sequence
  of rows with its two constraints (no self-follow, one row per pair), and
  the table transitions of `profile_follow` (guarded `get_or_create`) and
  `profile_unfollow` (lookup-or-404, then delete).
- `views.dfy` (module `Views`): the read-only listings (`index`,
  `group_posts`, `profile` with its `following` flag, `follow_index`) as
  functions of the tables, the follow-feed query written as the join it is
  and proved equal to a plain filter under the one-row-per-pair constraint,
  and the class `Store` whose methods are the state-changing views
  (`profile_follow`, `profile_unfollow`, `post_create`, `post_edit`,
  `add_comment`), each keeping the table constraints `Valid()`.

`@login_required` becomes the precondition that the requester is a known
user; `get_object_or_404` becomes the `NotFound` outcome, which leaves the
store unchanged; a redirect or a re-rendered form is a `Reply` tag.

The post table is kept newest first: `post_create` puts the new post at the
head, which is the order the listings show (the ordering itself is declared
in the models module, which is not part of this model).

`profile_unfollow` with no follow row is a not-found error, not a no-op,
and `get_page` with an out-of-range number returns the last page, not an
empty page.

## Model

| member | source | states |
|---|---|---|
| Pagination.NumPages | yatube/posts/utils.py:6-8 | the page count is at least 1, the pages of that count cover the list, and for a non-empty list the last page starts inside it |
| Pagination.PageNumber | yatube/posts/utils.py:7-8 | the chosen page is in 1..numPages: the requested integer when it is in range, the last page when it is out of range, page 1 when the parameter is missing or not an integer |
| Pagination.OffsetIsProduct | yatube/posts/utils.py:8 | page number k starts at item (k-1)*perPage, the paginator's bottom index |
| Pagination.PageSlice | yatube/posts/utils.py:8 | a page holds at most perPage items, every page but the last is full, the last ends with the list, and item i of page k is item Offset(k)+i of the list, which OffsetIsProduct shows is (k-1)*perPage+i |
| Pagination.GetPage | yatube/posts/utils.py:8 | the page returned is numbered as the request parameter selects it (PageNumber), the page count is that of the whole list, and its items are that page's slice |
| Pagination.Paging | yatube/posts/utils.py:5-8 | the page has at most POSTS_ON_PAGE items, every item is an element of the given list, and the page is the paginator's page at POSTS_ON_PAGE for the request's parameter |
| Pagination.OverflowPage | yatube/posts/tests/test_views.py:245-276 | with perPage+extra items page 1 is full and page 2 is the last page holding exactly the extra items |
| Pagination.PagingThreeExtra | yatube/posts/tests/test_views.py:245-276 | with POSTS_ON_PAGE+3 items page 1 holds POSTS_ON_PAGE items and page 2 holds 3 and has no next page |
| Pagination.FlattenChunks | yatube/posts/utils.py:5-8 | the reference split of a list into runs of perPage loses and repeats nothing |
| Pagination.PageOfRest | yatube/posts/utils.py:8 | a list longer than one page has one page more than the list without its first page, and its page k+1 is that shorter list's page k |
| Pagination.ChunksArePages | yatube/posts/utils.py:5-8 | the paginator's pages are exactly that reference split, page by page, and their number is the page count |
| Pagination.PagesConcatenateToList | yatube/posts/utils.py:5-8 | reading all pages in order gives back the whole list |
| Pagination.PagingByNumber | yatube/posts/utils.py:7-8 | asking for an in-range page number k gives page k, and its items are the k-th of all pages |
| SocialGraph.UniquePairsAtMostOnce | yatube/posts/views.py:123 | under the one-row-per-pair constraint a pair has exactly one row if it is followed and none otherwise |
| SocialGraph.FindRow | yatube/posts/views.py:131-135 | the lookup finds no row exactly when the pair has none, and otherwise the first row equal to the pair |
| SocialGraph.AfterFollow | yatube/posts/views.py:119-124 | a self-follow leaves the table unchanged; otherwise the pair is followed afterwards, a row is added only if it was missing, no other row changes, and both table constraints are kept |
| SocialGraph.DeleteRow | yatube/posts/views.py:136 | deleting a row removes exactly that row and keeps every other one, keeps no-self-follow and one-row-per-pair, and under one-row-per-pair leaves no row equal to the deleted one |
| SocialGraph.AfterUnfollow | yatube/posts/views.py:128-137 | not found exactly when there is no row for the pair; otherwise one row fewer, every other pair's membership unchanged, and under the constraint the pair no longer followed |
| SocialGraph.FollowIdempotent | yatube/posts/views.py:123 | following twice gives the same table as following once |
| SocialGraph.FollowTwiceOneRow | yatube/posts/views.py:122-123 | after following twice there is exactly one row for the pair |
| SocialGraph.FollowThenUnfollow | yatube/posts/views.py:118-137 | follow then unfollow succeeds and leaves no row for the pair, and a second unfollow is not found |
| Views.Select | yatube/posts/views.py:21 | a listing filter keeps every matching post with its multiplicity and drops every other post |
| Views.FeedJoin | yatube/posts/views.py:110 | every post of the join is a post of the table whose author the viewer follows |
| Views.FeedIsSelect | yatube/posts/views.py:109-111 | under one row per pair, the join equals the filter of posts whose author the viewer follows |
| Views.IndexView | yatube/posts/views.py:9-15 | the index page has at most POSTS_ON_PAGE posts, all from the table, and the page count of the whole table |
| Views.GroupPostsView | yatube/posts/views.py:18-26 | not found exactly for an unknown slug; otherwise at most POSTS_ON_PAGE posts, each from the table and in that group |
| Views.GroupAllPages | yatube/posts/views.py:18-26 | for a known group, the page at each number is that page of the group's posts, and all pages together give the group's posts in table order, each once |
| Views.ProfileView | yatube/posts/views.py:29-40 | not found exactly for an unknown user; otherwise the following flag holds exactly when the viewer is logged in and follows the user, and the page holds only that user's posts |
| Views.ProfileAllPages | yatube/posts/views.py:29-40 | for a known user, the profile page at each number shows that page of the user's posts, and all pages together give the user's posts in table order, each once |
| Views.FollowIndexView | yatube/posts/views.py:106-115 | the feed page has at most POSTS_ON_PAGE posts, each from the table and by an author the viewer follows |
| Views.FollowFeedAllPages | yatube/posts/views.py:109-111 | all pages of the follow feed together are exactly the posts whose author the viewer follows, each once, in table order |
| Views.FeedMembership | yatube/posts/tests/test_views.py:205-226 | a post is in a viewer's feed exactly when the viewer follows its author |
| Views.NewPostHeadsProfile | yatube/posts/tests/test_forms.py:62-83 | a post put at the head of the table is the first item of page 1 of its author's profile |
| Views.PostIndex | yatube/posts/views.py:76 | the post lookup finds a post with the requested key, or reports that none has it |
| Views.Store.ProfileFollow | yatube/posts/views.py:118-124 | unknown user: not found and no change; otherwise redirect to the profile and the follow table becomes AfterFollow of the old one; the constraints are kept |
| Views.Store.ProfileUnfollow | yatube/posts/views.py:127-137 | unknown user or no row: not found and no change; otherwise redirect to the profile and the follow table becomes AfterUnfollow of the old one; the constraints are kept |
| Views.Store.PostCreate | yatube/posts/views.py:58-70 | valid form: exactly one new post, under a fresh key, authored by the requester, at the head of the table, and redirect to the requester's profile; a form that is invalid or names an unknown group: nothing changes and the form is shown again |
| Views.Store.PostEdit | yatube/posts/views.py:73-91 | unknown key: not found; requester not the author: redirect to the post and nothing changes; a form that is invalid or names an unknown group: form shown again and nothing changes; otherwise only that post changes, its text and group replaced, key and author kept |
| Views.Store.AddComment | yatube/posts/views.py:94-103 | unknown key: not found and no change; otherwise redirect to the post, and a valid form appends exactly one comment by the requester on that post while an invalid one adds nothing |
| Views.FollowScenario | yatube/posts/tests/test_views.py:205-226 | after a follows b and b posts, the new post is in a's feed and not in the feed of c, who does not follow b |

## Left out

- Template rendering, redirect URLs and the context beyond the page and the `following` flag: a view's answer is a tag (`Redirect`, `FormPage`, `NotFound`).
- The login decorator and sessions: a logged-in requester is a precondition; the anonymous case appears only in the profile's `following` flag.
- The whole-page cache of the index: it is time-based and lives outside the views modelled here.
- Form validation: a form is an abstract valid/invalid value with its fields, and the post form is accepted only when it is valid and its group, if any, exists (its group field offers only existing groups; forms.py is not part of this model); image upload and media storage are not modelled.
- Pagination.POSTS_ON_PAGE: the page size is read from the project settings, which are not part of this model; the value 10 is an assumption; PagingThreeExtra uses only that it exceeds 3, and the other lemmas only that it is positive.
- Page metadata beyond the page number, the page count and has-next/has-previous; the parsing of the `page` string into an integer is abstracted into `PageParam`.
- `post_detail` (yatube/posts/views.py:43-55), which only renders a post with its comments.
- Creating and deleting users and groups, and deleting posts or comments: no view modelled here does it; the store's users and groups are fixed at construction.
- The creation timestamp and the newest-first ordering declared by the models module: the post table's order is taken as given, with new posts put at its head.
- SocialGraph.AfterUnfollow: with more than one row for a pair the ORM lookup would raise an error; the model deletes the first row equal to the pair instead, and the store's constraints rule that case out.
- Views.FeedJoin: a database may return the rows of one post in any order; the model puts one post's copies together in table order.
- Pagination.Paging: that the page depends on nothing but the list and the request parameter is a consequence of it being a function of those two arguments, not a separate lemma.
