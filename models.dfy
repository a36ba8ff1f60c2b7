/** The records of the blog: users are named by their unique handle, groups by
    their unique slug, posts and comments by their primary key. */
module Models {

  type UserName = string
  type Slug = string
  type PostId = nat

  datatype Option<+T> = None | Some(value: T)

  /** A post: primary key, owning user, text and an optional group. */
  datatype Post = Post(pk: PostId, author: UserName, text: string, group: Option<Slug>)

  /** A comment: the post it is attached to, its author and its text. */
  datatype Comment = Comment(post: PostId, author: UserName, text: string)

  /** One row of the follow table: `user` follows `author`. */
  datatype Follow = Follow(user: UserName, author: UserName)

  /** What a submitted post form carries once the form layer has judged it. */
  datatype PostForm = PostForm(isValid: bool, text: string, group: Option<Slug>)

  /** What a submitted comment form carries once the form layer has judged it. */
  datatype CommentForm = CommentForm(isValid: bool, text: string)
}
