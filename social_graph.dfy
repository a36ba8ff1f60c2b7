/** The follow table: a sequence of (user, author) rows, and the two
    transitions the follow and unfollow views apply to it. */
module SocialGraph {
  import opened Models

  /** No row says that a user follows themself. */
  predicate NoSelfFollow(edges: seq<Follow>)
  {
    forall i :: 0 <= i < |edges| ==> edges[i].user != edges[i].author
  }

  /** No two rows record the same (user, author) pair. */
  predicate UniquePairs(edges: seq<Follow>)
  {
    forall i, j :: 0 <= i < j < |edges| ==> edges[i] != edges[j]
  }

  /** `Follow.objects.filter(user=user, author=author).exists()`. */
  predicate IsFollowing(edges: seq<Follow>, user: UserName, author: UserName)
  {
    Follow(user, author) in edges
  }

  /** Under the uniqueness constraint a pair has at most one row: exactly
      one if the user follows the author, none otherwise. */
  lemma {:induction false} UniquePairsAtMostOnce(edges: seq<Follow>, f: Follow)
    requires UniquePairs(edges)
    ensures multiset(edges)[f] == if f in edges then 1 else 0
  {
    if edges != [] {
      var rest := edges[1..];
      assert edges == [edges[0]] + rest;
      assert UniquePairs(rest) by {
        forall i, j | 0 <= i < j < |rest| ensures rest[i] != rest[j] {
          assert rest[i] == edges[i + 1] && rest[j] == edges[j + 1];
        }
      }
      UniquePairsAtMostOnce(rest, f);
      if edges[0] == f {
        forall i | 0 <= i < |rest| ensures rest[i] != f {
          assert rest[i] == edges[i + 1];
        }
      }
    }
  }

  /** The first row equal to `f`, if any: the row an ORM lookup returns. */
  function FindRow(edges: seq<Follow>, f: Follow): (r: Option<nat>)
    ensures r.None? <==> f !in edges
    ensures r.Some? ==> r.value < |edges| && edges[r.value] == f && f !in edges[..r.value]
  {
    if edges == [] then None
    else if edges[0] == f then Some(0)
    else
      match FindRow(edges[1..], f)
      case None => None
      case Some(i) =>
        assert edges[..i + 1] == [edges[0]] + edges[1..][..i];
        Some(i + 1)
  }

  /** The table after `profile_follow(user, author)`: a self-follow is
      refused, and `get_or_create` adds the row only when it is missing. */
  function AfterFollow(edges: seq<Follow>, user: UserName, author: UserName): (r: seq<Follow>)
    ensures user == author ==> r == edges
    ensures user != author ==> IsFollowing(r, user, author)
    ensures multiset(r) == multiset(edges) +
      (if user != author && !IsFollowing(edges, user, author) then multiset{Follow(user, author)} else multiset{})
    ensures forall f :: f in r <==> f in edges || (user != author && f == Follow(user, author))
    ensures NoSelfFollow(edges) ==> NoSelfFollow(r)
    ensures UniquePairs(edges) ==> UniquePairs(r)
  {
    if user != author && !IsFollowing(edges, user, author) then edges + [Follow(user, author)]
    else edges
  }

  /** The table once row `i` is deleted: exactly that row is gone, and
      the table constraints still hold. */
  function DeleteRow(edges: seq<Follow>, i: nat): (r: seq<Follow>)
    requires i < |edges|
    ensures multiset(r) == multiset(edges) - multiset{edges[i]}
    ensures |r| == |edges| - 1
    ensures forall g :: g in r ==> g in edges
    ensures NoSelfFollow(edges) ==> NoSelfFollow(r)
    ensures UniquePairs(edges) ==> UniquePairs(r) && edges[i] !in r
  {
    assert edges == edges[..i] + [edges[i]] + edges[i + 1..];
    var r := edges[..i] + edges[i + 1..];
    DeleteRowShift(edges, i);
    r
  }

  /** Deleting row i shifts the rows after it down by one, so the table
      constraints survive and, under uniqueness, the deleted pair is gone. */
  lemma DeleteRowShift(edges: seq<Follow>, i: nat)
    requires i < |edges|
    ensures NoSelfFollow(edges) ==> NoSelfFollow(edges[..i] + edges[i + 1..])
    ensures UniquePairs(edges) ==> UniquePairs(edges[..i] + edges[i + 1..]) && edges[i] !in edges[..i] + edges[i + 1..]
  {
    var r := edges[..i] + edges[i + 1..];
    assert forall j :: 0 <= j < |r| ==> r[j] == edges[if j < i then j else j + 1];
    if UniquePairs(edges) {
      forall j, k | 0 <= j < k < |r| ensures r[j] != r[k] {
        assert r[j] == edges[if j < i then j else j + 1];
        assert r[k] == edges[if k < i then k else k + 1];
      }
      forall j | 0 <= j < |r| ensures r[j] != edges[i] {
        assert r[j] == edges[if j < i then j else j + 1];
      }
    }
  }

  /** The table after `profile_unfollow(user, author)`: None when there is
      no row for the pair (a not-found error), otherwise the table with the
      row the lookup found deleted. */
  function AfterUnfollow(edges: seq<Follow>, user: UserName, author: UserName): (r: Option<seq<Follow>>)
    ensures r.None? <==> !IsFollowing(edges, user, author)
    ensures r.Some? ==> multiset(r.value) == multiset(edges) - multiset{Follow(user, author)}
    ensures r.Some? ==> |r.value| == |edges| - 1
    ensures r.Some? ==> forall f :: f != Follow(user, author) ==> (f in r.value <==> f in edges)
    ensures r.Some? && UniquePairs(edges) ==> !IsFollowing(r.value, user, author)
  {
    var f := Follow(user, author);
    match FindRow(edges, f)
    case None => None
    case Some(i) =>
      var rest := DeleteRow(edges, i);
      assert forall g :: g != f ==> multiset(rest)[g] == multiset(edges)[g];
      assert forall g :: g != f ==> (g in rest <==> g in edges) by {
        forall g | g != f ensures g in rest <==> g in edges {
          assert (g in rest <==> multiset(rest)[g] > 0) && (g in edges <==> multiset(edges)[g] > 0);
        }
      }
      Some(rest)
  }

  /** Following twice leaves the table as following once. */
  lemma FollowIdempotent(edges: seq<Follow>, user: UserName, author: UserName)
    ensures AfterFollow(AfterFollow(edges, user, author), user, author) == AfterFollow(edges, user, author)
  {
  }

  /** Under the table constraints, following twice leaves exactly one row
      for the pair. */
  lemma FollowTwiceOneRow(edges: seq<Follow>, user: UserName, author: UserName)
    requires UniquePairs(edges) && user != author
    ensures multiset(AfterFollow(AfterFollow(edges, user, author), user, author))[Follow(user, author)] == 1
  {
    FollowIdempotent(edges, user, author);
    UniquePairsAtMostOnce(AfterFollow(edges, user, author), Follow(user, author));
  }

  /** Follow then unfollow leaves no row for the pair, and a further
      unfollow is a not-found error. */
  lemma FollowThenUnfollow(edges: seq<Follow>, user: UserName, author: UserName)
    requires UniquePairs(edges) && user != author
    ensures AfterUnfollow(AfterFollow(edges, user, author), user, author).Some?
    ensures var e := AfterUnfollow(AfterFollow(edges, user, author), user, author).value;
      !IsFollowing(e, user, author) && AfterUnfollow(e, user, author).None?
  {
  }
}
