/** The post endpoints over the post and vote tables. The tables are the fields of a
    PostStore; each handler is a method that reads or updates them, and ends where the
    source commits. */
module Posts {
  import opened Wrappers
  import opened Uuids
  import opened Http
  import opened PyStr
  import opened Models
  import opened OAuth2
  import Schemas

  /** `schemas.PostOut`: a post with its number of votes. */
  datatype PostOut = PostOut(post: Post, votes: nat)

  /** The votes cast on `postId`: what `count(Vote.post_id)` counts for that post. */
  function VotesFor(votes: set<Vote>, postId: int): set<Vote> {
    set v | v in votes && v.postId == postId
  }

  /** The users who upvoted `postId`. */
  ghost function Voters(votes: set<Vote>, postId: int): set<Uuid> {
    set v | v in votes && v.postId == postId :: v.userId
  }

  /** Since a vote is identified by (user, post), a post's vote count is the number of
      distinct users who upvoted it. */
  lemma {:induction false} VoteCountIsVoterCount(votes: set<Vote>, postId: int)
    ensures |VotesFor(votes, postId)| == |Voters(votes, postId)|
    decreases votes
  {
    if VotesFor(votes, postId) == {} {
      assert forall v :: v in votes ==> v !in VotesFor(votes, postId);
    } else {
      var v :| v in VotesFor(votes, postId);
      var rest := votes - {v};
      VoteCountIsVoterCount(rest, postId);
      assert VotesFor(votes, postId) == VotesFor(rest, postId) + {v};
      assert Voters(votes, postId) == Voters(rest, postId) + {v.userId};
      assert v.userId !in Voters(rest, postId);
    }
  }

  function NotFound(id: int, how: string): Exception {
    HTTPException(HTTP_404_NOT_FOUND, "Post with id: " + IntToStr(id) + how, map[])
  }

  const NOT_AUTHORIZED: Exception :=
    HTTPException(HTTP_403_FORBIDDEN, "Not authorized to perform requested action", map[])

  /** PostgreSQL's bigint, to which LIMIT and OFFSET are converted, holds
      -2^63 .. 2^63 - 1. */
  const BIGINT_BOUND: int := 0x8000_0000_0000_0000

  predicate InBigint(n: int) {
    -BIGINT_BOUND <= n < BIGINT_BOUND
  }

  const BIGINT_OUT_OF_RANGE := "bigint out of range"

  /** psycopg2 cannot pass a string holding U+0000 as a statement parameter. */
  const NUL_REFUSED := "A string literal cannot contain NUL (0x00) characters."

  predicate HasNul(search: Option<string>) {
    search.Some? && '\0' in search.value
  }

  class PostStore {
    /** The "post" table, by primary key. */
    var posts: map<int, Post>
    /** The "votes" table. */
    var votes: set<Vote>
    /** The next value of the sequence behind the auto-incremented post id. */
    var nextId: int

    /** Every row sits under its own id, and ids come from the sequence. */
    ghost predicate Valid()
      reads this
    {
      && nextId >= 1
      && forall id :: id in posts ==> posts[id].id == id && 1 <= id < nextId
    }

    constructor ()
      ensures Valid() && posts == map[] && votes == {} && nextId == 1
    {
      posts, votes, nextId := map[], {}, 1;
    }

    /** `get_posts(limit, skip, search)`: the query filtered by `search` and bounded by
        `limit`/`skip` is run and its rows are dropped; the answer is every post with its
        vote count (0 for a post nobody voted for, through the outer join), in no
        particular order. The dropped query still fails, in this order:
        - the driver refuses a `search` holding a NUL character;
        - the planner folds OFFSET, then LIMIT, to bigint and refuses a value out of range;
        - the executor refuses a negative OFFSET, then a negative LIMIT. */
    method GetPosts(limit: int, skip: int, search: Option<string>) returns (r: Result<map<int, PostOut>, Exception>)
      ensures r.Err? <==> HasNul(search) || !(0 <= skip < BIGINT_BOUND) || !(0 <= limit < BIGINT_BOUND)
      ensures HasNul(search) ==> r == Err(DatabaseError(NUL_REFUSED))
      ensures !HasNul(search) && !InBigint(skip) ==> r == Err(DatabaseError(BIGINT_OUT_OF_RANGE))
      ensures !HasNul(search) && InBigint(skip) && !InBigint(limit) ==> r == Err(DatabaseError(BIGINT_OUT_OF_RANGE))
      ensures !HasNul(search) && InBigint(skip) && InBigint(limit) && skip < 0 ==>
                r == Err(DatabaseError("OFFSET must not be negative"))
      ensures !HasNul(search) && InBigint(limit) && 0 <= skip < BIGINT_BOUND && limit < 0 ==>
                r == Err(DatabaseError("LIMIT must not be negative"))
      ensures r.Ok? ==> r.value.Keys == posts.Keys
      ensures r.Ok? ==> forall id :: id in r.value ==>
        r.value[id].post == posts[id] && r.value[id].votes == |Voters(votes, id)|
    {
      if HasNul(search) {
        return Err(DatabaseError(NUL_REFUSED));
      }
      if !InBigint(skip) || !InBigint(limit) {
        return Err(DatabaseError(BIGINT_OUT_OF_RANGE));
      }
      if skip < 0 {
        return Err(DatabaseError("OFFSET must not be negative"));
      }
      if limit < 0 {
        return Err(DatabaseError("LIMIT must not be negative"));
      }
      var counted := map id | id in posts :: PostOut(posts[id], |VotesFor(votes, id)|);
      forall id | id in counted
        ensures counted[id].votes == |Voters(votes, id)|
      {
        VoteCountIsVoterCount(votes, id);
      }
      r := Ok(counted);
    }

    /** `create_post(payload, current_user)`: inserts one row owned by the caller, with the
        payload's fields, the next sequence value as id and the database time `now`. */
    method CreatePost(payload: Schemas.PostCreate, currentUser: TokenData, now: int) returns (newPost: Post)
      requires Valid()
      modifies this
      ensures Valid()
      ensures newPost == Post(old(nextId), Some(payload.title), Some(payload.content), Some(payload.published),
                              payload.rating, now, currentUser.userId)
      ensures newPost.id !in old(posts) && posts == old(posts)[newPost.id := newPost]
      ensures votes == old(votes) && nextId == old(nextId) + 1
    {
      newPost := Post(nextId, Some(payload.title), Some(payload.content), Some(payload.published),
                      payload.rating, now, currentUser.userId);
      posts := posts[nextId := newPost];
      nextId := nextId + 1;
    }

    /** `get_post(id)`: the post with that id, or 404. */
    method GetPost(id: int) returns (r: Result<Post, Exception>)
      ensures r.Ok? <==> id in posts
      ensures r.Ok? ==> r.value == posts[id]
      ensures r.Err? ==> r.error == NotFound(id, " was not found")
    {
      if id !in posts {
        return Err(NotFound(id, " was not found"));
      }
      r := Ok(posts[id]);
    }

    /** `delete_post(id, current_user)`: 404 for a missing post is decided before 403 for
        a caller who does not own it; both leave the tables as they were. The owner's
        request removes that one row and answers 204. */
    method DeletePost(id: int, currentUser: TokenData) returns (r: Result<Response, Exception>)
      requires Valid()
      modifies this
      ensures Valid()
      ensures id !in old(posts) ==> r == Err(NotFound(id, " does not exist")) && posts == old(posts)
      ensures id in old(posts) && old(posts)[id].ownerId != currentUser.userId ==>
                r == Err(NOT_AUTHORIZED) && posts == old(posts)
      ensures id in old(posts) && old(posts)[id].ownerId == currentUser.userId ==>
                && r == Ok(Response(HTTP_204_NO_CONTENT,
                                    "Post with id: " + IntToStr(id) + " has been deleted successfully",
                                    map["X-Deleted-Post-ID" := IntToStr(id)]))
                && posts == old(posts) - {id}
      ensures votes == old(votes) && nextId == old(nextId)
    {
      if id !in posts {
        return Err(NotFound(id, " does not exist"));
      }
      var post := posts[id];
      if post.ownerId != currentUser.userId {
        return Err(NOT_AUTHORIZED);
      }
      posts := posts - {id};
      r := Ok(Response(HTTP_204_NO_CONTENT, "Post with id: " + IntToStr(id) + " has been deleted successfully",
                       map["X-Deleted-Post-ID" := IntToStr(id)]));
    }

    /** `update_post_in_db(id, payload)`: no caller identity is asked for. A missing post
        gives 404; otherwise all four payload fields are written, None included, since
        `payload.dict()` keeps the fields the request left out, and the updated row is
        returned. */
    method UpdatePost(id: int, payload: Schemas.PostUpdate) returns (r: Result<Post, Exception>)
      requires Valid()
      modifies this
      ensures Valid()
      ensures id !in old(posts) ==> r == Err(NotFound(id, " does not exist")) && posts == old(posts)
      ensures id in old(posts) ==>
                && r == Ok(old(posts)[id].(title := payload.title, content := payload.content,
                                          published := payload.published, rating := payload.rating))
                && posts == old(posts)[id := r.value]
      ensures votes == old(votes) && nextId == old(nextId)
    {
      if id !in posts {
        return Err(NotFound(id, " does not exist"));
      }
      var updated := posts[id].(title := payload.title, content := payload.content,
                                published := payload.published, rating := payload.rating);
      posts := posts[id := updated];
      r := Ok(posts[id]);
    }
  }

  /** Deleting a post owned by another user is refused with 403 and deletes nothing; the
      owner's request succeeds with 204, after which the post is gone. */
  method OwnerOnlyDelete(owner: Uuid, other: Uuid, payload: Schemas.PostCreate, now: int)
    returns (byOther: Result<Response, Exception>, byOwner: Result<Response, Exception>,
             afterwards: Result<Post, Exception>)
    requires owner != other
    ensures byOther == Err(NOT_AUTHORIZED)
    ensures byOwner.Ok? && byOwner.value.status == HTTP_204_NO_CONTENT
    ensures afterwards.Err? && afterwards.error.HTTPException? && afterwards.error.status == HTTP_404_NOT_FOUND
  {
    var store := new PostStore();
    var post := store.CreatePost(payload, TokenData(owner), now);
    byOther := store.DeletePost(post.id, TokenData(other));
    byOwner := store.DeletePost(post.id, TokenData(owner));
    afterwards := store.GetPost(post.id);
  }
}
